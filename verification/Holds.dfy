/**
  The wallet_holds table. Each approval route releases holds by its own text, so the
  ACTIVE holds equal the held balance exactly while every withdrawal takes its own route.
 */
module Holds {
  import opened Tables
  import opened Books
  import opened Charges
  import W = Withdrawals
  import C = Collections
  import opened Invariants
  import opened PayoutProofs
  import opened Steps
  import opened Runs

  predicate HoldFollows(s: State, w: nat)
    requires w < |s.withdrawals| == |s.holds|
  {
    var hold, row := s.holds[w], s.withdrawals[w];
    && hold.withdrawal == w && hold.wallet == row.wallet && hold.platformText == row.wallet.Platform?
    && (hold.active <==> row.status.Pending?)
    && (row.status.Pending? ==> hold.amount == row.Cost())
  }

  /** Each withdrawal has one hold, ACTIVE exactly while it is pending. */
  predicate HoldsFollow(s: State) {
    |s.holds| == |s.withdrawals| && forall w :: 0 <= w < |s.withdrawals| ==> HoldFollows(s, w)
  }

  /** A pending withdrawal is closed by a step that looks for its own kind of hold. */
  predicate Routed(s: State, event: Event) {
    event.Payout? && !event.payout.Request? && event.payout.w < |s.withdrawals|
        && s.withdrawals[event.payout.w].status.Pending? ==>
      match event.payout
      case Settle(w) => !s.withdrawals[w].wallet.Platform?
      case ApprovePlatform(w, _, _) => s.withdrawals[w].wallet.Platform?
      case PayoutFailed(w) => !s.withdrawals[w].wallet.Platform?
      case PayoutPending(_) => false
      case _ => true
  }

  /** One row and its own hold were written. */
  lemma FollowsByRow(s: State, t: State, w: nat, text: Option<bool>)
    requires HoldsFollow(s) && w < |s.withdrawals| == |t.withdrawals|
    requires t.withdrawals == s.withdrawals[w := t.withdrawals[w]] && t.withdrawals[w].wallet == s.withdrawals[w].wallet
    requires t.holds == W.ReleaseHolds(s.holds, w, s.withdrawals[w].wallet, text)
    requires !t.withdrawals[w].status.Pending?
    ensures HoldsFollow(t)
         <==> (s.withdrawals[w].status.Pending? && text.Some? ==> text.value == s.withdrawals[w].wallet.Platform?)
  {
    assert HoldFollows(s, w);
    forall v | 0 <= v < |t.withdrawals| && v != w ensures HoldFollows(t, v) {
      assert HoldFollows(s, v);
    }
    assert HoldFollows(t, w)
        <==> (s.withdrawals[w].status.Pending? && text.Some? ==> text.value == s.withdrawals[w].wallet.Platform?);
  }

  /** Settling through a route keeps the holds in step exactly when the route is the withdrawal's own. */
  lemma SettleFollowsExactly(s: State, w: nat, platformText: bool)
    requires Sound(s) && HoldsFollow(s) && w < |s.withdrawals| && s.withdrawals[w].status.Pending?
    ensures HoldsFollow(W.SettleWithdrawal(s, w, platformText).state)
         <==> platformText == s.withdrawals[w].wallet.Platform?
  {
    SettleResult(s, w, platformText);
    FollowsByRow(s, SettledState(s, w, platformText), w, Some(platformText));
  }

  /** A row that is not pending may change; its released hold stays released. */
  lemma FollowsQuietly(s: State, t: State, w: nat)
    requires HoldsFollow(s) && w < |s.withdrawals| == |t.withdrawals| && t.holds == s.holds
    requires t.withdrawals == s.withdrawals[w := t.withdrawals[w]] && t.withdrawals[w].wallet == s.withdrawals[w].wallet
    requires !s.withdrawals[w].status.Pending? && !t.withdrawals[w].status.Pending?
    ensures HoldsFollow(t)
  {
    assert HoldFollows(s, w);
    forall v | 0 <= v < |t.withdrawals| ensures HoldFollows(t, v) {
      assert HoldFollows(s, v);
    }
  }

  lemma FailFollows(s: State, w: nat)
    requires Sound(s) && HoldsFollow(s) && w < |s.withdrawals| && !s.withdrawals[w].status.Failed?
    requires s.withdrawals[w].status.Pending? ==> !s.withdrawals[w].wallet.Platform?
    ensures HoldsFollow(W.FailPayout(s, w).state)
  {
    assert GoodRow(s, w);
    FailFrame(s, w);
    FollowsByRow(s, W.FailPayout(s, w).state, w, Some(false));
  }

  lemma CompensateFollows(s: State, w: nat)
    requires Sound(s) && HoldsFollow(s) && w < |s.withdrawals| && s.withdrawals[w].submitting
    ensures HoldsFollow(W.CompensateWithdrawal(s, w).state)
  {
    assert GoodRow(s, w);
    var row := s.withdrawals[w].(submitting := false);
    RefundFrame(s.(withdrawals := s.withdrawals[w := row.(status := PayoutStatus.Failed)]), w, row);
    FollowsQuietly(s, W.CompensateWithdrawal(s, w).state, w);
  }

  lemma SubmitFollows(s: State, w: nat, payout: Option<nat>, reported: Option<nat>)
    requires Sound(s) && HoldsFollow(s) && w < |s.withdrawals| && s.withdrawals[w].submitting
    ensures HoldsFollow(W.SubmitPayout(s, w, payout, reported).state)
  {
    assert GoodRow(s, w);
    SubmitFrame(s, w, payout, reported);
    if s.withdrawals[w].wallet.Organization? {
      SubmitOrganizationResult(s, w, payout, W.ProviderFee(s.withdrawals[w], reported));
    }
    FollowsQuietly(s, W.SubmitPayout(s, w, payout, reported).state, w);
  }

  lemma RequestFollows(policy: FeePolicy, s: State, user: nat, owner: Owner, amount: int)
    requires HoldsFollow(s)
    ensures HoldsFollow(W.RequestWithdrawal(policy, s, user, owner, amount).state)
  {
    var t := W.RequestWithdrawal(policy, s, user, owner, amount).state;
    forall v | 0 <= v < |t.withdrawals| ensures |t.holds| == |t.withdrawals| && HoldFollows(t, v) {
      if v < |s.withdrawals| { assert HoldFollows(s, v); }
    }
  }

  lemma StepFollows(policy: FeePolicy, s: State, event: Event)
    requires Sound(s) && HoldsFollow(s) && Routed(s, event)
    ensures HoldsFollow(Step(policy, s, event).state)
  {
    match event
    case Collection(collection) => CollectionKeepsRows(s, collection);
      CollectionKeepsHolds(s, collection);
      FollowsUnchanged(s, Step(policy, s, event).state);
    case Payout(payout) => PayoutFollows(policy, s, payout);
  }

  lemma CollectionKeepsHolds(s: State, event: C.Event)
    ensures C.Step(s, event).state.holds == s.holds
  {}

  lemma FollowsUnchanged(s: State, t: State)
    requires HoldsFollow(s) && t.withdrawals == s.withdrawals && t.holds == s.holds
    ensures HoldsFollow(t)
  {
    forall v | 0 <= v < |t.withdrawals| ensures HoldFollows(t, v) {
      assert HoldFollows(s, v);
    }
  }

  lemma PayoutFollows(policy: FeePolicy, s: State, event: W.Event)
    requires Sound(s) && HoldsFollow(s) && Routed(s, Payout(event))
    ensures HoldsFollow(W.Step(policy, s, event).state)
  {
    if event.Request? {
      RequestFollows(policy, s, event.user, event.owner, event.amount);
    } else if event.w < |s.withdrawals| {
      var w := event.w;
      assert GoodRow(s, w);
      match event
      case Settle(_) => if s.withdrawals[w].status.Pending? { SettleFollowsExactly(s, w, false); }
      case ApprovePlatform(_, _, _) => if s.withdrawals[w].status.Pending? { SettleFollowsExactly(s, w, true); }
      case Submit(_, id, reported) => if s.withdrawals[w].submitting { SubmitFollows(s, w, id, reported); }
      case Compensate(_) => if s.withdrawals[w].submitting { CompensateFollows(s, w); }
      case Reject(_) =>
        if s.withdrawals[w].status.Pending? { FollowsByRow(s, W.RejectWithdrawal(s, w).state, w, None); }
      case PayoutSucceeded(_) =>
        if s.withdrawals[w].status.Processing? { FollowsQuietly(s, W.CompletePayout(s, w).state, w); }
      case PayoutFailed(_) => if !s.withdrawals[w].status.Failed? { FailFollows(s, w); }
      case PayoutPending(_) => if !s.withdrawals[w].status.Failed? && !s.withdrawals[w].status.Completed? {
        FollowsQuietly(s, W.MarkPayoutPending(s, w).state, w); }
    }
  }

  /** One event keeps the holds in step exactly when it closes a withdrawal by its own route. */
  lemma StepFollowsExactly(policy: FeePolicy, s: State, event: Event)
    requires Sound(s) && HoldsFollow(s)
    ensures HoldsFollow(Step(policy, s, event).state) <==> Routed(s, event)
  {
    if Routed(s, event) {
      StepFollows(policy, s, event);
    } else {
      var w := event.payout.w;
      assert GoodRow(s, w);
      match event.payout
      case Settle(_) => SettleFollowsExactly(s, w, false);
      case ApprovePlatform(_, _, _) => SettleFollowsExactly(s, w, true);
      case PayoutFailed(_) => FailFrame(s, w); FollowsByRow(s, W.FailPayout(s, w).state, w, Some(false));
      case PayoutPending(_) => assert HoldFollows(s, w) && !HoldFollows(W.MarkPayoutPending(s, w).state, w);
      case _ =>
    }
  }

  // ---------- The holds add up to the held balance ----------

  lemma {:induction false} SameSums(holds: seq<Hold>, rows: seq<Withdrawal>, o: Owner)
    requires |holds| == |rows|
    requires forall w :: 0 <= w < |rows| ==> ActiveFor(o)(holds[w]) == ReservedFor(o)(rows[w])
    ensures Sum(holds, ActiveFor(o)) == Sum(rows, ReservedFor(o))
  {
    if rows != [] {
      SameSums(holds[..|rows| - 1], rows[..|rows| - 1], o);
    }
  }

  predicate ReservedRouted(s: State, event: Event) {
    KeepsReserves(s, event) && Routed(s, event)
  }

  /** Over a run from an empty database the holds stay in step all along exactly when every event is routed. */
  lemma HoldsFollowExactly(policy: FeePolicy, events: seq<Event>)
    requires policy.Valid()
    ensures Always(policy, EMPTY, events, HoldsFollow) <==> Along(policy, EMPTY, events, Routed)
  {
    EmptyIsFine();
    forall t, e | Sound(t) && HoldsFollow(t) ensures HoldsFollow(Step(policy, t, e).state) <==> Routed(t, e) {
      StepFollowsExactly(policy, t, e);
    }
    AlwaysExactly(policy, EMPTY, events, HoldsFollow, Routed);
  }

  /** On their own routes, refunds included, the ACTIVE holds of every wallet add up to its held balance. */
  lemma ActiveHoldsAreHeld(policy: FeePolicy, events: seq<Event>, o: Owner)
    requires policy.Valid() && Along(policy, EMPTY, events, ReservedRouted)
    ensures Sum(Run(policy, EMPTY, events).holds, ActiveFor(o)) == HeldBy(Run(policy, EMPTY, events), o)
  {
    var t := Run(policy, EMPTY, events);
    AlongWeaker(policy, EMPTY, events, ReservedRouted, Routed);
    AlongWeaker(policy, EMPTY, events, ReservedRouted, KeepsReserves);
    HoldsFollowExactly(policy, events);
    EmptyIsFine();
    RunReserves(policy, EMPTY, events);
    forall w | 0 <= w < |t.withdrawals| ensures ActiveFor(o)(t.holds[w]) == ReservedFor(o)(t.withdrawals[w]) {
      assert HoldFollows(t, w);
    }
    SameSums(t.holds, t.withdrawals, o);
  }
}
