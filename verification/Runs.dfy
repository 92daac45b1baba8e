/**
  Whole runs of the money engine: any sequence of requests, approvals, submissions,
  webhooks, checkouts, notifications and clean-ups, in any order.
 */
module Runs {
  import opened Tables
  import opened Books
  import opened Charges
  import W = Withdrawals
  import C = Collections
  import opened Invariants
  import opened PayoutProofs
  import opened RefundProofs
  import opened CollectionProofs
  import opened Steps
  import opened Conservation

  function Run(policy: FeePolicy, s: State, events: seq<Event>): State {
    if events == [] then s
    else Step(policy, Run(policy, s, events[..|events| - 1]), events[|events| - 1]).state
  }

  /** The condition holds of every event in the state where it happens. */
  predicate Along(policy: FeePolicy, s: State, events: seq<Event>, ok: (State, Event) -> bool) {
    events == []
    || (Along(policy, s, events[..|events| - 1], ok)
        && ok(Run(policy, s, events[..|events| - 1]), events[|events| - 1]))
  }

  lemma {:induction false} AlongWeaker(policy: FeePolicy, s: State, events: seq<Event>,
                                       strong: (State, Event) -> bool, weak: (State, Event) -> bool)
    requires Along(policy, s, events, strong)
    requires forall t, e :: strong(t, e) ==> weak(t, e)
    ensures Along(policy, s, events, weak)
  {
    if events != [] {
      AlongWeaker(policy, s, events[..|events| - 1], strong, weak);
    }
  }

  /** The property holds at the beginning and after every event. */
  ghost predicate Always(policy: FeePolicy, s: State, events: seq<Event>, good: State -> bool) {
    good(Run(policy, s, events)) && (events != [] ==> Always(policy, s, events[..|events| - 1], good))
  }

  lemma {:induction false} RunKeepsSound(policy: FeePolicy, s: State, events: seq<Event>)
    requires policy.Valid() && Sound(s)
    ensures Sound(Run(policy, s, events))
  {
    if events != [] {
      RunKeepsSound(policy, s, events[..|events| - 1]);
      StepKeepsSound(policy, Run(policy, s, events[..|events| - 1]), events[|events| - 1]);
    }
  }

  /** Where each step keeps a property exactly on a condition, runs keep it all along exactly on that condition. */
  lemma {:induction false} AlwaysExactly(policy: FeePolicy, s: State, events: seq<Event>,
                                         good: State -> bool, ok: (State, Event) -> bool)
    requires policy.Valid() && Sound(s) && good(s)
    requires forall t, e :: Sound(t) && good(t) ==> (good(Step(policy, t, e).state) <==> ok(t, e))
    ensures Always(policy, s, events, good) <==> Along(policy, s, events, ok)
  {
    if events != [] {
      AlwaysExactly(policy, s, events[..|events| - 1], good, ok);
      RunKeepsSound(policy, s, events[..|events| - 1]);
    }
  }

  // ---------- Conservation, in every order ----------

  /**
    In any order of any events no money is created or destroyed: what wallets and account
    1100 hold grows by exactly what the recorded payments bring in.
   */
  lemma {:induction false} RunConserves(policy: FeePolicy, s: State, events: seq<Event>)
    requires policy.Valid() && Sound(s)
    ensures Sound(Run(policy, s, events)) && Surplus(Run(policy, s, events)) == Surplus(s)
  {
    if events != [] {
      RunConserves(policy, s, events[..|events| - 1]);
      StepKeepsSound(policy, Run(policy, s, events[..|events| - 1]), events[|events| - 1]);
      StepKeepsSurplus(policy, Run(policy, s, events[..|events| - 1]), events[|events| - 1]);
    }
  }

  /** Wallets and account 1100 stay even with account 1200 all along exactly when every credit is on its row's terms. */
  lemma WorthStaysExactly(policy: FeePolicy, s: State, events: seq<Event>)
    requires policy.Valid() && Sound(s)
    ensures Always(policy, s, events, (t: State) => Worth(t) == Worth(s)) <==> Along(policy, s, events, Matched)
  {
    var good := (t: State) => Worth(t) == Worth(s);
    forall t, e | Sound(t) && good(t) ensures good(Step(policy, t, e).state) <==> Matched(t, e) {
      StepConservesExactly(policy, t, e);
    }
    AlwaysExactly(policy, s, events, good, Matched);
  }

  /** The entries of collections balance at the end exactly when every credit was on its row's terms. */
  lemma {:induction false} CollectionsBalanceExactly(policy: FeePolicy, s: State, events: seq<Event>)
    requires policy.Valid() && Sound(s) && CollectionsBalance(s)
    ensures CollectionsBalance(Run(policy, s, events)) <==> Along(policy, s, events, Matched)
  {
    if events != [] {
      var before := events[..|events| - 1];
      CollectionsBalanceExactly(policy, s, before);
      RunKeepsSound(policy, s, before);
      StepBalancesExactly(policy, Run(policy, s, before), events[|events| - 1]);
    }
  }

  /** From an empty database, the same of all entries. */
  lemma EntriesBalanceExactly(policy: FeePolicy, events: seq<Event>)
    requires policy.Valid()
    ensures var t := Run(policy, EMPTY, events);
            (forall e :: 0 <= e < |t.entries| ==> Balances(t.entries[e].lines))
            <==> Along(policy, EMPTY, events, Matched)
  {
    EmptyIsFine();
    RunKeepsSound(policy, EMPTY, events);
    CollectionsBalanceExactly(policy, EMPTY, events);
    EntriesBalance(Run(policy, EMPTY, events));
  }

  /** Checkouts opened for their rows' own amounts are enough for that. */
  lemma {:induction false} SameTermsMatch(policy: FeePolicy, events: seq<Event>)
    requires policy.Valid() && Along(policy, EMPTY, events, SameTerms)
    ensures Along(policy, EMPTY, events, Matched) && TermsAgree(Run(policy, EMPTY, events))
  {
    if events != [] {
      var before := events[..|events| - 1];
      SameTermsMatch(policy, before);
      EmptyIsFine();
      RunKeepsSound(policy, EMPTY, before);
      StepKeepsTerms(policy, Run(policy, EMPTY, before), events[|events| - 1]);
    }
  }

  // ---------- The books, in the provider's order ----------

  lemma {:induction false} RunSettles(policy: FeePolicy, s: State, events: seq<Event>)
    requires policy.Valid() && Sound(s) && Settled(s) && Along(policy, s, events, Orderly)
    ensures Sound(Run(policy, s, events)) && Settled(Run(policy, s, events))
  {
    if events != [] {
      var t := Run(policy, s, events[..|events| - 1]);
      RunSettles(policy, s, events[..|events| - 1]);
      StepKeepsSound(policy, t, events[|events| - 1]);
      StepKeepsSettled(policy, t, events[|events| - 1]);
    }
  }

  lemma {:induction false} RunReserves(policy: FeePolicy, s: State, events: seq<Event>)
    requires policy.Valid() && Sound(s) && Reserved(s) && Along(policy, s, events, KeepsReserves)
    ensures Sound(Run(policy, s, events)) && Reserved(Run(policy, s, events))
  {
    if events != [] {
      var t := Run(policy, s, events[..|events| - 1]);
      RunReserves(policy, s, events[..|events| - 1]);
      StepKeepsSound(policy, t, events[|events| - 1]);
      StepKeepsReserved(policy, t, events[|events| - 1]);
    }
  }

  // ---------- Solvency ----------

  /** The provider's fee difference, or a share taken back, fits what the wallet can spend. */
  predicate Affordable(s: State, event: Event) {
    && (event.Payout? && event.payout.Submit? && event.payout.w < |s.withdrawals| ==>
          var row := s.withdrawals[event.payout.w];
          row.submitting && !row.wallet.Organization? && !W.PayoutTaken(s, event.payout.w, event.payout.payout) ==>
            W.ProviderFee(row, event.payout.reported) - row.fee <= Slack(s, row.wallet))
    && (event.Payout? && event.payout.PayoutFailed? && event.payout.w < |s.withdrawals| ==>
          var row := s.withdrawals[event.payout.w];
          !row.status.Failed? && Shares(row) ==> row.share <= Slack(s, Platform))
  }

  predicate KeepsSolvent(s: State, event: Event) {
    KeepsReserves(s, event) && Affordable(s, event)
  }

  lemma PayoutSolvent(policy: FeePolicy, s: State, event: W.Event)
    requires policy.Valid() && Sound(s) && Reserved(s) && Solvent(s) && Affordable(s, Payout(event))
    ensures forall o :: Slack(W.Step(policy, s, event).state, o) >= 0
  {
    match event
    case Request(user, owner, amount) =>
      WalletEnsured(s, owner);
    case Settle(w) =>
      SettleSolvent(s, w, false);
    case ApprovePlatform(w, _, _) =>
      SettleSolvent(s, w, true);
    case Submit(w, id, reported) =>
      if w < |s.withdrawals| && s.withdrawals[w].submitting { SubmitFrame(s, w, id, reported); }
    case Compensate(w) =>
      CompensateSolvent(s, w);
    case Reject(w) =>
      RejectSolvent(s, w);
    case PayoutFailed(w) =>
      if w < |s.withdrawals| && !s.withdrawals[w].status.Failed? { assert GoodRow(s, w); FailFrame(s, w); }
    case _ =>
      assert forall o :: Slack(W.Step(policy, s, event).state, o) == Slack(s, o);
  }

  lemma RejectSolvent(s: State, w: nat)
    requires Sound(s) && Reserved(s) && Solvent(s)
    ensures forall o :: Slack(W.RejectWithdrawal(s, w).state, o) >= 0
  {
    forall o ensures Slack(W.RejectWithdrawal(s, w).state, o) >= 0 {
      assert HeldBy(s, o) >= 0 && Slack(s, o) >= 0;
      assert w < |s.withdrawals| ==> GoodRow(s, w);
    }
  }

  lemma SettleSolvent(s: State, w: nat, platformText: bool)
    requires Sound(s) && Reserved(s) && Solvent(s)
    ensures forall o :: Slack(W.SettleWithdrawal(s, w, platformText).state, o) >= 0
  {
    if w < |s.withdrawals| && s.withdrawals[w].status.Pending? {
      SettleResult(s, w, platformText);
      ReserveCovers(s, w);
      forall o ensures Slack(SettledState(s, w, platformText), o) == Slack(s, o) {}
    }
  }

  lemma CompensateSolvent(s: State, w: nat)
    requires Sound(s) && Solvent(s)
    ensures forall o :: Slack(W.CompensateWithdrawal(s, w).state, o) >= 0
  {
    if w < |s.withdrawals| && s.withdrawals[w].submitting {
      assert GoodRow(s, w);
      var row := s.withdrawals[w];
      if row.status.Processing? && row.payout.None? {
        var s1 := s.(withdrawals := s.withdrawals[w := row.(status := PayoutStatus.Failed, submitting := false)]);
        RefundFrame(s1, w, row.(submitting := false));
        assert forall o :: Slack(s1, o) == Slack(s, o);
      } else {
        assert forall o :: Slack(W.CompensateWithdrawal(s, w).state, o) == Slack(s, o);
      }
    } else {
      assert W.CompensateWithdrawal(s, w).state == s;
    }
  }

  lemma CollectionSolvent(s: State, event: C.Event)
    requires Sound(s) && Solvent(s)
    ensures forall o :: Slack(C.Step(s, event).state, o) >= 0
  {
    var r := C.Step(s, event);
    if event.Complete? && r.outcome.Credited? {
      var row := s.pendings[event.p];
      var paid := CreditedWallets(s, row.organization, row.amount, row.ServiceFee());
      CreditEffects(s, row.organization, row.amount, row.ServiceFee());
      assert r.state.wallets == paid.wallets;
      forall o ensures Slack(r.state, o) >= 0 { assert Slack(r.state, o) == Slack(paid, o); }
    } else {
      forall o ensures Slack(r.state, o) >= 0 { assert Slack(r.state, o) == Slack(s, o); }
    }
  }

  lemma ReservedIsNatural(s: State)
    requires Sound(s) && Reserved(s)
    ensures forall o :: HeldBy(s, o) >= 0
  {
    forall o ensures HeldBy(s, o) >= 0 {
      forall w | 0 <= w < |s.withdrawals| ensures ReservedFor(o)(s.withdrawals[w]) >= 0 { assert GoodRow(s, w); }
      SumNonNegative(s.withdrawals, ReservedFor(o));
    }
  }

  lemma {:induction false} RunStaysSolvent(policy: FeePolicy, s: State, events: seq<Event>)
    requires policy.Valid() && Sound(s) && Reserved(s) && Solvent(s) && Along(policy, s, events, KeepsSolvent)
    ensures var t := Run(policy, s, events);
            Sound(t) && Reserved(t) && Solvent(t)
  {
    if events != [] {
      var t := Run(policy, s, events[..|events| - 1]);
      var event := events[|events| - 1];
      RunStaysSolvent(policy, s, events[..|events| - 1]);
      StepKeepsSound(policy, t, event);
      StepKeepsReserved(policy, t, event);
      ReservedIsNatural(Step(policy, t, event).state);
      match event
      case Payout(payout) => PayoutSolvent(policy, t, payout);
      case Collection(collection) => CollectionSolvent(t, collection);
    }
  }

  // ---------- Runs without late payout webhooks ----------

  /** Everything but the provider's payout-failed and payout-pending webhooks. */
  predicate Core(s: State, event: Event) {
    !(event.Payout? && (event.payout.PayoutFailed? || event.payout.PayoutPending?))
  }

  /** As `Core`, and the provider never takes more than the fee that was quoted. */
  predicate CoreQuoted(s: State, event: Event) {
    && Core(s, event)
    && (event.Payout? && event.payout.Submit? && event.payout.w < |s.withdrawals| ==>
          W.ProviderFee(s.withdrawals[event.payout.w], event.payout.reported) <= s.withdrawals[event.payout.w].fee)
  }

  /** A call that is submitting works on a row that was not refunded. */
  predicate LiveSubmissions(s: State) {
    forall w :: 0 <= w < |s.withdrawals| && s.withdrawals[w].submitting ==> s.withdrawals[w].Paid()
  }

  lemma LiveByRow(s: State, t: State, w: nat)
    requires LiveSubmissions(s) && w < |s.withdrawals| == |t.withdrawals|
    requires t.withdrawals == s.withdrawals[w := t.withdrawals[w]]
    requires t.withdrawals[w].submitting ==> t.withdrawals[w].Paid()
    ensures LiveSubmissions(t)
  {}

  lemma SettleLive(s: State, w: nat, platformText: bool)
    requires Sound(s) && LiveSubmissions(s)
    ensures LiveSubmissions(W.SettleWithdrawal(s, w, platformText).state)
  {
    if w < |s.withdrawals| && s.withdrawals[w].status.Pending? {
      SettleResult(s, w, platformText);
      LiveByRow(s, SettledState(s, w, platformText), w);
    }
  }

  lemma CompensateLive(s: State, w: nat)
    requires Sound(s) && LiveSubmissions(s)
    ensures LiveSubmissions(W.CompensateWithdrawal(s, w).state)
  {
    if w < |s.withdrawals| && s.withdrawals[w].submitting {
      assert GoodRow(s, w);
      var row := s.withdrawals[w].(submitting := false);
      RefundFrame(s.(withdrawals := s.withdrawals[w := row.(status := PayoutStatus.Failed)]), w, row);
      LiveByRow(s, W.CompensateWithdrawal(s, w).state, w);
    }
  }

  lemma SubmitLive(s: State, w: nat, id: Option<nat>, reported: Option<nat>)
    requires Sound(s) && LiveSubmissions(s)
    ensures LiveSubmissions(W.SubmitPayout(s, w, id, reported).state)
  {
    if w < |s.withdrawals| && s.withdrawals[w].submitting {
      SubmitFrame(s, w, id, reported);
      LiveByRow(s, W.SubmitPayout(s, w, id, reported).state, w);
    }
  }

  lemma CoreStepLive(policy: FeePolicy, s: State, event: Event)
    requires Sound(s) && LiveSubmissions(s) && Core(s, event)
    ensures LiveSubmissions(Step(policy, s, event).state)
  {
    if event.Payout? {
      match event.payout
      case Settle(w) => SettleLive(s, w, false);
      case ApprovePlatform(w, _, _) => SettleLive(s, w, true);
      case Submit(w, id, reported) => SubmitLive(s, w, id, reported);
      case Compensate(w) => CompensateLive(s, w);
      case _ =>
    } else {
      CollectionKeepsRows(s, event.collection);
    }
  }

  lemma CollectionKeepsRows(s: State, event: C.Event)
    ensures C.Step(s, event).state.withdrawals == s.withdrawals
  {}

  lemma CoreIsOrderly(s: State, event: Event)
    requires LiveSubmissions(s) && Core(s, event)
    ensures Orderly(s, event) && KeepsReserves(s, event)
  {}

  lemma EmptyIsFine()
    ensures Sound(EMPTY) && Settled(EMPTY) && Reserved(EMPTY) && Solvent(EMPTY) && LiveSubmissions(EMPTY)
    ensures Worth(EMPTY) == 0 && Surplus(EMPTY) == 0
  {}

  lemma {:induction false} CoreRunIsOrderly(policy: FeePolicy, events: seq<Event>)
    requires policy.Valid() && Along(policy, EMPTY, events, Core)
    ensures Along(policy, EMPTY, events, Orderly) && Along(policy, EMPTY, events, KeepsReserves)
    ensures Sound(Run(policy, EMPTY, events)) && LiveSubmissions(Run(policy, EMPTY, events))
  {
    EmptyIsFine();
    if events != [] {
      var t := Run(policy, EMPTY, events[..|events| - 1]);
      CoreRunIsOrderly(policy, events[..|events| - 1]);
      CoreIsOrderly(t, events[|events| - 1]);
      CoreStepLive(policy, t, events[|events| - 1]);
      StepKeepsSound(policy, t, events[|events| - 1]);
    }
  }

  lemma {:induction false} QuotedRunIsAffordable(policy: FeePolicy, events: seq<Event>)
    requires policy.Valid() && Along(policy, EMPTY, events, CoreQuoted)
    ensures Along(policy, EMPTY, events, Core) && Along(policy, EMPTY, events, KeepsSolvent)
  {
    AlongWeaker(policy, EMPTY, events, CoreQuoted, Core);
    CoreRunIsOrderly(policy, events);
    EmptyIsFine();
    if events != [] {
      QuotedRunIsAffordable(policy, events[..|events| - 1]);
      RunStaysSolvent(policy, EMPTY, events[..|events| - 1]);
    }
  }

  // ---------- Everything together ----------

  /**
    From an empty database, after any number of collections and withdrawals in the
    provider's order: wallets and account 1100 together hold what the payments brought in,
    every wallet agrees with its ledger account, 1100 holds the money in transit, the
    earnings report is the platform wallet's balance, and each account follows from the
    posted entries. The total is what Bachs collected, and every entry balances, if credits
    are on their rows' terms, and the entries balance only then. Held balances are the
    pending withdrawals if no webhook releases what others hold, and fit the balances if
    fees are affordable, in whatever order the other events come.
   */
  lemma BooksAgree(policy: FeePolicy, events: seq<Event>)
    requires policy.Valid()
    ensures var t := Run(policy, EMPTY, events);
            && Total(t.wallets, BalanceOf) + t.clearing == Sum(t.payments, Brought)
            && (forall o :: o in t.wallets ==> t.wallets[o].ledger == t.wallets[o].balance)
            && ((forall e :: 0 <= e < |t.entries| ==> Balances(t.entries[e].lines))
                <==> Along(policy, EMPTY, events, Matched))
    ensures Along(policy, EMPTY, events, Matched) ==>
              var t := Run(policy, EMPTY, events);
              Total(t.wallets, BalanceOf) + t.clearing == t.settlement
    ensures Along(policy, EMPTY, events, Orderly) ==>
              var t := Run(policy, EMPTY, events);
              t.clearing == Sum(t.withdrawals, InTransit) && Earnings(t) == PlatformBalance(t) && JournalAgrees(t)
    ensures Along(policy, EMPTY, events, KeepsReserves) ==>
              var t := Run(policy, EMPTY, events);
              forall o :: o in t.wallets ==> t.wallets[o].held == Sum(t.withdrawals, ReservedFor(o))
    ensures Along(policy, EMPTY, events, KeepsSolvent) ==>
              var t := Run(policy, EMPTY, events);
              forall o :: o in t.wallets ==> 0 <= t.wallets[o].held <= t.wallets[o].balance
  {
    EmptyIsFine();
    RunConserves(policy, EMPTY, events);
    EntriesBalanceExactly(policy, events);
    if Along(policy, EMPTY, events, Matched) {
      WorthStaysExactly(policy, EMPTY, events);
    }
    if Along(policy, EMPTY, events, Orderly) {
      RunSettles(policy, EMPTY, events);
    }
    if Along(policy, EMPTY, events, KeepsReserves) {
      HeldIsReserved(policy, events);
    }
    if Along(policy, EMPTY, events, KeepsSolvent) {
      HeldIsCovered(policy, events);
    }
  }

  lemma HeldIsReserved(policy: FeePolicy, events: seq<Event>)
    requires policy.Valid() && Along(policy, EMPTY, events, KeepsReserves)
    ensures var t := Run(policy, EMPTY, events);
            forall o :: o in t.wallets ==> t.wallets[o].held == Sum(t.withdrawals, ReservedFor(o))
  {
    var t := Run(policy, EMPTY, events);
    EmptyIsFine();
    RunReserves(policy, EMPTY, events);
    forall o | o in t.wallets ensures t.wallets[o].held == Sum(t.withdrawals, ReservedFor(o)) {
      assert HeldBy(t, o) == Sum(t.withdrawals, ReservedFor(o));
    }
  }

  lemma HeldIsCovered(policy: FeePolicy, events: seq<Event>)
    requires policy.Valid() && Along(policy, EMPTY, events, KeepsSolvent)
    ensures var t := Run(policy, EMPTY, events);
            forall o :: o in t.wallets ==> 0 <= t.wallets[o].held <= t.wallets[o].balance
  {
    var t := Run(policy, EMPTY, events);
    EmptyIsFine();
    RunStaysSolvent(policy, EMPTY, events);
    forall o | o in t.wallets ensures 0 <= t.wallets[o].held <= t.wallets[o].balance {
      assert 0 <= HeldBy(t, o) && 0 <= Slack(t, o);
    }
  }

  /** Without failed and pending payout webhooks the order needs no condition, and quoted fees suffice for solvency. */
  lemma CoreBooksAgree(policy: FeePolicy, events: seq<Event>)
    requires policy.Valid() && Along(policy, EMPTY, events, Core)
    ensures var t := Run(policy, EMPTY, events);
            && t.clearing == Sum(t.withdrawals, InTransit)
            && Earnings(t) == PlatformBalance(t)
            && JournalAgrees(t)
            && (forall o :: o in t.wallets ==> t.wallets[o].held == Sum(t.withdrawals, ReservedFor(o)))
            && (Along(policy, EMPTY, events, CoreQuoted) ==>
                  forall o :: o in t.wallets ==> 0 <= t.wallets[o].held <= t.wallets[o].balance)
            && (Along(policy, EMPTY, events, SameTerms) ==>
                  Total(t.wallets, BalanceOf) + t.clearing == t.settlement)
  {
    CoreRunIsOrderly(policy, events);
    if Along(policy, EMPTY, events, CoreQuoted) {
      QuotedRunIsAffordable(policy, events);
    }
    if Along(policy, EMPTY, events, SameTerms) {
      SameTermsMatch(policy, events);
    }
    BooksAgree(policy, events);
  }
}
