/**
  Where a wallet's money comes from: the change every outcome makes to every balance, and
  the closed form all of them add up to. Each wallet has what the recorded payments
  brought in, less what its paid withdrawals cost, plus the platform's shares of fees.
 */
module Balances {
  import opened Tables
  import opened Books
  import opened Charges
  import W = Withdrawals
  import C = Collections
  import opened Invariants
  import opened PayoutProofs
  import opened RefundProofs
  import opened CollectionProofs
  import opened Steps
  import opened Conservation
  import opened Runs

  function BalanceAt(s: State, o: Owner): int {
    if o in s.wallets then s.wallets[o].balance else 0
  }

  /** What a recorded payment brought a wallet. */
  function Earned(o: Owner): Payment -> int {
    (payment: Payment) =>
      (if o == Organization(payment.organization) then payment.amount else 0)
      + (if o.Platform? then payment.serviceFee else 0)
  }

  /** The platform's share of the fee, while it is allocated. */
  function ShareFor(o: Owner, row: Withdrawal): int {
    if o.Platform? && Shares(row) then row.share else 0
  }

  function CostFor(o: Owner, row: Withdrawal): int {
    if o == row.wallet then row.Cost() else 0
  }

  /** What a withdrawal takes from a wallet as long as it is paid. */
  function Spent(o: Owner): Withdrawal -> int {
    (row: Withdrawal) => if row.Paid() then CostFor(o, row) - ShareFor(o, row) else 0
  }

  // ---------- What each outcome moves ----------

  /** The money a step moves to a wallet, by the outcome it reports; every other outcome moves none. */
  function Flow(policy: FeePolicy, s: State, event: Event, o: Owner): int {
    var outcome := Step(policy, s, event).outcome;
    match event
    case Collection(collection) =>
      if collection.Complete? && outcome.Credited? && collection.p < |s.pendings|
      then
        var row := s.pendings[collection.p];
        (if o == Organization(row.organization) then row.amount else 0) + (if o.Platform? then row.ServiceFee() else 0)
      else 0
    case Payout(payout) =>
      if payout.Request? || payout.w >= |s.withdrawals| then 0
      else
        var row := s.withdrawals[payout.w];
        if outcome.Debited? then -CostFor(o, row)
        else if outcome.Refunded? then CostFor(o, row) - ShareFor(o, row)
        else if payout.PayoutFailed? && outcome.Done? then -ShareFor(o, row)
        else if payout.Submit? && outcome.Done? then SubmitSlack(row, payout.reported, o)
        else 0
  }

  /** Spendable and held money together are the balance. */
  lemma BalanceSplits(s: State, o: Owner)
    ensures BalanceAt(s, o) == Slack(s, o) + HeldBy(s, o)
  {}

  lemma CreditBalances(s: State, p: nat, charge: nat, settled: int, o: Owner)
    requires p < |s.pendings|
    ensures BalanceAt(C.CreditPayment(s, p, charge, settled), o)
         == BalanceAt(s, o) + Earned(o)(PaymentOf(s.pendings[p], charge))
  {
    var row := s.pendings[p];
    var paid := CreditedWallets(s, row.organization, row.amount, row.ServiceFee());
    assert C.CreditPayment(s, p, charge, settled).wallets == paid.wallets;
    assert BalanceAt(paid, o) == BalanceAt(C.CreditPayment(s, p, charge, settled), o);
  }

  lemma CollectionMoney(policy: FeePolicy, s: State, event: C.Event, o: Owner)
    ensures BalanceAt(C.Step(s, event).state, o) == BalanceAt(s, o) + Flow(policy, s, Collection(event), o)
  {
    if event.Complete? && C.Step(s, event).outcome.Credited? {
      CreditBalances(s, event.p, event.charge, event.amount, o);
    } else {
      assert C.Step(s, event).state.wallets == s.wallets;
    }
  }

  lemma SettleMoney(s: State, w: nat, platformText: bool, o: Owner)
    requires Sound(s) && w < |s.withdrawals| && s.withdrawals[w].status.Pending?
    ensures W.SettleWithdrawal(s, w, platformText).outcome.Debited?
    ensures BalanceAt(W.SettleWithdrawal(s, w, platformText).state, o) == BalanceAt(s, o) - CostFor(o, s.withdrawals[w])
  {
    SettleResult(s, w, platformText);
  }

  lemma SubmitMoney(s: State, w: nat, payout: Option<nat>, reported: Option<nat>, o: Owner)
    requires Sound(s) && w < |s.withdrawals| && s.withdrawals[w].submitting
    ensures var r := W.SubmitPayout(s, w, payout, reported);
            && (r.outcome.Done? || r == Result(s, Refused))
            && BalanceAt(r.state, o) == BalanceAt(s, o) +
                 if r.outcome.Done? then SubmitSlack(s.withdrawals[w], reported, o) else 0
  {
    assert GoodRow(s, w);
    SubmitFrame(s, w, payout, reported);
    var row := s.withdrawals[w];
    if row.wallet.Organization? {
      SubmitOrganizationResult(s, w, payout, W.ProviderFee(row, reported));
    }
    BalanceSplits(s, o);
    BalanceSplits(W.SubmitPayout(s, w, payout, reported).state, o);
  }

  /** While a call is submitting no share is allocated, so the cost is all that comes back. */
  lemma CompensateMoney(s: State, w: nat, o: Owner)
    requires Sound(s) && w < |s.withdrawals| && s.withdrawals[w].submitting
    ensures var r := W.CompensateWithdrawal(s, w);
            && (r.outcome.Refunded? <==> s.withdrawals[w].status.Processing? && s.withdrawals[w].payout.None?)
            && !r.outcome.Debited? && !Shares(s.withdrawals[w])
            && BalanceAt(r.state, o) == BalanceAt(s, o) +
                 if r.outcome.Refunded? then CostFor(o, s.withdrawals[w]) else 0
  {
    assert GoodRow(s, w);
    var row := s.withdrawals[w].(submitting := false);
    if row.status.Processing? && row.payout.None? {
      var s1 := s.(withdrawals := s.withdrawals[w := row.(status := PayoutStatus.Failed)]);
      RefundFrame(s1, w, row);
      BalanceSplits(s1, o);
      BalanceSplits(W.CompensateWithdrawal(s, w).state, o);
    }
  }

  lemma FailMoney(s: State, w: nat, o: Owner)
    requires Sound(s) && w < |s.withdrawals| && !s.withdrawals[w].status.Failed?
    ensures var r := W.FailPayout(s, w);
            && (r.outcome.Refunded? <==> s.withdrawals[w].status.Processing?)
                 && (!r.outcome.Refunded? ==> r.outcome.Done?)
            && BalanceAt(r.state, o) == BalanceAt(s, o) - ShareFor(o, s.withdrawals[w])
                                        + if r.outcome.Refunded? then CostFor(o, s.withdrawals[w]) else 0
  {
    assert GoodRow(s, w);
    FailFrame(s, w);
    BalanceSplits(s, o);
    BalanceSplits(W.FailPayout(s, w).state, o);
  }

  /** Requests, rejections and the notices of success or progress move nothing. */
  lemma QuietMoney(policy: FeePolicy, s: State, event: W.Event, o: Owner)
    requires event.Request? || event.Reject? || event.PayoutSucceeded? || event.PayoutPending?
    ensures BalanceAt(W.Step(policy, s, event).state, o) == BalanceAt(s, o)
    ensures Flow(policy, s, Payout(event), o) == 0
  {
    if event.Request? {
      RequestWrites(policy, s, event.user, event.owner, event.amount);
    }
  }

  lemma PayoutMoney(policy: FeePolicy, s: State, event: W.Event, o: Owner)
    requires Sound(s)
    ensures BalanceAt(W.Step(policy, s, event).state, o) == BalanceAt(s, o) + Flow(policy, s, Payout(event), o)
  {
    match event {
      case Settle(_) => DebitMoney(policy, s, event, o);
      case ApprovePlatform(_, _, _) => DebitMoney(policy, s, event, o);
      case Submit(w, id, reported) =>
        if w < |s.withdrawals| && s.withdrawals[w].submitting { SubmitMoney(s, w, id, reported, o); }
      case Compensate(w) => if w < |s.withdrawals| && s.withdrawals[w].submitting { CompensateMoney(s, w, o); }
      case PayoutFailed(w) => if w < |s.withdrawals| && !s.withdrawals[w].status.Failed? { FailMoney(s, w, o); }
      case _ => QuietMoney(policy, s, event, o);
    }
  }

  lemma DebitMoney(policy: FeePolicy, s: State, event: W.Event, o: Owner)
    requires Sound(s) && (event.Settle? || event.ApprovePlatform?)
    ensures BalanceAt(W.Step(policy, s, event).state, o) == BalanceAt(s, o) + Flow(policy, s, Payout(event), o)
  {
    if event.w < |s.withdrawals| && s.withdrawals[event.w].status.Pending? {
      SettleMoney(s, event.w, event.ApprovePlatform?, o);
    }
  }

  /** In any order of events, a step changes each balance by exactly what its outcome says. */
  lemma StepMoney(policy: FeePolicy, s: State, event: Event, o: Owner)
    requires Sound(s)
    ensures BalanceAt(Step(policy, s, event).state, o) == BalanceAt(s, o) + Flow(policy, s, event, o)
  {
    match event
    case Collection(collection) => CollectionMoney(policy, s, collection, o);
    case Payout(payout) => PayoutMoney(policy, s, payout, o);
  }

  // ---------- The closed form ----------

  /** Every balance is what payments brought in less what paid withdrawals take. */
  ghost predicate Accounted(s: State) {
    forall o :: BalanceAt(s, o) == Sum(s.payments, Earned(o)) - Sum(s.withdrawals, Spent(o))
  }

  /** A payout step in order pays a wallet exactly what its row takes less than before. */
  ghost predicate PaysForRow(s: State, t: State, w: nat) {
    && w < |s.withdrawals| == |t.withdrawals| && t.payments == s.payments
    && t.withdrawals == s.withdrawals[w := t.withdrawals[w]]
    && forall o :: BalanceAt(t, o) - BalanceAt(s, o) == Spent(o)(s.withdrawals[w]) - Spent(o)(t.withdrawals[w])
  }

  lemma SettlePaysForRow(s: State, w: nat, platformText: bool)
    requires Sound(s) && w < |s.withdrawals| && s.withdrawals[w].status.Pending?
    ensures PaysForRow(s, W.SettleWithdrawal(s, w, platformText).state, w)
  {
    assert GoodRow(s, w);
    SettleResult(s, w, platformText);
    forall o { SettleMoney(s, w, platformText, o); }
  }

  lemma SubmitPaysForRow(s: State, w: nat, payout: Option<nat>, reported: Option<nat>)
    requires Sound(s) && w < |s.withdrawals| && s.withdrawals[w].submitting
    requires s.withdrawals[w].status.Failed? && !W.PayoutTaken(s, w, payout) ==> MovesNoFee(s.withdrawals[w], reported)
    ensures PaysForRow(s, W.SubmitPayout(s, w, payout, reported).state, w)
  {
    assert GoodRow(s, w);
    SubmitFrame(s, w, payout, reported);
    SubmitKeepsCollections(s, w, payout, reported);
    forall o { SubmitMoney(s, w, payout, reported, o); }
    if W.SubmitPayout(s, w, payout, reported).outcome.Done? {
      SubmitWrites(s, w, payout, reported);
    }
  }

  /** The row a submission writes. */
  lemma SubmitWrites(s: State, w: nat, payout: Option<nat>, reported: Option<nat>)
    requires Sound(s) && w < |s.withdrawals| && s.withdrawals[w].submitting
    requires W.SubmitPayout(s, w, payout, reported).outcome.Done?
    ensures var row := s.withdrawals[w];
            var after := W.SubmitPayout(s, w, payout, reported).state.withdrawals;
            && |after| == |s.withdrawals|
            && after[w].amount == row.amount && after[w].wallet == row.wallet && after[w].status == row.status
            && if row.wallet.Organization?
               then after[w].fee == row.fee && after[w].feeSplit
                   && after[w].share == Max(0, row.fee - W.ProviderFee(row, reported))
               else after[w].fee == W.ProviderFee(row, reported) && !after[w].feeSplit
  {
    assert GoodRow(s, w);
    if s.withdrawals[w].wallet.Organization? {
      SubmitOrganizationResult(s, w, payout, W.ProviderFee(s.withdrawals[w], reported));
    }
  }

  lemma CompensatePaysForRow(s: State, w: nat)
    requires Sound(s) && w < |s.withdrawals| && s.withdrawals[w].submitting
    ensures PaysForRow(s, W.CompensateWithdrawal(s, w).state, w)
  {
    assert GoodRow(s, w);
    var row := s.withdrawals[w].(submitting := false);
    RefundFrame(s.(withdrawals := s.withdrawals[w := row.(status := PayoutStatus.Failed)]), w, row);
    forall o { CompensateMoney(s, w, o); }
  }

  lemma FailPaysForRow(s: State, w: nat)
    requires Sound(s) && w < |s.withdrawals|
        && (s.withdrawals[w].status.Pending? || s.withdrawals[w].status.Processing?)
    ensures PaysForRow(s, W.FailPayout(s, w).state, w)
  {
    assert GoodRow(s, w);
    FailFrame(s, w);
    forall o { FailMoney(s, w, o); }
  }

  lemma PayoutPaysForRow(policy: FeePolicy, s: State, event: W.Event)
    requires Sound(s) && Orderly(s, Payout(event)) && !event.Request? && event.w < |s.withdrawals|
    ensures PaysForRow(s, W.Step(policy, s, event).state, event.w)
  {
    var w := event.w;
    var row := s.withdrawals[w];
    assert s.withdrawals[w := row] == s.withdrawals;
    match event
    case Settle(_) => if row.status.Pending? { SettlePaysForRow(s, w, false); }
    case ApprovePlatform(_, _, _) => if row.status.Pending? { SettlePaysForRow(s, w, true); }
    case Submit(_, id, reported) => if row.submitting { SubmitPaysForRow(s, w, id, reported); }
    case Compensate(_) => if row.submitting { CompensatePaysForRow(s, w); }
    case Reject(_) => assert forall o :: BalanceAt(W.RejectWithdrawal(s, w).state, o) == BalanceAt(s, o);
    case PayoutFailed(_) => if !row.status.Failed? { FailPaysForRow(s, w); }
    case _ =>
  }

  // ---------- Whole runs ----------

  lemma RowAccounted(s: State, t: State, w: nat)
    requires Accounted(s) && PaysForRow(s, t, w)
    ensures Accounted(t)
  {
    forall o ensures BalanceAt(t, o) == Sum(t.payments, Earned(o)) - Sum(t.withdrawals, Spent(o)) {
      SumUpdate(s.withdrawals, w, t.withdrawals[w], Spent(o));
    }
  }

  lemma CreditAccounted(s: State, event: C.Event, o: Owner)
    requires event.Complete? && C.Step(s, event).outcome.Credited?
    ensures var t := C.Step(s, event).state;
            BalanceAt(t, o) - BalanceAt(s, o) == Sum(t.payments, Earned(o)) - Sum(s.payments, Earned(o))
  {
    CompletionRecords(s, event);
    CreditBalances(s, event.p, event.charge, event.amount, o);
    SumAppend(s.payments, PaymentOf(s.pendings[event.p], event.charge), Earned(o));
  }

  lemma CollectionAccounted(policy: FeePolicy, s: State, event: C.Event)
    requires Accounted(s)
    ensures Accounted(C.Step(s, event).state)
  {
    var t := C.Step(s, event).state;
    CollectionKeepsRows(s, event);
    CompletionRecords(s, event);
    forall o ensures BalanceAt(t, o) == Sum(t.payments, Earned(o)) - Sum(t.withdrawals, Spent(o)) {
      if event.Complete? && C.Step(s, event).outcome.Credited? {
        CreditAccounted(s, event, o);
      } else {
        CollectionMoney(policy, s, event, o);
      }
    }
  }

  lemma RequestAccounted(policy: FeePolicy, s: State, user: nat, owner: Owner, amount: int)
    requires Accounted(s)
    ensures Accounted(W.RequestWithdrawal(policy, s, user, owner, amount).state)
  {
    var t := W.RequestWithdrawal(policy, s, user, owner, amount).state;
    RequestWrites(policy, s, user, owner, amount);
    forall o ensures BalanceAt(t, o) == Sum(t.payments, Earned(o)) - Sum(t.withdrawals, Spent(o)) {
      assert BalanceAt(t, o) == BalanceAt(s, o);
      if t.withdrawals != s.withdrawals {
        SumAppend(s.withdrawals, t.withdrawals[|s.withdrawals|], Spent(o));
      }
    }
  }

  /** A request writes a pending row at most, and moves nothing. */
  lemma RequestWrites(policy: FeePolicy, s: State, user: nat, owner: Owner, amount: int)
    ensures var t := W.RequestWithdrawal(policy, s, user, owner, amount).state;
            && t.payments == s.payments
            && (forall o :: BalanceAt(t, o) == BalanceAt(s, o))
            && (t.withdrawals == s.withdrawals
                || (|t.withdrawals| == |s.withdrawals| + 1 && t.withdrawals[|s.withdrawals|].status.Pending?
                    && t.withdrawals == s.withdrawals + [t.withdrawals[|s.withdrawals|]]))
  {
  }

  lemma StepKeepsAccounted(policy: FeePolicy, s: State, event: Event)
    requires policy.Valid() && Sound(s) && Accounted(s) && Orderly(s, event)
    ensures Accounted(Step(policy, s, event).state)
  {
    match event
    case Collection(collection) => CollectionAccounted(policy, s, collection);
    case Payout(payout) =>
      if payout.Request? {
        RequestAccounted(policy, s, payout.user, payout.owner, payout.amount);
      } else if payout.w < |s.withdrawals| {
        PayoutPaysForRow(policy, s, payout);
        RowAccounted(s, W.Step(policy, s, payout).state, payout.w);
      }
  }

  /**
    In the provider's order every wallet has, at any time, exactly what the payments
    recorded for it brought in, less the cost of its withdrawals that are paid now; the
    platform also has its share of every organisation's paid withdrawal.
   */
  lemma {:induction false} RunAccounts(policy: FeePolicy, s: State, events: seq<Event>)
    requires policy.Valid() && Sound(s) && Accounted(s) && Along(policy, s, events, Orderly)
    ensures Sound(Run(policy, s, events)) && Accounted(Run(policy, s, events))
  {
    if events != [] {
      var t := Run(policy, s, events[..|events| - 1]);
      RunAccounts(policy, s, events[..|events| - 1]);
      StepKeepsSound(policy, t, events[|events| - 1]);
      StepKeepsAccounted(policy, t, events[|events| - 1]);
    }
  }

  lemma BalancesFollowRows(policy: FeePolicy, events: seq<Event>, o: Owner)
    requires policy.Valid() && Along(policy, EMPTY, events, Orderly)
    ensures var t := Run(policy, EMPTY, events);
            BalanceAt(t, o) == Sum(t.payments, Earned(o)) - Sum(t.withdrawals, Spent(o))
  {
    EmptyIsFine();
    assert Accounted(EMPTY);
    RunAccounts(policy, EMPTY, events);
  }

  // ---------- Exactly when ----------

  /** A balance that moved by anything else than its row's cost is out of step. */
  lemma OutOfStep(s: State, t: State, w: nat, o: Owner)
    requires Accounted(s) && w < |s.withdrawals| == |t.withdrawals| && t.payments == s.payments
    requires t.withdrawals == s.withdrawals[w := t.withdrawals[w]]
    requires BalanceAt(t, o) - BalanceAt(s, o) != Spent(o)(s.withdrawals[w]) - Spent(o)(t.withdrawals[w])
    ensures !Accounted(t)
  {
    SumUpdate(s.withdrawals, w, t.withdrawals[w], Spent(o));
    assert BalanceAt(s, o) == Sum(s.payments, Earned(o)) - Sum(s.withdrawals, Spent(o));
  }

  lemma LateSubmissionUnaccounted(s: State, w: nat, payout: Option<nat>, reported: Option<nat>)
    requires Sound(s) && Accounted(s) && w < |s.withdrawals| && s.withdrawals[w].submitting
    requires s.withdrawals[w].status.Failed? && !W.PayoutTaken(s, w, payout)
    requires !MovesNoFee(s.withdrawals[w], reported)
    ensures !Accounted(W.SubmitPayout(s, w, payout, reported).state)
  {
    assert GoodRow(s, w);
    var row := s.withdrawals[w];
    var o := if row.wallet.Organization? then Platform else row.wallet;
    if row.wallet.Organization? {
      SubmitOrganizationResult(s, w, payout, W.ProviderFee(row, reported));
    }
    SubmitMoney(s, w, payout, reported, o);
    SubmitKeepsCollections(s, w, payout, reported);
    SubmitFrame(s, w, payout, reported);
    OutOfStep(s, W.SubmitPayout(s, w, payout, reported).state, w, o);
  }

  /** A step keeps every balance in step with the rows exactly when it comes in the provider's order. */
  lemma StepAccountsExactly(policy: FeePolicy, s: State, event: Event)
    requires policy.Valid() && Sound(s) && Accounted(s)
    ensures Accounted(Step(policy, s, event).state) <==> Orderly(s, event)
  {
    if Orderly(s, event) {
      StepKeepsAccounted(policy, s, event);
    } else {
      var w := event.payout.w;
      assert GoodRow(s, w);
      var o := s.withdrawals[w].wallet;
      match event.payout
      case Submit(_, id, reported) => LateSubmissionUnaccounted(s, w, id, reported);
      case PayoutFailed(_) =>
        FailMoney(s, w, o);
        FailFrame(s, w);
        PayoutKeepsCollections(policy, s, event.payout);
        OutOfStep(s, W.FailPayout(s, w).state, w, o);
      case PayoutPending(_) => OutOfStep(s, W.MarkPayoutPending(s, w).state, w, o);
      case _ =>
    }
  }

  /** Over a run from an empty database the balances follow the rows all along exactly when it is in order. */
  lemma AccountsExactly(policy: FeePolicy, events: seq<Event>)
    requires policy.Valid()
    ensures Always(policy, EMPTY, events, Accounted) <==> Along(policy, EMPTY, events, Orderly)
  {
    EmptyIsFine();
    assert Accounted(EMPTY);
    forall t, e | Sound(t) && Accounted(t) ensures Accounted(Step(policy, t, e).state) <==> Orderly(t, e) {
      StepAccountsExactly(policy, t, e);
    }
    AlwaysExactly(policy, EMPTY, events, Accounted, Orderly);
  }
}
