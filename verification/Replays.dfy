/**
  Nothing happens twice: over any run, with no condition on the order or number of
  webhooks, polls and retries, a reference brings in the money of one payment at most,
  and a withdrawal is debited at most once and refunded at most once. The outcomes
  counted here are tied to money by `Balances.StepMoney`.
 */
module Replays {
  import opened Tables
  import opened Books
  import opened Charges
  import W = Withdrawals
  import C = Collections
  import opened Invariants
  import opened Steps
  import opened Runs
  import opened Conservation
  import opened Balances

  // ---------- Credits ----------

  function HasReference(reference: nat): Payment -> int {
    (payment: Payment) => if payment.reference == reference then 1 else 0
  }

  function PaymentsOf(s: State, reference: nat): int {
    Sum(s.payments, HasReference(reference))
  }

  /** The step credited wallets for a pending payment with this reference. */
  predicate Credits(policy: FeePolicy, s: State, event: Event, reference: nat) {
    && event.Collection? && event.collection.Complete? && Step(policy, s, event).outcome.Credited?
    && event.collection.p < |s.pendings| && s.pendings[event.collection.p].reference == reference
  }

  function CreditCount(policy: FeePolicy, s: State, events: seq<Event>, reference: nat): nat {
    if events == [] then 0
    else
      var before := events[..|events| - 1];
      CreditCount(policy, s, before, reference)
      + if Credits(policy, Run(policy, s, before), events[|events| - 1], reference) then 1 else 0
  }

  lemma StepPayments(policy: FeePolicy, s: State, event: Event, reference: nat)
    ensures PaymentsOf(Step(policy, s, event).state, reference)
         == PaymentsOf(s, reference) + if Credits(policy, s, event, reference) then 1 else 0
    ensures Credits(policy, s, event, reference) ==> PaymentsOf(s, reference) == 0
  {
    match event
    case Collection(collection) => CollectionPayments(s, collection, reference);
    case Payout(payout) => PayoutKeepsCollections(policy, s, payout);
  }

  lemma CollectionPayments(s: State, event: C.Event, reference: nat)
    ensures var credits := event.Complete? && C.Step(s, event).outcome.Credited?
                           && event.p < |s.pendings| && s.pendings[event.p].reference == reference;
            && PaymentsOf(C.Step(s, event).state, reference) == PaymentsOf(s, reference) + (if credits then 1 else 0)
            && (credits ==> PaymentsOf(s, reference) == 0)
  {
    CompletionRecords(s, event);
    if event.Complete? && C.Step(s, event).outcome.Credited? {
      SumAppend(s.payments, PaymentOf(s.pendings[event.p], event.charge), HasReference(reference));
      if s.pendings[event.p].reference == reference {
        NoneHas(s.payments, reference);
      }
    }
  }

  lemma {:induction false} NoneHas(payments: seq<Payment>, reference: nat)
    requires forall k :: 0 <= k < |payments| ==> payments[k].reference != reference
    ensures Sum(payments, HasReference(reference)) == 0
  {
    if payments != [] {
      NoneHas(payments[..|payments| - 1], reference);
    }
  }

  // ---------- The money of one reference ----------

  /** The step completes a pending payment with this reference, whatever comes of it. */
  predicate Completes(s: State, event: Event, reference: nat) {
    && event.Collection? && event.collection.Complete?
    && event.collection.p < |s.pendings| && s.pendings[event.collection.p].reference == reference
  }

  /** What all completions of a reference did to a wallet's balance over a run. */
  function CreditedMoney(policy: FeePolicy, s: State, events: seq<Event>, reference: nat, o: Owner): int {
    if events == [] then 0
    else
      var before, event := events[..|events| - 1], events[|events| - 1];
      var t := Run(policy, s, before);
      CreditedMoney(policy, s, before, reference, o)
      + if Completes(t, event, reference) then BalanceAt(Step(policy, t, event).state, o) - BalanceAt(t, o) else 0
  }

  function EarnedFor(reference: nat, o: Owner): Payment -> int {
    (payment: Payment) => if payment.reference == reference then Earned(o)(payment) else 0
  }

  /** What the payment with this reference brought a wallet; nothing if there is none. */
  function ValueOf(payments: seq<Payment>, reference: nat, o: Owner): int {
    if payments == [] then 0
    else
      var last := payments[|payments| - 1];
      if last.reference == reference then Earned(o)(last) else ValueOf(payments[..|payments| - 1], reference, o)
  }

  lemma {:induction false} OnePaymentOnly(payments: seq<Payment>, reference: nat, o: Owner)
    requires Sum(payments, HasReference(reference)) <= 1
    ensures Sum(payments, EarnedFor(reference, o)) == ValueOf(payments, reference, o)
  {
    if payments != [] {
      var before, last := payments[..|payments| - 1], payments[|payments| - 1];
      if last.reference == reference {
        NothingEarned(before, reference, o);
      } else {
        OnePaymentOnly(before, reference, o);
      }
    }
  }

  lemma {:induction false} NothingEarned(payments: seq<Payment>, reference: nat, o: Owner)
    requires Sum(payments, HasReference(reference)) <= 0
    ensures Sum(payments, EarnedFor(reference, o)) == 0
  {
    SumNonNegative(payments, HasReference(reference));
    if payments != [] {
      NothingEarned(payments[..|payments| - 1], reference, o);
    }
  }

  lemma StepCredits(policy: FeePolicy, s: State, event: Event, reference: nat, o: Owner)
    ensures var t := Step(policy, s, event).state;
            Sum(t.payments, EarnedFor(reference, o)) - Sum(s.payments, EarnedFor(reference, o))
            == if Completes(s, event, reference) then BalanceAt(t, o) - BalanceAt(s, o) else 0
  {
    match event
    case Collection(collection) =>
      CompletionRecords(s, collection);
      if collection.Complete? && C.Step(s, collection).outcome.Credited? {
        SumAppend(s.payments, PaymentOf(s.pendings[collection.p], collection.charge), EarnedFor(reference, o));
        CreditBalances(s, collection.p, collection.charge, collection.amount, o);
      } else {
        CollectionMoney(policy, s, collection, o);
      }
    case Payout(payout) => PayoutKeepsCollections(policy, s, payout);
  }

  /**
    Each credit of a reference leaves its payment behind, there is never a second, and
    what all its completions together did to any balance is the worth of that payment.
   */
  lemma {:induction false} CreditedAtMostOnce(policy: FeePolicy, s: State, events: seq<Event>, reference: nat, o: Owner)
    requires PaymentsOf(s, reference) <= 1
    ensures PaymentsOf(Run(policy, s, events), reference) <= 1
    ensures PaymentsOf(Run(policy, s, events), reference)
         == PaymentsOf(s, reference) + CreditCount(policy, s, events, reference)
    ensures CreditedMoney(policy, s, events, reference, o)
         == ValueOf(Run(policy, s, events).payments, reference, o) - ValueOf(s.payments, reference, o)
  {
    if events != [] {
      var before := events[..|events| - 1];
      var t := Run(policy, s, before);
      CreditedAtMostOnce(policy, s, before, reference, o);
      StepPayments(policy, t, events[|events| - 1], reference);
      StepCredits(policy, t, events[|events| - 1], reference, o);
      OnePaymentOnly(t.payments, reference, o);
      OnePaymentOnly(Run(policy, s, events).payments, reference, o);
    }
  }

  // ---------- Debits and refunds ----------

  predicate HasLeftPending(s: State, w: nat) {
    w < |s.withdrawals| && !s.withdrawals[w].status.Pending?
  }

  predicate HasFailed(s: State, w: nat) {
    w < |s.withdrawals| && s.withdrawals[w].status.Failed?
  }

  /** The withdrawal a payout event is about. */
  predicate Targets(event: Event, w: nat) {
    event.Payout? && !event.payout.Request? && event.payout.w == w
  }

  predicate Debits(policy: FeePolicy, s: State, event: Event, w: nat) {
    Targets(event, w) && Step(policy, s, event).outcome.Debited?
  }

  predicate Refunds(policy: FeePolicy, s: State, event: Event, w: nat) {
    Targets(event, w) && Step(policy, s, event).outcome.Refunded?
  }

  function DebitCount(policy: FeePolicy, s: State, events: seq<Event>, w: nat): nat {
    if events == [] then 0
    else
      var before := events[..|events| - 1];
      DebitCount(policy, s, before, w) +
          if Debits(policy, Run(policy, s, before), events[|events| - 1], w) then 1 else 0
  }

  function RefundCount(policy: FeePolicy, s: State, events: seq<Event>, w: nat): nat {
    if events == [] then 0
    else
      var before := events[..|events| - 1];
      RefundCount(policy, s, before, w) +
          if Refunds(policy, Run(policy, s, before), events[|events| - 1], w) then 1 else 0
  }

  predicate IsPaid(s: State, w: nat) {
    w < |s.withdrawals| && s.withdrawals[w].Paid()
  }

  predicate IsCompleted(s: State, w: nat) {
    w < |s.withdrawals| && s.withdrawals[w].status.Completed?
  }

  /** A pending-payout notice makes a request PROCESSING that was never debited. */
  predicate Early(s: State, event: Event, w: nat) {
    event == Payout(W.PayoutPending(w)) && w < |s.withdrawals| && s.withdrawals[w].status.Pending?
  }

  /** A failed-payout notice makes a COMPLETED withdrawal FAILED without a refund. */
  predicate Late(s: State, event: Event, w: nat) {
    event == Payout(W.PayoutFailed(w)) && IsCompleted(s, w) && s.withdrawals[w].wallet in s.wallets
  }

  function EarlyCount(policy: FeePolicy, s: State, events: seq<Event>, w: nat): nat {
    if events == [] then 0
    else
      var before := events[..|events| - 1];
      EarlyCount(policy, s, before, w) + if Early(Run(policy, s, before), events[|events| - 1], w) then 1 else 0
  }

  function LateCount(policy: FeePolicy, s: State, events: seq<Event>, w: nat): nat {
    if events == [] then 0
    else
      var before := events[..|events| - 1];
      LateCount(policy, s, before, w) + if Late(Run(policy, s, before), events[|events| - 1], w) then 1 else 0
  }

  function Bit(b: bool): int {
    if b then 1 else 0
  }

  /**
    PENDING is never entered again and FAILED is never left. A withdrawal becomes paid by
    leaving the one, and stops being paid by entering the other.
   */
  predicate Moves(s: State, t: State, w: nat, begins: bool, ends: bool) {
    && (HasLeftPending(s, w) ==> HasLeftPending(t, w))
    && (HasFailed(s, w) ==> HasFailed(t, w))
    && (begins ==> !HasLeftPending(s, w) && HasLeftPending(t, w))
    && (ends ==> !HasFailed(s, w) && HasFailed(t, w))
    && Bit(IsPaid(t, w)) == Bit(IsPaid(s, w)) + Bit(begins) - Bit(ends)
  }

  /** In any order, a debit or an early notice makes a withdrawal paid, and a refund or a late failure ends that. */
  lemma StepMoves(policy: FeePolicy, s: State, event: Event, w: nat)
    ensures Moves(s, Step(policy, s, event).state, w,
                  Debits(policy, s, event, w) || Early(s, event, w), Refunds(policy, s, event, w) || Late(s, event, w))
    ensures !(Debits(policy, s, event, w) && Early(s, event, w)) && !(Refunds(policy, s, event, w) && Late(s, event, w))
  {
    match event
    case Collection(collection) => CollectionKeepsRows(s, collection);
    case Payout(payout) =>
      if payout.Settle? || payout.ApprovePlatform? {
        DebitStep(policy, s, payout, w);
      } else if payout.Compensate? {
        CompensateStep(policy, s, payout.w, w);
      } else if payout.PayoutFailed? {
        FailStep(policy, s, payout.w, w);
      } else {
        StatusStep(policy, s, payout, w);
      }
  }

  lemma StatusStep(policy: FeePolicy, s: State, event: W.Event, w: nat)
    requires event.Request? || event.Submit? || event.Reject? || event.PayoutSucceeded? || event.PayoutPending?
    ensures Moves(s, W.Step(policy, s, event).state, w, Early(s, Payout(event), w), false)
    ensures !W.Step(policy, s, event).outcome.Debited? && !W.Step(policy, s, event).outcome.Refunded?
  {
    if event.Request? {
      RequestWrites(policy, s, event.user, event.owner, event.amount);
    } else if event.Submit? {
      SubmitKeepsStatus(s, event.w, event.payout, event.reported, w);
    }
  }

  lemma SubmitKeepsStatus(s: State, v: nat, payout: Option<nat>, reported: Option<nat>, w: nat)
    ensures var r := W.SubmitPayout(s, v, payout, reported);
            && |r.state.withdrawals| == |s.withdrawals|
            && (w < |s.withdrawals| ==> r.state.withdrawals[w].status == s.withdrawals[w].status)
            && !r.outcome.Debited? && !r.outcome.Refunded?
  {}

  lemma DebitStep(policy: FeePolicy, s: State, event: W.Event, w: nat)
    requires event.Settle? || event.ApprovePlatform?
    ensures Moves(s, W.Step(policy, s, event).state, w, Debits(policy, s, Payout(event), w), false)
    ensures !W.Step(policy, s, event).outcome.Refunded?
  {
    SettleRows(s, event.w, event.ApprovePlatform?);
  }

  lemma CompensateStep(policy: FeePolicy, s: State, v: nat, w: nat)
    ensures var event := Payout(W.Compensate(v));
            && Moves(s, W.CompensateWithdrawal(s, v).state, w, false, Refunds(policy, s, event, w))
            && !Debits(policy, s, event, w)
  {
    if v < |s.withdrawals| && s.withdrawals[v].wallet in s.wallets {
      var row := s.withdrawals[v].(submitting := false);
      RefundFrame(s.(withdrawals := s.withdrawals[v := row.(status := PayoutStatus.Failed)]), v, row);
    }
  }

  lemma FailStep(policy: FeePolicy, s: State, v: nat, w: nat)
    ensures var event := Payout(W.PayoutFailed(v));
            && Moves(s, W.FailPayout(s, v).state, w, false, Refunds(policy, s, event, w) || Late(s, event, w))
            && !Debits(policy, s, event, w) && !(Refunds(policy, s, event, w) && Late(s, event, w))
  {
    if v < |s.withdrawals| && s.withdrawals[v].wallet in s.wallets && !s.withdrawals[v].status.Failed? {
      FailFrame(s, v);
    }
  }

  lemma SettleRows(s: State, w: nat, platformText: bool)
    ensures var r := W.SettleWithdrawal(s, w, platformText);
            && (r.outcome.Debited? ==>
                  && w < |s.withdrawals| && s.withdrawals[w].status.Pending?
                  && |r.state.withdrawals| == |s.withdrawals|
                  && r.state.withdrawals[w].status.Processing?
                  && r.state.withdrawals == s.withdrawals[w := r.state.withdrawals[w]])
            && (!r.outcome.Debited? ==> r.state == s)
            && !r.outcome.Refunded?
  {}

  /**
    One debit or early notice, and one refund or late failure, are the most a withdrawal can
    ever see, in any order; what began and did not end is paid now.
   */
  lemma {:induction false} MovedAtMostOnce(policy: FeePolicy, s: State, events: seq<Event>, w: nat)
    ensures var t := Run(policy, s, events);
            var begun := DebitCount(policy, s, events, w) + EarlyCount(policy, s, events, w);
            var ended := RefundCount(policy, s, events, w) + LateCount(policy, s, events, w);
            && begun + Bit(HasLeftPending(s, w)) <= Bit(HasLeftPending(t, w))
            && ended + Bit(HasFailed(s, w)) <= Bit(HasFailed(t, w))
            && begun - ended == Bit(IsPaid(t, w)) - Bit(IsPaid(s, w))
  {
    if events != [] {
      var before := events[..|events| - 1];
      MovedAtMostOnce(policy, s, before, w);
      StepMoves(policy, Run(policy, s, before), events[|events| - 1], w);
    }
  }

  /**
    From an empty database a withdrawal is refunded without having been debited exactly when
    an early notice made it PROCESSING, no late failure ended it, and it is paid no more.
   */
  lemma RefundedUndebitedExactly(policy: FeePolicy, events: seq<Event>, w: nat)
    ensures RefundCount(policy, EMPTY, events, w) > DebitCount(policy, EMPTY, events, w)
       <==> && EarlyCount(policy, EMPTY, events, w) > 0 && LateCount(policy, EMPTY, events, w) == 0
            && !IsPaid(Run(policy, EMPTY, events), w)
  {
    MovedAtMostOnce(policy, EMPTY, events, w);
  }

  // ---------- Final statuses ----------

  lemma CompletedSettles(s: State, v: nat, platformText: bool, w: nat)
    requires IsCompleted(s, w)
    ensures IsCompleted(W.SettleWithdrawal(s, v, platformText).state, w)
  {
    SettleRows(s, v, platformText);
  }

  /** A completed withdrawal is left by one event only, the provider's notice that it failed. */
  lemma CompletedLeftExactly(policy: FeePolicy, s: State, event: Event, w: nat)
    requires Sound(s) && IsCompleted(s, w)
    ensures IsCompleted(Step(policy, s, event).state, w) <==> event != Payout(W.PayoutFailed(w))
  {
    assert GoodRow(s, w);
    match event
    case Collection(collection) => CollectionKeepsRows(s, collection);
    case Payout(payout) =>
      match payout {
        case Request(user, owner, amount) => RequestWrites(policy, s, user, owner, amount);
        case Settle(v) => CompletedSettles(s, v, false, w);
        case ApprovePlatform(v, _, _) => CompletedSettles(s, v, true, w);
        case Submit(v, id, reported) => SubmitKeepsStatus(s, v, id, reported, w);
        case Compensate(v) => CompensateStep(policy, s, v, w); CompensateKeepsOthers(s, v, w);
        case PayoutFailed(v) =>
          if v < |s.withdrawals| && !s.withdrawals[v].status.Failed? { assert GoodRow(s, v); FailFrame(s, v); }
        case _ =>
      }
  }

  lemma CompensateKeepsOthers(s: State, v: nat, w: nat)
    requires IsCompleted(s, w)
    ensures IsCompleted(W.CompensateWithdrawal(s, v).state, w)
  {
    if v < |s.withdrawals| && s.withdrawals[v].wallet in s.wallets {
      var row := s.withdrawals[v].(submitting := false);
      RefundFrame(s.(withdrawals := s.withdrawals[v := row.(status := PayoutStatus.Failed)]), v, row);
    }
  }

  /** A failed withdrawal stays failed, and a completed one stays completed exactly as long as no notice fails it. */
  lemma {:induction false} FinalStays(policy: FeePolicy, s: State, events: seq<Event>, w: nat)
    requires policy.Valid() && Sound(s)
    ensures HasFailed(s, w) ==> HasFailed(Run(policy, s, events), w)
    ensures IsCompleted(s, w) ==>
              && (IsCompleted(Run(policy, s, events), w) <==> Payout(W.PayoutFailed(w)) !in events)
              && (IsCompleted(Run(policy, s, events), w) || HasFailed(Run(policy, s, events), w))
  {
    if events != [] {
      var before, event := events[..|events| - 1], events[|events| - 1];
      FinalStays(policy, s, before, w);
      RunConserves(policy, s, before);
      StepMoves(policy, Run(policy, s, before), event, w);
      assert events == before + [event];
      if IsCompleted(Run(policy, s, before), w) {
        CompletedLeftExactly(policy, Run(policy, s, before), event, w);
      }
    }
  }

  // ---------- The money of one withdrawal ----------

  /** What all events of a withdrawal did to a wallet's balance over a run. */
  function MovedMoney(policy: FeePolicy, s: State, events: seq<Event>, w: nat, o: Owner): int {
    if events == [] then 0
    else
      var before, event := events[..|events| - 1], events[|events| - 1];
      var t := Run(policy, s, before);
      MovedMoney(policy, s, before, w, o)
      + if Targets(event, w) then BalanceAt(Step(policy, t, event).state, o) - BalanceAt(t, o) else 0
  }

  function SpentOn(s: State, w: nat, o: Owner): int {
    if w < |s.withdrawals| then Spent(o)(s.withdrawals[w]) else 0
  }

  /** A payout event writes its own row at most. */
  lemma PayoutWritesOwnRow(policy: FeePolicy, s: State, event: W.Event)
    requires Sound(s) && !event.Request? && event.w < |s.withdrawals|
    ensures var t := W.Step(policy, s, event).state;
            |t.withdrawals| == |s.withdrawals| && t.withdrawals == s.withdrawals[event.w := t.withdrawals[event.w]]
  {
    var v := event.w;
    assert GoodRow(s, v);
    assert s.withdrawals[v := s.withdrawals[v]] == s.withdrawals;
    match event
    case Settle(_) => SettleRows(s, v, false);
    case ApprovePlatform(_, _, _) => SettleRows(s, v, true);
    case Submit(_, id, reported) => if s.withdrawals[v].submitting { SubmitFrame(s, v, id, reported); }
    case Compensate(_) =>
      if s.withdrawals[v].submitting {
        var row := s.withdrawals[v].(submitting := false);
        RefundFrame(s.(withdrawals := s.withdrawals[v := row.(status := PayoutStatus.Failed)]), v, row);
      }
    case PayoutFailed(_) => if !s.withdrawals[v].status.Failed? { FailFrame(s, v); }
    case _ =>
  }

  /** Events about this withdrawal come in order; whatever order others come in. */
  function OrderlyFor(w: nat): (State, Event) -> bool {
    (s: State, event: Event) => Targets(event, w) ==> Orderly(s, event)
  }

  lemma StepSpends(policy: FeePolicy, s: State, event: Event, w: nat, o: Owner)
    requires Sound(s) && OrderlyFor(w)(s, event)
    ensures var t := Step(policy, s, event).state;
            SpentOn(s, w, o) - SpentOn(t, w, o) == if Targets(event, w) then BalanceAt(t, o) - BalanceAt(s, o) else 0
  {
    match event
    case Collection(collection) => CollectionKeepsRows(s, collection);
    case Payout(payout) =>
      if payout.Request? {
        RequestWrites(policy, s, payout.user, payout.owner, payout.amount);
      } else if payout.w < |s.withdrawals| {
        PayoutWritesOwnRow(policy, s, payout);
        if payout.w == w { PayoutPaysForRow(policy, s, payout); }
      }
  }

  /**
    When its own events come in the provider's order, a withdrawal that is no longer paid got
    back exactly what it lost: its debits less its refunds are whether it is paid now, and
    what all its events together moved is its cost, and the platform's share, while it is
    paid, and nothing else.
   */
  lemma {:induction false} RefundsMatchDebits(policy: FeePolicy, s: State, events: seq<Event>, w: nat, o: Owner)
    requires policy.Valid() && Sound(s) && Along(policy, s, events, OrderlyFor(w))
    ensures DebitCount(policy, s, events, w) - RefundCount(policy, s, events, w)
         == Bit(IsPaid(Run(policy, s, events), w)) - Bit(IsPaid(s, w))
    ensures MovedMoney(policy, s, events, w, o) == SpentOn(s, w, o) - SpentOn(Run(policy, s, events), w, o)
  {
    if events != [] {
      var before := events[..|events| - 1];
      var t := Run(policy, s, before);
      RefundsMatchDebits(policy, s, before, w, o);
      RunConserves(policy, s, before);
      StepMoves(policy, t, events[|events| - 1], w);
      StepSpends(policy, t, events[|events| - 1], w, o);
    }
  }

  // ---------- Debited once, in money ----------

  /** What the debits of a withdrawal did to a wallet's balance over a run. */
  function DebitedMoney(policy: FeePolicy, s: State, events: seq<Event>, w: nat, o: Owner): int {
    if events == [] then 0
    else
      var before, event := events[..|events| - 1], events[|events| - 1];
      var t := Run(policy, s, before);
      DebitedMoney(policy, s, before, w, o)
      + if Debits(policy, t, event, w) then BalanceAt(Step(policy, t, event).state, o) - BalanceAt(t, o) else 0
  }

  /** A pending withdrawal still has the cost it was requested with. */
  predicate SamePrice(s: State, t: State, w: nat)
    requires w < |s.withdrawals|
  {
    && w < |t.withdrawals|
    && (t.withdrawals[w].status.Pending? ==>
          t.withdrawals[w].Cost() == s.withdrawals[w].Cost() && t.withdrawals[w].wallet == s.withdrawals[w].wallet)
  }

  lemma StepKeepsPrice(policy: FeePolicy, s: State, event: Event, w: nat)
    requires Sound(s) && w < |s.withdrawals|
    ensures SamePrice(s, Step(policy, s, event).state, w)
  {
    match event
    case Collection(collection) => CollectionKeepsRows(s, collection);
    case Payout(payout) =>
      if payout.Request? {
        RequestWrites(policy, s, payout.user, payout.owner, payout.amount);
      } else if payout.w < |s.withdrawals| {
        assert GoodRow(s, payout.w);
        PayoutKeepsPrice(policy, s, payout, w);
      }
  }

  lemma PayoutKeepsPrice(policy: FeePolicy, s: State, event: W.Event, w: nat)
    requires Sound(s) && w < |s.withdrawals| && !event.Request? && event.w < |s.withdrawals|
    requires s.withdrawals[event.w].wallet in s.wallets
    ensures SamePrice(s, W.Step(policy, s, event).state, w)
  {
    var v := event.w;
    assert GoodRow(s, v);
    match event
    case Settle(_) => SettleRows(s, v, false);
    case ApprovePlatform(_, _, _) => SettleRows(s, v, true);
    case Submit(_, id, reported) => if s.withdrawals[v].submitting { SubmitFrame(s, v, id, reported); }
    case Compensate(_) =>
      if s.withdrawals[v].submitting {
        var row := s.withdrawals[v].(submitting := false);
        RefundFrame(s.(withdrawals := s.withdrawals[v := row.(status := PayoutStatus.Failed)]), v, row);
      }
    case PayoutFailed(_) => if !s.withdrawals[v].status.Failed? { FailFrame(s, v); }
    case _ =>
  }

  lemma DebitTakesCost(policy: FeePolicy, s: State, event: Event, w: nat, o: Owner)
    requires Sound(s) && Debits(policy, s, event, w)
    ensures w < |s.withdrawals| && s.withdrawals[w].status.Pending?
    ensures BalanceAt(Step(policy, s, event).state, o) == BalanceAt(s, o) - CostFor(o, s.withdrawals[w])
    ensures HasLeftPending(Step(policy, s, event).state, w)
  {
    StepMoves(policy, s, event, w);
    StepMoney(policy, s, event, o);
    if event.payout.Settle? || event.payout.ApprovePlatform? {
      SettleRows(s, w, event.payout.ApprovePlatform?);
    }
  }

  lemma {:induction false} RunKeepsPrice(policy: FeePolicy, s: State, events: seq<Event>, w: nat)
    requires policy.Valid() && Sound(s) && w < |s.withdrawals| && s.withdrawals[w].status.Pending?
    ensures SamePrice(s, Run(policy, s, events), w)
  {
    if events != [] {
      var before, event := events[..|events| - 1], events[|events| - 1];
      var t := Run(policy, s, before);
      RunKeepsPrice(policy, s, before, w);
      RunConserves(policy, s, before);
      StepKeepsPrice(policy, t, event, w);
      StepMoves(policy, t, event, w);
      PriceChains(s, t, Step(policy, t, event).state, w);
    }
  }

  lemma PriceChains(s: State, t: State, u: State, w: nat)
    requires w < |s.withdrawals| && SamePrice(s, t, w) && SamePrice(t, u, w)
    requires HasLeftPending(t, w) ==> HasLeftPending(u, w)
    ensures SamePrice(s, u, w)
  {}

  /** In any order of events, the debits of a withdrawal take the cost it was requested with, once. */
  lemma {:induction false} DebitedOnceInMoney(policy: FeePolicy, s: State, events: seq<Event>, w: nat, o: Owner)
    requires policy.Valid() && Sound(s) && w < |s.withdrawals| && s.withdrawals[w].status.Pending?
    ensures DebitCount(policy, s, events, w) <= 1
    ensures DebitedMoney(policy, s, events, w, o)
         == if DebitCount(policy, s, events, w) == 0 then 0 else -CostFor(o, s.withdrawals[w])
  {
    MovedAtMostOnce(policy, s, events, w);
    if events != [] {
      var before, event := events[..|events| - 1], events[|events| - 1];
      var t := Run(policy, s, before);
      DebitedOnceInMoney(policy, s, before, w, o);
      if Debits(policy, t, event, w) {
        RunKeepsPrice(policy, s, before, w);
        RunConserves(policy, s, before);
        DebitTakesCost(policy, t, event, w, o);
      }
    }
  }
}
