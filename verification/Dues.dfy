/**
  Student dues paid through checkouts: when an assignment counts as paid, that the payment
  recorded for it is final, and how a due can nevertheless be paid for twice.
 */
module Dues {
  import opened Tables
  import opened Books
  import opened Charges
  import C = Collections
  import opened CollectionProofs
  import opened Steps
  import opened Runs
  import opened Conservation
  import opened Balances
  import opened Checkouts

  predicate Recorded(s: State, d: nat) {
    d in s.dues && s.dues[d].payment.Some?
  }

  // ---------- Paid exactly when covered ----------

  /** The recorded due payment is the amount of a completed payment. */
  predicate Backed(s: State, payment: DuePayment) {
    exists k :: 0 <= k < |s.payments| && s.payments[k].reference == payment.reference
        && s.payments[k].amount == payment.amount
  }

  predicate DueFollows(s: State, d: nat)
    requires d in s.dues
  {
    var due := s.dues[d];
    && (due.paid <==> due.payment.Some? && due.payment.value.amount >= due.amount)
    && (due.payment.Some? ==> Backed(s, due.payment.value))
  }

  /** Every assignment is paid exactly when its recorded payment covers it; no payment counts for two. */
  ghost predicate DuesFollow(s: State) {
    && (forall d :: d in s.dues ==> DueFollows(s, d))
    && (forall d, e ::
          Recorded(s, d) && Recorded(s, e) && s.dues[d].payment.value.reference == s.dues[e].payment.value.reference
          ==> d == e)
  }

  lemma StillBacked(s: State, t: State, payment: DuePayment)
    requires Backed(s, payment) && s.payments <= t.payments
    ensures Backed(t, payment)
  {
    var k :| 0 <= k < |s.payments| && s.payments[k].reference == payment.reference
        && s.payments[k].amount == payment.amount;
    assert t.payments[k] == s.payments[k];
  }

  /** What a step does to the dues. */
  lemma CollectionDues(s: State, event: C.Event)
    ensures var r := C.Step(s, event);
            && s.payments <= r.state.payments
            && r.state.dues
               == if event.DueAssigned? && event.assignment !in s.dues
                  then s.dues[event.assignment := Assignment(event.amount, false, None)]
                  else if event.Complete? && r.outcome.Credited? && event.p < |s.pendings|
                  then C.DuesWith(s, s.pendings[event.p]) else s.dues
  {
    if event.Initiate? {
      InitiateRows(s, event);
    }
    CompletionRecords(s, event);
  }

  lemma CreditKeepsFollowing(s: State, event: C.Event)
    requires DuesFollow(s) && event.Complete? && C.Step(s, event).outcome.Credited?
    ensures DuesFollow(C.Step(s, event).state)
  {
    var t := C.Step(s, event).state;
    CollectionDues(s, event);
    CompletionRecords(s, event);
    var row := s.pendings[event.p];
    assert t.payments[|s.payments|] == PaymentOf(row, event.charge);
    assert Backed(t, DuePayment(row.amount, row.reference));
    forall d | d in t.dues ensures DueFollows(t, d) {
      if t.dues[d] == s.dues[d] { SameDueFollows(s, t, d); }
    }
    NotYetRecorded(s, row.reference);
  }

  lemma SameDueFollows(s: State, t: State, d: nat)
    requires d in s.dues && DueFollows(s, d) && d in t.dues && t.dues[d] == s.dues[d] && s.payments <= t.payments
    ensures DueFollows(t, d)
  {
    if s.dues[d].payment.Some? { StillBacked(s, t, s.dues[d].payment.value); }
  }

  /** Without a payment for the reference no due can have one. */
  lemma NotYetRecorded(s: State, reference: nat)
    requires DuesFollow(s) && !C.AlreadyPaid(s, reference)
    ensures forall d :: Recorded(s, d) ==> s.dues[d].payment.value.reference != reference
  {
    forall d | Recorded(s, d) ensures s.dues[d].payment.value.reference != reference {
      assert DueFollows(s, d) && Backed(s, s.dues[d].payment.value);
    }
  }

  lemma StepKeepsFollowing(policy: FeePolicy, s: State, event: Event)
    requires DuesFollow(s)
    ensures DuesFollow(Step(policy, s, event).state)
  {
    match event
    case Payout(payout) =>
      PayoutKeepsCollections(policy, s, payout);
    case Collection(collection) =>
      if collection.Complete? && C.Step(s, collection).outcome.Credited? {
        CreditKeepsFollowing(s, collection);
      } else {
        QuietKeepsFollowing(s, collection);
      }
  }

  lemma QuietKeepsFollowing(s: State, event: C.Event)
    requires DuesFollow(s) && !(event.Complete? && C.Step(s, event).outcome.Credited?)
    ensures DuesFollow(C.Step(s, event).state)
  {
    CollectionDues(s, event);
    var t := C.Step(s, event).state;
    forall d | d in t.dues ensures DueFollows(t, d) {
      if d in s.dues && t.dues[d] == s.dues[d] { SameDueFollows(s, t, d); }
    }
  }

  /** Over any run, with no condition on the events. */
  lemma {:induction false} DuesPaidExactly(policy: FeePolicy, events: seq<Event>)
    ensures DuesFollow(Run(policy, EMPTY, events))
  {
    if events != [] {
      DuesPaidExactly(policy, events[..|events| - 1]);
      StepKeepsFollowing(policy, Run(policy, EMPTY, events[..|events| - 1]), events[|events| - 1]);
    }
  }

  // ---------- A recorded payment is final ----------

  /** The step credited a pending payment for this due. */
  predicate CreditsDue(policy: FeePolicy, s: State, event: Event, d: nat) {
    && event.Collection? && event.collection.Complete? && Step(policy, s, event).outcome.Credited?
    && event.collection.p < |s.pendings| && s.pendings[event.collection.p].due == Some(d)
  }

  function DueCredits(policy: FeePolicy, s: State, events: seq<Event>, d: nat): nat {
    if events == [] then 0
    else
      var before := events[..|events| - 1];
      DueCredits(policy, s, before, d) +
          if CreditsDue(policy, Run(policy, s, before), events[|events| - 1], d) then 1 else 0
  }

  lemma StepKeepsRecorded(policy: FeePolicy, s: State, event: Event, d: nat)
    requires Recorded(s, d)
    ensures d in Step(policy, s, event).state.dues && Step(policy, s, event).state.dues[d] == s.dues[d]
    ensures !s.dues[d].paid ==> !CreditsDue(policy, s, event, d)
  {
    match event
    case Collection(collection) => CollectionDues(s, collection);
    case Payout(payout) => PayoutKeepsCollections(policy, s, payout);
  }

  /**
    After a payment was recorded for an assignment neither ever changes again. If the payment
    falls short the assignment stays unpaid, and no later payment for it is credited.
   */
  lemma {:induction false} RecordedIsFinal(policy: FeePolicy, s: State, events: seq<Event>, d: nat)
    requires Recorded(s, d)
    ensures d in Run(policy, s, events).dues && Run(policy, s, events).dues[d] == s.dues[d]
    ensures !s.dues[d].paid ==> DueCredits(policy, s, events, d) == 0
  {
    if events != [] {
      RecordedIsFinal(policy, s, events[..|events| - 1], d);
      StepKeepsRecorded(policy, Run(policy, s, events[..|events| - 1]), events[|events| - 1], d);
    }
  }

  // ---------- Credited once ----------

  /** A pending row of an assignment with a recorded payment; the row's own payment is no further one. */
  predicate Stale(s: State, p: nat)
    requires p < |s.pendings|
  {
    var row := s.pendings[p];
    row.status.Pending? && row.due.Some? && Recorded(s, row.due.value) && !C.AlreadyPaid(s, row.reference)
  }

  ghost predicate NoneStale(s: State) {
    forall p :: 0 <= p < |s.pendings| ==> !Stale(s, p)
  }

  /** The step makes a row of an already recorded assignment payable again. */
  predicate RevivesRecorded(policy: FeePolicy, s: State, event: Event) {
    && event.Collection? && event.collection.Retry? && Step(policy, s, event).outcome.Done?
    && event.collection.p < |s.pendings|
    && var row := s.pendings[event.collection.p];
       row.due.Some? && Recorded(s, row.due.value) && !C.AlreadyPaid(s, row.reference)
  }

  ghost predicate KnownDues(s: State) {
    forall p :: 0 <= p < |s.pendings| && s.pendings[p].due.Some? ==> s.pendings[p].due.value in s.dues
  }

  /** What the step theorem below needs of a reachable state. */
  ghost predicate Regular(s: State) {
    DuesFollow(s) && OneOpenPerDue(s) && UniqueReferences(s) && KnownDues(s)
  }

  lemma CreditNoneStale(s: State, event: C.Event)
    requires Regular(s) && NoneStale(s) && event.Complete? && C.Step(s, event).outcome.Credited?
    ensures NoneStale(C.Step(s, event).state)
  {
    var t := C.Step(s, event).state;
    CollectionDues(s, event);
    CompletionRecords(s, event);
    var row := s.pendings[event.p];
    assert t.pendings == s.pendings[event.p := row.(status := CheckoutStatus.Completed)];
    forall p | 0 <= p < |t.pendings| ensures !Stale(t, p) {
      assert !Stale(s, p);
      if p != event.p && s.pendings[p].status.Pending? && s.pendings[p].due.Some? {
        assert s.pendings[p].due != row.due;
        assert C.AlreadyPaid(s, s.pendings[p].reference) ==> C.AlreadyPaid(t, s.pendings[p].reference);
      }
    }
  }

  lemma InitiateNoneStale(s: State, event: C.Event)
    requires NoneStale(s) && event.Initiate?
    ensures NoneStale(C.Step(s, event).state)
  {
    var t := C.Step(s, event).state;
    InitiateRows(s, event);
    forall p | 0 <= p < |t.pendings| ensures !Stale(t, p) {
      if p < |s.pendings| { assert !Stale(s, p) && SameRow(s.pendings[p], t.pendings[p]); }
    }
  }

  /** An event that only closes rows, or rewrites what no due depends on. */
  lemma QuietNoneStale(s: State, event: C.Event)
    requires NoneStale(s) && !event.Complete? && !event.Initiate? && !event.Retry?
    ensures NoneStale(C.Step(s, event).state)
  {
    var t := C.Step(s, event).state;
    CollectionDues(s, event);
    CompletionRecords(s, event);
    forall p | 0 <= p < |t.pendings| ensures !Stale(t, p) {
      assert !Stale(s, p);
    }
  }

  lemma RetryNoneStaleExactly(policy: FeePolicy, s: State, event: C.Event)
    requires NoneStale(s) && event.Retry?
    ensures NoneStale(C.Step(s, event).state) <==> !RevivesRecorded(policy, s, Collection(event))
  {
    var t := C.Step(s, event).state;
    if RevivesRecorded(policy, s, Collection(event)) {
      assert Stale(t, event.p);
    } else {
      forall p | 0 <= p < |t.pendings| ensures !Stale(t, p) {
        assert !Stale(s, p);
      }
    }
  }

  /** Each step keeps settled dues closed exactly when it is no retry of one of their unpaid rows. */
  lemma StepNoneStaleExactly(policy: FeePolicy, s: State, event: Event)
    requires Regular(s) && NoneStale(s)
    ensures NoneStale(Step(policy, s, event).state) <==> !RevivesRecorded(policy, s, event)
  {
    match event
    case Payout(payout) =>
      PayoutKeepsCollections(policy, s, payout);
      var t := Step(policy, s, event).state;
      forall p | 0 <= p < |t.pendings| ensures !Stale(t, p) { assert !Stale(s, p); }
    case Collection(collection) =>
      if collection.Retry? {
        RetryNoneStaleExactly(policy, s, collection);
      } else if collection.Initiate? {
        InitiateNoneStale(s, collection);
      } else if collection.Complete? {
        if C.Step(s, collection).outcome.Credited? { CreditNoneStale(s, collection); }
      } else {
        QuietNoneStale(s, collection);
      }
  }

  lemma StepKeepsKnown(policy: FeePolicy, s: State, event: Event)
    requires KnownDues(s)
    ensures KnownDues(Step(policy, s, event).state)
  {
    var t := Step(policy, s, event).state;
    StepKeepsRows(policy, s, event);
    match event
    case Payout(payout) => PayoutKeepsCollections(policy, s, payout);
    case Collection(collection) =>
      CollectionDues(s, collection);
      if collection.Initiate? { InitiateRows(s, collection); }
      forall p | 0 <= p < |t.pendings| && t.pendings[p].due.Some? ensures t.pendings[p].due.value in t.dues {
        if p < |s.pendings| { assert SameRow(s.pendings[p], t.pendings[p]); }
      }
  }

  lemma {:induction false} RunIsRegular(policy: FeePolicy, events: seq<Event>)
    ensures Regular(Run(policy, EMPTY, events))
  {
    DuesPaidExactly(policy, events);
    RunKeepsIndexes(policy, events);
    if events != [] {
      RunIsRegular(policy, events[..|events| - 1]);
      StepKeepsKnown(policy, Run(policy, EMPTY, events[..|events| - 1]), events[|events| - 1]);
    }
  }

  ghost predicate AlwaysNoneStale(policy: FeePolicy, events: seq<Event>) {
    NoneStale(Run(policy, EMPTY, events)) && (events != [] ==> AlwaysNoneStale(policy, events[..|events| - 1]))
  }

  predicate NeverRevives(policy: FeePolicy, events: seq<Event>) {
    events == []
    || (NeverRevives(policy, events[..|events| - 1])
        && !RevivesRecorded(policy, Run(policy, EMPTY, events[..|events| - 1]), events[|events| - 1]))
  }

  /** A run never has a payable row of a settled due exactly when it never retries one. */
  lemma {:induction false} NoneStaleExactly(policy: FeePolicy, events: seq<Event>)
    ensures AlwaysNoneStale(policy, events) <==> NeverRevives(policy, events)
  {
    if events != [] {
      var before := events[..|events| - 1];
      NoneStaleExactly(policy, before);
      RunIsRegular(policy, before);
      if NeverRevives(policy, before) {
        StepNoneStaleExactly(policy, Run(policy, EMPTY, before), events[|events| - 1]);
      }
    }
  }

  lemma CreditRecords(policy: FeePolicy, s: State, event: Event, d: nat)
    requires Regular(s) && NoneStale(s)
    ensures CreditsDue(policy, s, event, d) ==> !Recorded(s, d)
    ensures Recorded(Step(policy, s, event).state, d) <==> Recorded(s, d) || CreditsDue(policy, s, event, d)
  {
    match event
    case Payout(payout) => PayoutKeepsCollections(policy, s, payout);
    case Collection(collection) =>
      CollectionDues(s, collection);
      if CreditsDue(policy, s, event, d) {
        assert !Stale(s, collection.p);
        assert DueFollows(s, d);
      }
  }

  /** Such a run credits each due at most once, and then exactly if a payment is recorded for it. */
  lemma {:induction false} DueCreditedOnce(policy: FeePolicy, events: seq<Event>, d: nat)
    requires NeverRevives(policy, events)
    ensures DueCredits(policy, EMPTY, events, d) == if Recorded(Run(policy, EMPTY, events), d) then 1 else 0
  {
    if events != [] {
      var before := events[..|events| - 1];
      DueCreditedOnce(policy, before, d);
      NoneStaleExactly(policy, before);
      RunIsRegular(policy, before);
      CreditRecords(policy, Run(policy, EMPTY, before), events[|events| - 1], d);
    }
  }

  // ---------- A due paid for twice ----------

  function Opens(reference: nat): Event {
    Collection(C.Initiate(1, 7, Some(3), 10_000, reference, 0, 0, C.Unreachable))
  }

  function Pays(p: nat): Event {
    Collection(C.Complete(p, C.Lookup(None, Some(p), None), p, 10_000))
  }

  const ASSIGNED := Collection(C.DueAssigned(3, 10_000))
  const FAILED := Collection(C.CollectionFailed(0, None))
  const RETRIED := Collection(C.Retry(0))

  /** One checkout fails, and a second one is opened for the due; */
  const TWO_OPENED := [] + [ASSIGNED] + [Opens(100)] + [FAILED] + [Opens(101)]

  /** that one pays the due, then the first is retried and paid too. */
  const PAID_ONCE := TWO_OPENED + [Pays(1)]
  const TWICE_PAID := PAID_ONCE + [RETRIED] + [Pays(0)]

  function Opened(reference: nat, status: CheckoutStatus, retries: nat): PendingPayment {
    C.NewPending(1, 7, Some(3), 10_000, reference, 0, 0).(
      status := status, meta := Meta(Some(0), Some(10_000), retries))
  }

  function WithRows(rows: seq<PendingPayment>): State {
    EMPTY.(dues := map[3 := Assignment(10_000, false, None)], pendings := rows)
  }

  lemma OneMore(policy: FeePolicy, events: seq<Event>, event: Event)
    ensures Run(policy, EMPTY, events + [event]) == Step(policy, Run(policy, EMPTY, events), event).state
    ensures DueCredits(policy, EMPTY, events + [event], 3)
         == DueCredits(policy, EMPTY, events, 3)
            + if CreditsDue(policy, Run(policy, EMPTY, events), event, 3) then 1 else 0
  {
    assert (events + [event])[..|events|] == events;
  }

  lemma DueWritten()
    ensures C.Step(EMPTY, ASSIGNED.collection).state == WithRows([])
  {}

  /** Opening a checkout beside closed ones adds a row. */
  lemma RowOpened(rows: seq<PendingPayment>, reference: nat)
    requires forall p :: 0 <= p < |rows| ==> !rows[p].status.Pending? && rows[p].reference != reference
    ensures C.Step(WithRows(rows), Opens(reference).collection).state
         == WithRows(rows + [Opened(reference, CheckoutStatus.Pending, 0)])
  {
    assert C.FindReusable(rows, 1, 7, Some(3)).None?;
  }

  lemma RowFails()
    ensures C.Step(WithRows([Opened(100, CheckoutStatus.Pending, 0)]), FAILED.collection).state
         == WithRows([Opened(100, CheckoutStatus.Failed, 0)])
  {}

  /** Both checkouts are open or closed, and nothing is paid yet. */
  lemma BeforePaying(policy: FeePolicy)
    ensures Run(policy, EMPTY, TWO_OPENED)
         == WithRows([Opened(100, CheckoutStatus.Failed, 0)] + [Opened(101, CheckoutStatus.Pending, 0)])
    ensures DueCredits(policy, EMPTY, TWO_OPENED, 3) == 0
  {
    DueWritten();
    OneMore(policy, [], ASSIGNED);
    RowOpened([], 100);
    OneMore(policy, [] + [ASSIGNED], Opens(100));
    RowFails();
    OneMore(policy, [] + [ASSIGNED] + [Opens(100)], FAILED);
    RowOpened([Opened(100, CheckoutStatus.Failed, 0)], 101);
    OneMore(policy, [] + [ASSIGNED] + [Opens(100)] + [FAILED], Opens(101));
  }

  /** What completing an open row of the due writes. */
  lemma PayingCredits(s: State, p: nat, retries: nat)
    requires p < |s.pendings| <= 2
    requires s.pendings[p] == Opened(s.pendings[p].reference, CheckoutStatus.Pending, retries)
    requires !C.AlreadyPaid(s, s.pendings[p].reference) && !C.ChargeUsed(s, p)
    requires !(C.DueOpen(s, Some(3)) && C.DueRecorded(s, Some(3)))
    requires Organization(7) in s.wallets ==> s.wallets[Organization(7)].active
    ensures C.Step(s, Pays(p).collection) == Result(C.CreditPayment(s, p, p, 10_000), Credited)
  {}

  predicate OncePaid(s: State, first: PendingPayment) {
    && s.pendings == [first, Opened(101, CheckoutStatus.Completed, 0)]
    && s.payments == [Payment(101, 7, 10_000, 0, 1)]
    && s.dues == map[3 := Assignment(10_000, true, Some(DuePayment(10_000, 101)))]
    && s.wallets == map[Organization(7) := Wallet(10_000, 0, 10_000, true)]
  }

  /** The first paid checkout opens the organisation's wallet and pays the due. */
  lemma FirstPaying(first: PendingPayment)
    requires first == Opened(100, CheckoutStatus.Failed, 0)
    ensures var s := WithRows([first] + [Opened(101, CheckoutStatus.Pending, 0)]);
            && C.Step(s, Pays(1).collection).outcome.Credited?
            && OncePaid(C.Step(s, Pays(1).collection).state, first)
  {
    var s := WithRows([first] + [Opened(101, CheckoutStatus.Pending, 0)]);
    PayingCredits(s, 1, 0);
    PayingWrites(s, first);
  }

  lemma PayingWrites(s: State, first: PendingPayment)
    requires s == WithRows([first] + [Opened(101, CheckoutStatus.Pending, 0)])
    ensures OncePaid(C.CreditPayment(s, 1, 1, 10_000), first)
  {
    assert C.DuesWith(s, s.pendings[1]) == map[3 := Assignment(10_000, true, Some(DuePayment(10_000, 101)))];
  }

  lemma PaidOnce(policy: FeePolicy)
    ensures OncePaid(Run(policy, EMPTY, PAID_ONCE), Opened(100, CheckoutStatus.Failed, 0))
    ensures DueCredits(policy, EMPTY, PAID_ONCE, 3) == 1
  {
    BeforePaying(policy);
    OneMore(policy, TWO_OPENED, Pays(1));
    FirstPaying(Opened(100, CheckoutStatus.Failed, 0));
  }

  lemma RetryOnly(s: State)
    requires OncePaid(s, Opened(100, CheckoutStatus.Failed, 0))
    ensures OncePaid(C.Step(s, C.Retry(0)).state, Opened(100, CheckoutStatus.Pending, 1))
  {}

  lemma Retried(policy: FeePolicy)
    ensures OncePaid(Run(policy, EMPTY, PAID_ONCE + [RETRIED]), Opened(100, CheckoutStatus.Pending, 1))
    ensures DueCredits(policy, EMPTY, PAID_ONCE + [RETRIED], 3) == 1
  {
    PaidOnce(policy);
    OneMore(policy, PAID_ONCE, RETRIED);
    RetryOnly(Run(policy, EMPTY, PAID_ONCE));
  }

  lemma SecondPaying(s: State)
    requires OncePaid(s, Opened(100, CheckoutStatus.Pending, 1))
    ensures var r := C.Step(s, Pays(0).collection);
            && r.outcome.Credited? && BalanceAt(r.state, Organization(7)) == 20_000 && r.state.dues == s.dues
  {
    PayingCredits(s, 0, 1);
    CreditBalances(s, 0, 0, 10_000, Organization(7));
  }

  /** A retry looks at no due, so the second payment is credited; it leaves no due payment behind. */
  lemma DuePaidTwice(policy: FeePolicy)
    ensures DueCredits(policy, EMPTY, TWICE_PAID, 3) == 2
    ensures BalanceAt(Run(policy, EMPTY, TWICE_PAID), Organization(7)) == 20_000
    ensures Run(policy, EMPTY, TWICE_PAID).dues == map[3 := Assignment(10_000, true, Some(DuePayment(10_000, 101)))]
    ensures !NeverRevives(policy, TWICE_PAID)
  {
    Retried(policy);
    OneMore(policy, PAID_ONCE + [RETRIED], Pays(0));
    SecondPaying(Run(policy, EMPTY, PAID_ONCE + [RETRIED]));
    if NeverRevives(policy, TWICE_PAID) {
      DueCreditedOnce(policy, TWICE_PAID, 3);
    }
  }

  // ---------- A due paid in part ----------

  /**
    The payment service compares no amount with the assignment, only the users' route does:
    a first payment below the assigned amount is accepted, and shuts the due for good.
   */
  lemma PartPaymentShuts(policy: FeePolicy, later: seq<Event>)
    ensures
      var events := [Collection(C.DueAssigned(3, 20_000)), Opens(100), Pays(0)];
      var s := Run(policy, EMPTY, events);
      && s.dues == map[3 := Assignment(20_000, false, Some(DuePayment(10_000, 100)))]
      && 3 in Run(policy, s, later).dues && !Run(policy, s, later).dues[3].paid
      && DueCredits(policy, s, later, 3) == 0
  {
    var events := [Collection(C.DueAssigned(3, 20_000)), Opens(100), Pays(0)];
    var base := EMPTY.(dues := map[3 := Assignment(20_000, false, None)]);
    assert events[..2][..1] == [Collection(C.DueAssigned(3, 20_000))];
    assert events[..2][..1][..0] == [];
    assert Run(policy, EMPTY, events[..2][..1]) == base;
    assert Run(policy, EMPTY, events[..2]) == base.(pendings := [Opened(100, CheckoutStatus.Pending, 0)]);
    assert Run(policy, EMPTY, events).dues == map[3 := Assignment(20_000, false, Some(DuePayment(10_000, 100)))];
    RecordedIsFinal(policy, Run(policy, EMPTY, events), later, 3);
  }
}
