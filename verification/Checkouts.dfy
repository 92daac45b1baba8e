/**
  The life of a pending payment over whole runs: how a closed one can come back, how
  often it can be retried, and what is open at the same time.
 */
module Checkouts {
  import opened Tables
  import opened Books
  import opened Charges
  import C = Collections
  import opened Steps
  import opened Runs
  import opened Conservation
  import opened Replays

  predicate IsOpen(s: State, p: nat) {
    p < |s.pendings| && s.pendings[p].status.Pending?
  }

  /** Rows are never removed, and keep their reference, due and amount. */
  predicate SameRow(before: PendingPayment, after: PendingPayment) {
    after.reference == before.reference && after.due == before.due && after.amount == before.amount
  }

  predicate RowsStay(s: State, t: State) {
    |s.pendings| <= |t.pendings| && forall p :: 0 <= p < |s.pendings| ==> SameRow(s.pendings[p], t.pendings[p])
  }

  /** The step makes a failed row pending again. */
  predicate Reopens(policy: FeePolicy, s: State, event: Event, p: nat) {
    event == Collection(C.Retry(p)) && Step(policy, s, event).outcome.Done?
  }

  // ---------- Closing and reopening ----------

  /** `t` has the rows of `s`, some of them closed, and no other change. */
  predicate OnlyCloses(s: State, t: State) {
    && RowsStay(s, t) && |t.pendings| == |s.pendings| && t == s.(pendings := t.pendings)
    && forall p :: 0 <= p < |s.pendings| ==>
         t.pendings[p].meta == s.pendings[p].meta && (t.pendings[p].status.Pending? ==> s.pendings[p].status.Pending?)
  }

  /** An insert the indexes allow: a new reference, and no open checkout for the due. */
  predicate Inserts(s: State, t: State, row: PendingPayment) {
    && t == s.(pendings := s.pendings + [row])
    && (row.due.Some? ==> row.due.value in s.dues)
    && forall p :: 0 <= p < |s.pendings| ==>
         && s.pendings[p].reference != row.reference
         && (row.due.Some? && s.pendings[p].due == row.due ==> !s.pendings[p].status.Pending?)
  }

  lemma CreateInserts(s: State, row: PendingPayment)
    ensures C.CreatePending(s, row).Some? ==> Inserts(s, C.CreatePending(s, row).value, row)
  {}

  /** Opening a checkout closes rows at most, and then perhaps inserts one. */
  lemma InitiateWrites(s: State, event: C.Event)
    requires event.Initiate?
    ensures var r := C.Step(s, event);
            var row := C.NewPending(event.user, event.organization, event.due,
                                    event.amount, event.reference, event.fee, event.now);
            r.state == s
            || (!C.DueRecorded(s, event.due) && exists closed :: OnlyCloses(s, closed) && Inserts(closed, r.state, row))
  {
    var existing := C.FindReusable(s.pendings, event.user, event.organization, event.due);
    var row := C.NewPending(event.user, event.organization, event.due, event.amount,
                            event.reference, event.fee, event.now);
    if existing.Some? {
      var expired := C.SetStatus(s, existing.value, CheckoutStatus.Expired);
      var cancelled := C.SetStatus(s, existing.value, CheckoutStatus.Cancelled);
      assert OnlyCloses(s, expired) && OnlyCloses(s, cancelled);
      CreateInserts(expired, row);
      CreateInserts(cancelled, row);
    } else {
      assert OnlyCloses(s, s);
      CreateInserts(s, row);
    }
  }

  lemma InitiateRows(s: State, event: C.Event)
    requires event.Initiate?
    ensures var t := C.Step(s, event).state;
            && RowsStay(s, t)
            && (forall p :: 0 <= p < |s.pendings| ==> (t.pendings[p].status.Pending? ==> s.pendings[p].status.Pending?))
            && (forall p :: 0 <= p < |s.pendings| ==> t.pendings[p].meta == s.pendings[p].meta)
            && (|t.pendings| > |s.pendings| ==>
                  && |t.pendings| == |s.pendings| + 1 && t.pendings[|s.pendings|].meta.retries == 0
                  && t.pendings[|s.pendings|].due == event.due && !C.DueRecorded(s, event.due)
                  && (event.due.Some? ==> event.due.value in s.dues)
                  && (forall p :: 0 <= p < |s.pendings| ==>
                        && t.pendings[p].reference != t.pendings[|s.pendings|].reference
                        && (event.due.Some? && t.pendings[p].due == event.due ==> !t.pendings[p].status.Pending?)))
            && t.dues == s.dues && t.payments == s.payments
  {
    InitiateWrites(s, event);
  }

  /** A closed row is open after a step exactly when the step is an accepted retry of it. */
  lemma CollectionReopensExactly(s: State, event: C.Event, p: nat)
    requires p < |s.pendings| && !s.pendings[p].status.Pending?
    ensures p < |C.Step(s, event).state.pendings|
    ensures C.Step(s, event).state.pendings[p].status.Pending?
         <==> event == C.Retry(p) && C.Step(s, event).outcome.Done?
  {
    if event.Initiate? {
      InitiateRows(s, event);
    }
  }

  lemma ReopensExactly(policy: FeePolicy, s: State, event: Event, p: nat)
    requires p < |s.pendings| && !s.pendings[p].status.Pending?
    ensures IsOpen(Step(policy, s, event).state, p) <==> Reopens(policy, s, event, p)
  {
    match event
    case Collection(collection) => CollectionReopensExactly(s, collection, p);
    case Payout(payout) => PayoutKeepsCollections(policy, s, payout);
  }

  lemma StepKeepsRows(policy: FeePolicy, s: State, event: Event)
    ensures RowsStay(s, Step(policy, s, event).state)
  {
    match event
    case Collection(collection) => if collection.Initiate? { InitiateRows(s, collection); }
    case Payout(payout) => PayoutKeepsCollections(policy, s, payout);
  }

  ghost predicate UniqueReferences(s: State) {
    forall p, q :: 0 <= p < q < |s.pendings| ==> s.pendings[p].reference != s.pendings[q].reference
  }

  predicate NeverReopens(policy: FeePolicy, s: State, events: seq<Event>, p: nat) {
    events == []
    || (NeverReopens(policy, s, events[..|events| - 1], p)
        && !Reopens(policy, Run(policy, s, events[..|events| - 1]), events[|events| - 1], p))
  }

  lemma StepKeepsUnique(policy: FeePolicy, s: State, event: Event)
    requires UniqueReferences(s)
    ensures UniqueReferences(Step(policy, s, event).state)
  {
    match event
    case Collection(collection) => CollectionKeepsUnique(s, collection);
    case Payout(payout) => PayoutKeepsCollections(policy, s, payout);
  }

  lemma CollectionKeepsUnique(s: State, event: C.Event)
    requires UniqueReferences(s)
    ensures UniqueReferences(C.Step(s, event).state)
  {
    if event.Initiate? {
      InitiateRows(s, event);
    }
  }

  /**
    Once a pending payment is cancelled, expired, failed or completed, by whichever event, it
    stays closed and brings in no money for its reference until an accepted retry.
   */
  lemma {:induction false} ClosedUntilRetried(policy: FeePolicy, s: State, events: seq<Event>, p: nat)
    requires UniqueReferences(s) && p < |s.pendings| && !s.pendings[p].status.Pending?
    requires NeverReopens(policy, s, events, p)
    ensures var t := Run(policy, s, events);
            && RowsStay(s, t) && UniqueReferences(t) && !t.pendings[p].status.Pending?
    ensures CreditCount(policy, s, events, s.pendings[p].reference) == 0
  {
    if events != [] {
      var before, event := events[..|events| - 1], events[|events| - 1];
      ClosedUntilRetried(policy, s, before, p);
      var t := Run(policy, s, before);
      StepKeepsRows(policy, t, event);
      StepKeepsUnique(policy, t, event);
      ReopensExactly(policy, t, event, p);
      assert SameRow(s.pendings[p], t.pendings[p]);
    }
  }

  // ---------- Retries ----------

  /** The clean-up expires the row, and with its metadata the count of its retries. */
  predicate Wipes(s: State, event: Event, p: nat) {
    event.Collection? && event.collection.Cleanup? && IsOpen(s, p) && s.pendings[p].createdAt < event.collection.cutoff
  }

  /** A call that had read the row before its last retries writes the older count back with its checkout. */
  predicate Forgets(policy: FeePolicy, s: State, event: Event, p: nat) {
    && event.Collection? && event.collection.Attach? && event.collection.p == p
    && Step(policy, s, event).outcome.Done? && event.collection.read.retries < Retries(s, p)
  }

  predicate Restarts(policy: FeePolicy, s: State, event: Event, p: nat) {
    Wipes(s, event, p) || Forgets(policy, s, event, p)
  }

  function RetryCount(policy: FeePolicy, s: State, events: seq<Event>, p: nat): nat {
    if events == [] then 0
    else
      var before := events[..|events| - 1];
      RetryCount(policy, s, before, p) +
          if Reopens(policy, Run(policy, s, before), events[|events| - 1], p) then 1 else 0
  }

  function RestartCount(policy: FeePolicy, s: State, events: seq<Event>, p: nat): nat {
    if events == [] then 0
    else
      var before := events[..|events| - 1];
      RestartCount(policy, s, before, p) +
          if Restarts(policy, Run(policy, s, before), events[|events| - 1], p) then 1 else 0
  }

  function Retries(s: State, p: nat): int {
    if p < |s.pendings| then s.pendings[p].meta.retries else 0
  }

  /** The count as far as it matters: no row is retried from three on. */
  function Used(s: State, p: nat): int {
    Min(Retries(s, p), C.MAXIMUM_RETRIES)
  }

  lemma CollectionRetries(policy: FeePolicy, s: State, event: C.Event, p: nat)
    ensures var t := C.Step(s, event).state;
            && (Reopens(policy, s, Collection(event), p) ==> Used(t, p) == Used(s, p) + 1)
            && (Restarts(policy, s, Collection(event), p) || Used(t, p) >= Used(s, p))
            && 0 <= Used(t, p) <= C.MAXIMUM_RETRIES
  {
    if event.Initiate? {
      InitiateRows(s, event);
    }
  }

  lemma StepRetries(policy: FeePolicy, s: State, event: Event, p: nat)
    ensures var t := Step(policy, s, event).state;
            && (Reopens(policy, s, event, p) ==> Used(t, p) == Used(s, p) + 1)
            && (Restarts(policy, s, event, p) || Used(t, p) >= Used(s, p))
            && 0 <= Used(t, p) <= C.MAXIMUM_RETRIES
  {
    match event
    case Collection(collection) => CollectionRetries(policy, s, collection, p);
    case Payout(payout) => PayoutKeepsCollections(policy, s, payout);
  }

  /**
    A row is retried at most three times between events that restart its count: a clean-up
    that expires it, and a checkout attached by a call that had read it before its last retries.
   */
  lemma {:induction false} RetriesAreBounded(policy: FeePolicy, events: seq<Event>, p: nat)
    ensures RetryCount(policy, EMPTY, events, p)
         <= C.MAXIMUM_RETRIES * RestartCount(policy, EMPTY, events, p) + Used(Run(policy, EMPTY, events), p)
    ensures RestartCount(policy, EMPTY, events, p) == 0 ==> RetryCount(policy, EMPTY, events, p) <= C.MAXIMUM_RETRIES
  {
    if events != [] {
      var before := events[..|events| - 1];
      RetriesAreBounded(policy, before, p);
      StepRetries(policy, Run(policy, EMPTY, before), events[|events| - 1], p);
    }
  }

  // ---------- Retries without end ----------

  const OPENED := C.NewPending(1, 7, None, 10_000, 100, 10_000, 0)
  const CREATED := Collection(C.Initiate(1, 7, None, 10_000, 100, 10_000, 0, C.Unreachable))
  const FAILED := Collection(C.CollectionFailed(0, None))
  const RETRIED := Collection(C.Retry(0))
  const CLEANED := Collection(C.Cleanup(1))

  function RowAfter(status: CheckoutStatus, meta: Meta): State {
    EMPTY.(pendings := [OPENED.(status := status, meta := meta)])
  }

  /** One checkout, then `n` times a failure notice, a retry and a clean-up that expires the row. */
  function Cycles(n: nat): seq<Event> {
    if n == 0 then [CREATED]
    else Cycles(n - 1) + [FAILED] + [RETRIED] + [CLEANED]
  }

  lemma OneMoreEvent(policy: FeePolicy, events: seq<Event>, event: Event)
    ensures Run(policy, EMPTY, events + [event]) == Step(policy, Run(policy, EMPTY, events), event).state
    ensures RetryCount(policy, EMPTY, events + [event], 0)
         == RetryCount(policy, EMPTY, events, 0)
            + if Reopens(policy, Run(policy, EMPTY, events), event, 0) then 1 else 0
    ensures WipeCount(policy, EMPTY, events + [event], 0)
         == WipeCount(policy, EMPTY, events, 0) + if Wipes(Run(policy, EMPTY, events), event, 0) then 1 else 0
  {
    assert (events + [event])[..|events|] == events;
  }

  lemma CreatedWrites(policy: FeePolicy)
    ensures Step(policy, EMPTY, CREATED).state == RowAfter(CheckoutStatus.Pending, OPENED.meta)
  {}

  lemma RowCreated(policy: FeePolicy)
    ensures Run(policy, EMPTY, [CREATED]) == RowAfter(CheckoutStatus.Pending, OPENED.meta)
    ensures RetryCount(policy, EMPTY, [CREATED], 0) == 0 && WipeCount(policy, EMPTY, [CREATED], 0) == 0
  {
    assert [] + [CREATED] == [CREATED];
    OneMoreEvent(policy, [], CREATED);
    CreatedWrites(policy);
  }

  /** A closed or open row without retries fails, is retried once, and expires without retries. */
  lemma OneCycle(policy: FeePolicy, status: CheckoutStatus, meta: Meta)
    requires meta.retries == 0
    ensures var failed := Step(policy, RowAfter(status, meta), FAILED).state;
            && Reopens(policy, failed, RETRIED, 0)
            && Step(policy, Step(policy, failed, RETRIED).state, CLEANED).state
               == RowAfter(CheckoutStatus.Expired, Meta(None, None, 0))
  {
    assert Step(policy, RowAfter(status, meta), FAILED).state == RowAfter(CheckoutStatus.Failed, meta);
    assert Step(policy, RowAfter(CheckoutStatus.Failed, meta), RETRIED)
        == Result(RowAfter(CheckoutStatus.Pending, meta.(retries := 1)), Done);
  }

  /** The clean-up wipes the count, so there are runs with any number of accepted retries of one row. */
  lemma {:induction false} RetriesAreUnbounded(policy: FeePolicy, n: nat)
    ensures RetryCount(policy, EMPTY, Cycles(n), 0) == n
    ensures exists status, meta: Meta ::
              meta.retries == 0 && Run(policy, EMPTY, Cycles(n)) == RowAfter(status, meta)
  {
    if n == 0 {
      RowCreated(policy);
    } else {
      RetriesAreUnbounded(policy, n - 1);
      var before := Cycles(n - 1);
      var status, meta: Meta :| meta.retries == 0 && Run(policy, EMPTY, before) == RowAfter(status, meta);
      OneCycle(policy, status, meta);
      OneMoreEvent(policy, before, FAILED);
      OneMoreEvent(policy, before + [FAILED], RETRIED);
      OneMoreEvent(policy, before + [FAILED] + [RETRIED], CLEANED);
    }
  }

  // ---------- Retries without end, and without a clean-up ----------

  /** A call for the same purpose that reads the row before any checkout is attached. */
  const CALLED := Collection(C.Initiate(1, 7, None, 10_000, 101, 10_000, 0, C.Unreachable))

  /** What the `k`-th of these calls writes when the provider answers: its own session over what it had read. */
  function Attached(k: nat): Event {
    Collection(C.Attach(0, 10_000, 10_000, k, OPENED.meta))
  }

  /** One checkout row, and `n` more calls that reuse it. */
  function Calls(n: nat): seq<Event> {
    if n == 0 then [CREATED] else Calls(n - 1) + [CALLED]
  }

  /** Of `n` calls the first `m` attach their checkouts in turn, each of which fails and is retried. */
  function LateCalls(n: nat, m: nat): seq<Event> {
    if m == 0 then Calls(n) else LateCalls(n, m - 1) + [Attached(m)] + [FAILED] + [RETRIED]
  }

  /** Each call finds the one row, still without a checkout, and reads its metadata. */
  lemma OneCall(policy: FeePolicy)
    ensures var s := RowAfter(CheckoutStatus.Pending, OPENED.meta);
            Step(policy, s, CALLED) == Result(s, Unchanged)
  {
    assert C.FindReusable([OPENED], 1, 7, None) == Some(0);
  }

  lemma OneMoreCall(policy: FeePolicy, before: seq<Event>)
    requires Run(policy, EMPTY, before) == RowAfter(CheckoutStatus.Pending, OPENED.meta)
    ensures Run(policy, EMPTY, before + [CALLED]) == RowAfter(CheckoutStatus.Pending, OPENED.meta)
    ensures RetryCount(policy, EMPTY, before + [CALLED], 0) == RetryCount(policy, EMPTY, before, 0)
    ensures WipeCount(policy, EMPTY, before + [CALLED], 0) == WipeCount(policy, EMPTY, before, 0)
  {
    OneCall(policy);
    OneMoreEvent(policy, before, CALLED);
  }

  lemma {:induction false} CallsRead(policy: FeePolicy, n: nat)
    ensures Run(policy, EMPTY, Calls(n)) == RowAfter(CheckoutStatus.Pending, OPENED.meta)
    ensures RetryCount(policy, EMPTY, Calls(n), 0) == 0 && WipeCount(policy, EMPTY, Calls(n), 0) == 0
  {
    if n == 0 {
      RowCreated(policy);
    } else {
      CallsRead(policy, n - 1);
      OneMoreCall(policy, Calls(n - 1));
    }
  }

  function WipeCount(policy: FeePolicy, s: State, events: seq<Event>, p: nat): nat {
    if events == [] then 0
    else
      var before := events[..|events| - 1];
      WipeCount(policy, s, before, p) + if Wipes(Run(policy, s, before), events[|events| - 1], p) then 1 else 0
  }

  function RowAttached(k: nat, status: CheckoutStatus, retries: nat): State {
    EMPTY.(pendings := [OPENED.(status := status, meta := OPENED.meta.(retries := retries),
                                checkout := if k == 0 then None else Some(k))])
  }

  /** Whatever the count was, it is one after a late call attached, failed and was retried. */
  lemma OneLateCall(policy: FeePolicy, k: nat, retries: nat)
    ensures var attached := Step(policy, RowAttached(k, CheckoutStatus.Pending, retries), Attached(k + 1)).state;
            var failed := Step(policy, attached, FAILED).state;
            && attached == RowAttached(k + 1, CheckoutStatus.Pending, 0)
            && Reopens(policy, failed, RETRIED, 0)
            && Step(policy, failed, RETRIED).state == RowAttached(k + 1, CheckoutStatus.Pending, 1)
  {
    var attached := RowAttached(k + 1, CheckoutStatus.Pending, 0);
    assert Step(policy, RowAttached(k, CheckoutStatus.Pending, retries), Attached(k + 1)).state == attached;
    assert Step(policy, attached, FAILED).state == RowAttached(k + 1, CheckoutStatus.Failed, 0);
  }

  /** Calls that read a row before its retries let it be retried any number of times, with no clean-up at all. */
  lemma {:induction false} LateCallsRestart(policy: FeePolicy, n: nat, m: nat)
    requires m <= n
    ensures RetryCount(policy, EMPTY, LateCalls(n, m), 0) == m && WipeCount(policy, EMPTY, LateCalls(n, m), 0) == 0
    ensures Run(policy, EMPTY, LateCalls(n, m)) == RowAttached(m, CheckoutStatus.Pending, Min(m, 1))
  {
    if m == 0 {
      CallsRead(policy, n);
    } else {
      LateCallsRestart(policy, n, m - 1);
      OneMoreLateCall(policy, LateCalls(n, m - 1), m - 1, Min(m - 1, 1));
    }
  }

  lemma OneMoreLateCall(policy: FeePolicy, before: seq<Event>, k: nat, retries: nat)
    requires Run(policy, EMPTY, before) == RowAttached(k, CheckoutStatus.Pending, retries)
    ensures var after := before + [Attached(k + 1)] + [FAILED] + [RETRIED];
            && Run(policy, EMPTY, after) == RowAttached(k + 1, CheckoutStatus.Pending, 1)
            && RetryCount(policy, EMPTY, after, 0) == RetryCount(policy, EMPTY, before, 0) + 1
            && WipeCount(policy, EMPTY, after, 0) == WipeCount(policy, EMPTY, before, 0)
  {
    OneLateCall(policy, k, retries);
    OneMoreEvent(policy, before, Attached(k + 1));
    OneMoreEvent(policy, before + [Attached(k + 1)], FAILED);
    OneMoreEvent(policy, before + [Attached(k + 1)] + [FAILED], RETRIED);
  }

  // ---------- One open checkout for each due ----------

  ghost predicate OneOpenPerDue(s: State) {
    forall p, q :: 0 <= p < q < |s.pendings| && s.pendings[p].due.Some? && s.pendings[p].due == s.pendings[q].due
      ==> !(s.pendings[p].status.Pending? && s.pendings[q].status.Pending?)
  }

  lemma StepKeepsOneOpen(policy: FeePolicy, s: State, event: Event)
    requires OneOpenPerDue(s)
    ensures OneOpenPerDue(Step(policy, s, event).state)
  {
    match event
    case Collection(collection) => CollectionKeepsOneOpen(s, collection);
    case Payout(payout) => PayoutKeepsCollections(policy, s, payout);
  }

  lemma CollectionKeepsOneOpen(s: State, event: C.Event)
    requires OneOpenPerDue(s)
    ensures OneOpenPerDue(C.Step(s, event).state)
  {
    if event.Initiate? {
      InitiateRows(s, event);
    }
  }

  /** Over any run references stay unique and a due has at most one open checkout. */
  lemma {:induction false} RunKeepsIndexes(policy: FeePolicy, events: seq<Event>)
    ensures UniqueReferences(Run(policy, EMPTY, events)) && OneOpenPerDue(Run(policy, EMPTY, events))
  {
    if events != [] {
      var before := events[..|events| - 1];
      RunKeepsIndexes(policy, before);
      StepKeepsUnique(policy, Run(policy, EMPTY, before), events[|events| - 1]);
      StepKeepsOneOpen(policy, Run(policy, EMPTY, before), events[|events| - 1]);
    }
  }
}
