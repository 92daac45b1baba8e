/**
  What each event of a checkout answers and writes, said of the rows themselves: opening,
  attaching, completing and closing, and what may still happen to a completed payment.
 */
module Openings {
  import opened Tables
  import opened Books
  import opened Charges
  import opened Collections
  import opened Invariants
  import opened Conservation
  import opened Balances
  import Steps
  import Runs

  // ---------- Opening a checkout ----------

  /** A PENDING row of the same payer, organisation and due. */
  predicate Open(row: PendingPayment, user: nat, organization: nat, due: Option<nat>) {
    row.status == CheckoutStatus.Pending && row.user == user && row.organization == organization && row.due == due
  }

  predicate NoneOpen(rows: seq<PendingPayment>, user: nat, organization: nat, due: Option<nat>) {
    forall p :: 0 <= p < |rows| ==> !Open(rows[p], user, organization, due)
  }

  /** The open row created last; of those created at once, the one with the greatest identifier. */
  predicate NewestOpen(rows: seq<PendingPayment>, user: nat, organization: nat, due: Option<nat>, p: nat) {
    && p < |rows| && Open(rows[p], user, organization, due)
    && forall q :: 0 <= q < |rows| && Open(rows[q], user, organization, due) ==>
         rows[q].createdAt < rows[p].createdAt || (rows[q].createdAt == rows[p].createdAt && q <= p)
  }

  lemma {:induction false} FoundIsNewest(rows: seq<PendingPayment>, user: nat, organization: nat, due: Option<nat>)
    ensures var found := FindReusable(rows, user, organization, due);
            if found.None? then NoneOpen(rows, user, organization, due)
            else NewestOpen(rows, user, organization, due, found.value)
  {
    if rows != [] {
      var last := |rows| - 1;
      FoundIsNewest(rows[..last], user, organization, due);
      forall q | 0 <= q < last ensures rows[..last][q] == rows[q] {}
    }
  }

  lemma NewestIsFound(rows: seq<PendingPayment>, user: nat, organization: nat, due: Option<nat>, p: nat)
    requires NewestOpen(rows, user, organization, due, p)
    ensures FindReusable(rows, user, organization, due) == Some(p)
  {
    FoundIsNewest(rows, user, organization, due);
  }

  /** The indexes and keys admit a new PENDING row, with row `closed` no longer PENDING. */
  predicate Admitted(s: State, reference: nat, due: Option<nat>, closed: Option<nat>) {
    && (forall q :: 0 <= q < |s.pendings| ==> s.pendings[q].reference != reference)
    && (due.Some? ==>
          && due.value in s.dues
          && forall q :: 0 <= q < |s.pendings| && closed != Some(q) ==>
               !(s.pendings[q].due == due && s.pendings[q].status == CheckoutStatus.Pending))
  }

  function Requested(user: nat, organization: nat, due: Option<nat>, amount: int,
                     reference: nat, fee: nat, now: int): PendingPayment {
    PendingPayment(user, organization, due, amount, reference, CheckoutStatus.Pending, None, now,
                   Meta(Some(fee), Some(amount + fee), 0))
  }

  /** Too small an amount, or a due with a recorded payment, is refused before any row is looked at. */
  lemma OpeningRefusedFirst(s: State, user: nat, organization: nat, due: Option<nat>, amount: int, reference: nat,
                            fee: nat, now: int, answer: Answer)
    requires amount < 10_000 || (due.Some? && due.value in s.dues && s.dues[due.value].payment.Some?)
    ensures InitiatePayment(s, user, organization, due, amount, reference, fee, now, answer) == Result(s, Refused)
  {}

  /** With nothing open for the purpose a row is created if it is admitted. */
  lemma FirstOpeningExactly(s: State, user: nat, organization: nat, due: Option<nat>, amount: int, reference: nat,
                            fee: nat, now: int, answer: Answer)
    requires amount >= 10_000 && !(due.Some? && due.value in s.dues && s.dues[due.value].payment.Some?)
    requires NoneOpen(s.pendings, user, organization, due)
    ensures InitiatePayment(s, user, organization, due, amount, reference, fee, now, answer)
         == if Admitted(s, reference, due, None)
            then Result(s.(pendings := s.pendings
                             + [Requested(user, organization, due, amount, reference, fee, now)]), Done)
            else Result(s, Refused)
  {
    FoundIsNewest(s.pendings, user, organization, due);
  }

  /** Row `p` is closed with this status and the new row stands behind all others. */
  predicate Replaced(s: State, t: State, p: nat, status: CheckoutStatus, row: PendingPayment)
    requires p < |s.pendings|
  {
    t == s.(pendings := s.pendings[p := s.pendings[p].(status := status)] + [row])
  }

  /** The provider, or its age of an hour, says that the open row is dead. */
  predicate DiesAs(row: PendingPayment, now: int, answer: Answer, status: CheckoutStatus) {
    if now >= row.createdAt + 60 then status == CheckoutStatus.Expired
    else row.checkout.Some? && (|| (answer == HasExpired && status == CheckoutStatus.Expired)
                                || (answer == WasCancelled && status == CheckoutStatus.Cancelled))
  }

  /**
    With an open row for the purpose: it is reused exactly while it is younger than an hour and
    has no checkout or an open one, closed and replaced exactly when it is dead and the new row
    is admitted, and in every other case the call is refused and nothing changes.
   */
  lemma OpeningExactly(s: State, user: nat, organization: nat, due: Option<nat>, amount: int, reference: nat,
                       fee: nat, now: int, answer: Answer, p: nat)
    requires amount >= 10_000 && !(due.Some? && due.value in s.dues && s.dues[due.value].payment.Some?)
    requires NewestOpen(s.pendings, user, organization, due, p)
    ensures var r := InitiatePayment(s, user, organization, due, amount, reference, fee, now, answer);
            var earlier, row := s.pendings[p], Requested(user, organization, due, amount, reference, fee, now);
            && (r.outcome == Unchanged
                <==> now < earlier.createdAt + 60 && (earlier.checkout.None? || answer == StillOpen))
            && (r.outcome == Done
                <==> Admitted(s, reference, due, Some(p)) && exists status :: DiesAs(earlier, now, answer, status))
            && (r.outcome == Unchanged || r.outcome == Refused ==> r.state == s)
            && (r.outcome == Done ==>
                  forall status :: DiesAs(earlier, now, answer, status) ==> Replaced(s, r.state, p, status, row))
            && (r.outcome == Unchanged || r.outcome == Refused || r.outcome == Done)
  {
    NewestIsFound(s.pendings, user, organization, due, p);
    var earlier := s.pendings[p];
    var row := Requested(user, organization, due, amount, reference, fee, now);
    ReplacementExactly(s, p, CheckoutStatus.Expired, row);
    ReplacementExactly(s, p, CheckoutStatus.Cancelled, row);
    assert now >= earlier.createdAt + 60 ==> DiesAs(earlier, now, answer, CheckoutStatus.Expired);
    assert answer == HasExpired && earlier.checkout.Some? ==> DiesAs(earlier, now, answer, CheckoutStatus.Expired);
    assert answer == WasCancelled && now < earlier.createdAt + 60 && earlier.checkout.Some? ==>
      DiesAs(earlier, now, answer, CheckoutStatus.Cancelled);
  }

  lemma ReplacementExactly(s: State, p: nat, status: CheckoutStatus, row: PendingPayment)
    requires p < |s.pendings| && !status.Pending?
    ensures var r := CreatePending(SetStatus(s, p, status), row);
            && (r.Some? <==> Admitted(s, row.reference, row.due, Some(p)))
            && (r.Some? ==> Replaced(s, r.value, p, status, row))
  {
    var t := SetStatus(s, p, status);
    assert forall q :: 0 <= q < |s.pendings| ==>
             t.pendings[q].reference == s.pendings[q].reference && t.pendings[q].due == s.pendings[q].due
             && (t.pendings[q].status.Pending? <==> q != p && s.pendings[q].status.Pending?);
  }

  // ---------- Attaching ----------

  /** A checkout of the provider's is attached unless another row has it, over the metadata the call had read. */
  lemma AttachedExactly(s: State, p: nat, amount: int, fee: nat, session: nat, read: Meta)
    ensures var r := AttachCheckout(s, p, amount, fee, session, read);
            var free := forall q :: 0 <= q < |s.pendings| && s.pendings[q].checkout == Some(session) ==> q == p;
            && (r.outcome == Done <==> p < |s.pendings| && free)
            && (r.outcome == Done ==>
                  && r.state == s.(pendings := r.state.pendings) && |r.state.pendings| == |s.pendings|
                  && (forall q :: 0 <= q < |s.pendings| && q != p ==> r.state.pendings[q] == s.pendings[q])
                  && var before, after := s.pendings[p], r.state.pendings[p];
                     && after == before.(checkout := Some(session), meta := after.meta)
                     && after.ServiceFee() == fee && after.meta.retries == read.retries
                     && (amount + fee != 0 ==> after.Expected() == amount + fee))
            && (r.outcome != Done ==> r == Result(s, Refused))
  {}

  // ---------- Completing ----------

  /** The lookup finds this row: by its checkout, its identifier, or its reference. */
  predicate Finds(lookup: Lookup, p: nat, row: PendingPayment) {
    || (lookup.checkout != None && lookup.checkout == row.checkout)
    || lookup.id == Some(p) || lookup.reference == Some(row.reference)
  }

  predicate Paid(s: State, reference: nat) {
    exists k :: 0 <= k < |s.payments| && s.payments[k].reference == reference
  }

  /** Whatever is not credited changes nothing at all; a found reference that is paid is answered, not refused. */
  lemma UncreditedChangesNothing(s: State, p: nat, lookup: Lookup, charge: nat, amount: int)
    ensures var r := CompletePayment(s, p, lookup, charge, amount);
            && (r.outcome != Credited ==> r.state == s && (r.outcome == Unchanged || r.outcome == Refused))
            && (r.outcome == Unchanged
                <==> p < |s.pendings| && Finds(lookup, p, s.pendings[p]) && Paid(s, s.pendings[p].reference))
  {}

  /** What the metadata says, where a missing or zero figure stands for the row's own. */
  lemma TermsRead(row: PendingPayment)
    ensures row.ServiceFee() == if row.meta.platformFee.Some? then row.meta.platformFee.value else 0
    ensures forall x :: x != 0 && row.meta.expected == Some(x) ==> row.Expected() == x
    ensures row.meta.expected == None || row.meta.expected == Some(0) ==>
              row.Expected() == row.amount + row.ServiceFee()
  {}

  /** A completion is credited exactly when all of this holds before it. */
  lemma CreditedExactly(s: State, p: nat, lookup: Lookup, charge: nat, amount: int)
    requires p < |s.pendings|
    ensures var row := s.pendings[p];
            CompletePayment(s, p, lookup, charge, amount).outcome == Credited
            <==> && Finds(lookup, p, row) && !Paid(s, row.reference) && row.status == CheckoutStatus.Pending
                 && amount == row.Expected() && 0 < amount <= 9_007_199_254_740_991
                 && (row.checkout != None ==> lookup.checkout == row.checkout)
                 && (Organization(row.organization) in s.wallets ==> s.wallets[Organization(row.organization)].active)
                 && (row.ServiceFee() > 0 && Platform in s.wallets ==> s.wallets[Platform].active)
                 && (forall k :: 0 <= k < |s.payments| ==> s.payments[k].charge != charge)
                 && (row.due.Some? && row.due.value in s.dues && !s.dues[row.due.value].paid ==>
                       s.dues[row.due.value].payment == None)
  {}

  /** What a credited completion writes besides the balances. */
  lemma CreditedWrites(s: State, p: nat, lookup: Lookup, charge: nat, amount: int)
    requires CompletePayment(s, p, lookup, charge, amount).outcome == Credited
    ensures p < |s.pendings|
    ensures var t, row := CompletePayment(s, p, lookup, charge, amount).state, s.pendings[p];
            var fee := row.ServiceFee();
            && t == s.(wallets := t.wallets, settlement := s.settlement + amount, payments := t.payments,
                       entries := t.entries, pendings := t.pendings, dues := t.dues)
            && t.pendings == s.pendings[p := row.(status := CheckoutStatus.Completed)]
            && t.payments == s.payments + [Payment(row.reference, row.organization, row.amount, fee, charge)]
            && |t.entries| == |s.entries| + 1 && t.entries[..|s.entries|] == s.entries
            && t.entries[|s.entries|]
               == Entry(ForPayment(row.reference),
                        [Line(BachsSettlement, Debit, amount, Plain),
                         Line(WalletAccount(Organization(row.organization)), Credit, row.amount, Plain)]
                        + (if fee > 0 then [Line(WalletAccount(Platform), Credit, fee, ServiceFee)] else []),
                        Posted, true)
            && (forall o :: HeldBy(t, o) == HeldBy(s, o))
            && (forall o :: BalanceAt(t, o) == BalanceAt(s, o)
                              + (if o == Organization(row.organization) then row.amount else 0)
                              + (if o == Platform then fee else 0))
  {
    forall o { CreditBalances(s, p, charge, amount, o); }
    CreditHolds(s, p, charge, amount);
  }

  lemma CreditHolds(s: State, p: nat, charge: nat, amount: int)
    requires p < |s.pendings|
    ensures forall o :: HeldBy(CreditPayment(s, p, charge, amount), o) == HeldBy(s, o)
  {}

  /** An unpaid assignment of the row gets the payment recorded, and is paid exactly if that covers it. */
  lemma CreditedDueExactly(s: State, p: nat, lookup: Lookup, charge: nat, amount: int, d: nat)
    requires CompletePayment(s, p, lookup, charge, amount).outcome == Credited
    ensures p < |s.pendings|
    ensures var t, row := CompletePayment(s, p, lookup, charge, amount).state, s.pendings[p];
            && t.dues.Keys == s.dues.Keys
            && (d in s.dues ==>
                  t.dues[d] == if row.due == Some(d) && !s.dues[d].paid
                               then Assignment(s.dues[d].amount, row.amount >= s.dues[d].amount,
                                               Some(DuePayment(row.amount, row.reference)))
                               else s.dues[d])
  {}

  // ---------- Closing and retrying ----------

  /** Only row `p` changes, and only to this status. */
  predicate OnlyStatus(s: State, t: State, p: nat, status: CheckoutStatus)
    requires p < |s.pendings|
  {
    t == s.(pendings := s.pendings[p := s.pendings[p].(status := status)])
  }

  /** A PENDING row is cancelled by its payer, or by the service on nobody's behalf; any other call is refused. */
  lemma CancelledExactly(s: State, p: nat, caller: Option<nat>)
    ensures var r := CancelPayment(s, p, caller);
            if p < |s.pendings| && s.pendings[p].status == CheckoutStatus.Pending
               && (caller == None || caller == Some(s.pendings[p].user))
            then r.outcome == Done && OnlyStatus(s, r.state, p, CheckoutStatus.Cancelled)
            else r == Result(s, Refused)
  {}

  /** A poll of the payer's closes a row it had read as PENDING with a checkout, as the provider says. */
  lemma PolledExactly(s: State, p: nat, user: nat, before: CheckoutStatus, expired: bool)
    ensures var r := PollClosedCheckout(s, p, user, before, expired);
            if p >= |s.pendings| || s.pendings[p].user != user then r == Result(s, Refused)
            else if before == CheckoutStatus.Pending && s.pendings[p].checkout != None
            then r.outcome == Done
                 && OnlyStatus(s, r.state, p, if expired then CheckoutStatus.Expired else CheckoutStatus.Cancelled)
            else r == Result(s, Unchanged)
  {}

  /** The clean-up expires exactly the PENDING rows older than the cutoff, and wipes their metadata only. */
  lemma CleanedExactly(s: State, cutoff: int, p: nat)
    requires p < |s.pendings|
    ensures var t, row := CleanupExpired(s, cutoff).state, s.pendings[p];
            && t == s.(pendings := t.pendings) && |t.pendings| == |s.pendings|
            && t.pendings[p] == if row.status == CheckoutStatus.Pending && row.createdAt < cutoff
                                then row.(status := CheckoutStatus.Expired, meta := Meta(None, None, 0)) else row
  {}

  /** A FAILED row retried less than three times becomes PENDING again unless its due has another such row. */
  lemma RetriedExactly(s: State, p: nat)
    ensures var r := RetryFailed(s, p);
            if p < |s.pendings| && s.pendings[p].status == CheckoutStatus.Failed && s.pendings[p].meta.retries < 3
               && (s.pendings[p].due != None ==>
                     forall q :: 0 <= q < |s.pendings| && q != p && s.pendings[q].due == s.pendings[p].due ==>
                       s.pendings[q].status != CheckoutStatus.Pending)
            then
              && r.outcome == Done
              && var row := s.pendings[p];
                 r.state == s.(pendings := s.pendings[p := row.(status := CheckoutStatus.Pending,
                                                                meta := row.meta.(retries := row.meta.retries + 1))])
            else r == Result(s, Refused)
  {}

  /** The provider's notices of failure and expiry overwrite the status of the row they find, whatever it was. */
  lemma NoticedExactly(s: State, p: nat, checkout: Option<nat>)
    ensures var failed, expired := Step(s, CollectionFailed(p, checkout)), Step(s, CheckoutExpired(p, checkout));
            if p < |s.pendings| && (checkout == None || checkout == s.pendings[p].checkout)
            then
              && failed.outcome == Done && OnlyStatus(s, failed.state, p, CheckoutStatus.Failed)
              && expired.outcome == Done && OnlyStatus(s, expired.state, p, CheckoutStatus.Expired)
            else failed == Result(s, Unchanged) && expired == Result(s, Unchanged)
  {}

  lemma AssignedExactly(s: State, d: nat, amount: int)
    ensures Step(s, DueAssigned(d, amount))
         == if d in s.dues then Result(s, Unchanged)
            else Result(s.(dues := s.dues[d := Assignment(amount, false, None)]), Done)
  {}

  // ---------- What ends COMPLETED ----------

  predicate IsCompleted(s: State, p: nat) {
    p < |s.pendings| && s.pendings[p].status == CheckoutStatus.Completed
  }

  /** A notice of failure or expiry that finds the row, or the late end of a poll that had read it as PENDING. */
  predicate Overwrites(s: State, event: Steps.Event, p: nat) {
    && event.Collection? && p < |s.pendings|
    && match event.collection
       case CollectionFailed(q, checkout) => q == p && (checkout == None || checkout == s.pendings[p].checkout)
       case CheckoutExpired(q, checkout) => q == p && (checkout == None || checkout == s.pendings[p].checkout)
       case PollClosed(q, user, before, _) =>
         q == p && user == s.pendings[p].user && before == CheckoutStatus.Pending && s.pendings[p].checkout != None
       case _ => false
  }

  /** A completed payment stays COMPLETED through every other event, duplicates of its notification included. */
  lemma CompletedLeftExactly(policy: FeePolicy, s: State, event: Steps.Event, p: nat)
    requires IsCompleted(s, p)
    ensures IsCompleted(Steps.Step(policy, s, event).state, p) <==> !Overwrites(s, event, p)
  {
    match event
    case Payout(payout) => PayoutKeepsCollections(policy, s, payout);
    case Collection(collection) =>
      if collection.Initiate? { InitiateKeepsCompleted(s, collection, p); }
  }

  lemma InitiateKeepsCompleted(s: State, event: Event, p: nat)
    requires event.Initiate? && IsCompleted(s, p)
    ensures IsCompleted(Step(s, event).state, p)
  {
    FoundIsNewest(s.pendings, event.user, event.organization, event.due);
  }

  ghost predicate NeverOverwritten(policy: FeePolicy, s: State, events: seq<Steps.Event>, p: nat) {
    events == []
    || (NeverOverwritten(policy, s, events[..|events| - 1], p)
        && !Overwrites(Runs.Run(policy, s, events[..|events| - 1]), events[|events| - 1], p))
  }

  ghost predicate AlwaysCompleted(policy: FeePolicy, s: State, events: seq<Steps.Event>, p: nat) {
    IsCompleted(Runs.Run(policy, s, events), p)
    && (events != [] ==> AlwaysCompleted(policy, s, events[..|events| - 1], p))
  }

  /** Over any run it is COMPLETED all along exactly when no such notice or late poll meets it. */
  lemma {:induction false} CompletedStaysExactly(policy: FeePolicy, s: State, events: seq<Steps.Event>, p: nat)
    requires IsCompleted(s, p)
    ensures AlwaysCompleted(policy, s, events, p) <==> NeverOverwritten(policy, s, events, p)
  {
    if events != [] {
      var before := events[..|events| - 1];
      CompletedStaysExactly(policy, s, before, p);
      if AlwaysCompleted(policy, s, before, p) {
        CompletedLeftExactly(policy, Runs.Run(policy, s, before), events[|events| - 1], p);
      }
    }
  }

  /** Notifications, polls and redeliveries of references that are paid change nothing, however many there are. */
  predicate AllDuplicates(s: State, events: seq<Steps.Event>) {
    forall i :: 0 <= i < |events| ==>
      && events[i].Collection? && events[i].collection.Complete?
      && events[i].collection.p < |s.pendings| && Paid(s, s.pendings[events[i].collection.p].reference)
  }

  lemma {:induction false} DuplicatesChangeNothing(policy: FeePolicy, s: State, events: seq<Steps.Event>)
    requires AllDuplicates(s, events)
    ensures Runs.Run(policy, s, events) == s
  {
    if events != [] {
      DuplicatesChangeNothing(policy, s, events[..|events| - 1]);
      var last := events[|events| - 1].collection;
      UncreditedChangesNothing(s, last.p, last.lookup, last.charge, last.amount);
    }
  }

  // ---------- Runs that open twice ----------

  function Opening(amount: int, reference: nat, now: int, answer: Answer): Steps.Event {
    Steps.Collection(Initiate(1, 7, None, amount, reference, 10_000, now, answer))
  }

  const ATTACHED := Steps.Collection(Attach(0, 20_000, 10_000, 5, Meta(Some(10_000), Some(30_000), 0)))

  function FirstRow(status: CheckoutStatus, checkout: Option<nat>): PendingPayment {
    Requested(1, 7, None, 20_000, 100, 10_000, 0).(status := status, checkout := checkout)
  }

  /** The rows after a checkout was opened at time 0, perhaps attached, and asked for again. */
  function OpenedTwice(attached: bool, now: int, answer: Answer): seq<PendingPayment> {
    var checkout := if attached then Some(5) else None;
    var second := Requested(1, 7, None, 25_000, 101, 10_000, now);
    if now >= 60 || (attached && answer == HasExpired) then [FirstRow(CheckoutStatus.Expired, checkout), second]
    else if attached && answer == WasCancelled then [FirstRow(CheckoutStatus.Cancelled, checkout), second]
    else [FirstRow(CheckoutStatus.Pending, checkout)]
  }

  lemma FirstOpened(policy: FeePolicy)
    ensures Runs.Run(policy, EMPTY, [Opening(20_000, 100, 0, Unreachable)])
         == EMPTY.(pendings := [FirstRow(CheckoutStatus.Pending, None)])
  {
    FirstOpeningExactly(EMPTY, 1, 7, None, 20_000, 100, 10_000, 0, Unreachable);
  }

  lemma Attaches(policy: FeePolicy)
    ensures Runs.Run(policy, EMPTY, [Opening(20_000, 100, 0, Unreachable), ATTACHED])
         == EMPTY.(pendings := [FirstRow(CheckoutStatus.Pending, Some(5))])
  {
    FirstOpened(policy);
    assert [Opening(20_000, 100, 0, Unreachable), ATTACHED][..1] == [Opening(20_000, 100, 0, Unreachable)];
  }

  /** From an empty database, for every age of the first checkout and every answer of the provider. */
  lemma SecondOpening(policy: FeePolicy, attached: bool, now: int, answer: Answer)
    ensures var before := [Opening(20_000, 100, 0, Unreachable)] + if attached then [ATTACHED] else [];
            Runs.Run(policy, EMPTY, before + [Opening(25_000, 101, now, answer)])
            == EMPTY.(pendings := OpenedTwice(attached, now, answer))
  {
    var before := [Opening(20_000, 100, 0, Unreachable)] + if attached then [ATTACHED] else [];
    var checkout := if attached then Some(5) else None;
    var s := EMPTY.(pendings := [FirstRow(CheckoutStatus.Pending, checkout)]);
    if attached {
      assert before == [Opening(20_000, 100, 0, Unreachable), ATTACHED];
      Attaches(policy);
    } else {
      assert before == [Opening(20_000, 100, 0, Unreachable)];
      FirstOpened(policy);
    }
    assert (before + [Opening(25_000, 101, now, answer)])[..|before|] == before;
    OpeningExactly(s, 1, 7, None, 25_000, 101, 10_000, now, answer, 0);
    SecondRows(s, attached, now, answer);
  }

  lemma SecondRows(s: State, attached: bool, now: int, answer: Answer)
    requires s == EMPTY.(pendings := [FirstRow(CheckoutStatus.Pending, if attached then Some(5) else None)])
    ensures InitiatePayment(s, 1, 7, None, 25_000, 101, 10_000, now, answer).state
         == EMPTY.(pendings := OpenedTwice(attached, now, answer))
  {
    OpeningExactly(s, 1, 7, None, 25_000, 101, 10_000, now, answer, 0);
    var earlier, row := s.pendings[0], Requested(1, 7, None, 25_000, 101, 10_000, now);
    forall status | DiesAs(earlier, now, answer, status)
      ensures s.pendings[0 := earlier.(status := status)] + [row] == [FirstRow(status, earlier.checkout), row]
    {}
    if now >= 60 || (attached && answer == HasExpired) {
      assert DiesAs(earlier, now, answer, CheckoutStatus.Expired);
    } else if attached && answer == WasCancelled {
      assert DiesAs(earlier, now, answer, CheckoutStatus.Cancelled);
    }
  }
}
