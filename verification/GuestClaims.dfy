/**
  Payments by guests, and the transaction that hands everything a guest paid to the
  account of the same e-mail address. Identifiers are positions in their table.
 */
module GuestClaims {
  import opened Tables

  const MAXIMUM_ATTEMPTS := 5
  const CODE_LIFETIME := 600_000
  const CODE_INTERVAL := 60_000

  datatype User = User(email: nat, verified: bool, student: Option<nat>)

  datatype Guest = Guest(email: nat, placeholder: nat, claimedBy: Option<nat>)

  datatype Payment = Payment(payer: nat, organization: nat, amount: int,
                             completed: bool, due: Option<nat>, paidAt: Option<int>)

  datatype PendingPayment = PendingPayment(user: nat, organization: nat, amount: int, due: nat)

  datatype Receipt = Receipt(user: nat, payment: nat)

  datatype Due = Due(organization: nat, amount: int, deleted: bool)

  /** A due assignment is identified by its due and student. */
  type Key = (nat, nat)

  datatype Assignment = Assignment(amount: int, paid: bool, paidAt: Option<int>)

  datatype DuePayment = DuePayment(key: Key, payment: nat, amount: int, paidAt: int)

  /** The hash of a code is over the code and the user it was sent to. */
  datatype Code = Code(guest: nat, code: nat, user: nat, expiresAt: int, attempts: nat, used: bool, createdAt: int)

  datatype State = State(
    users: seq<User>,
    guests: seq<Guest>,
    payments: seq<Payment>,
    pendings: seq<PendingPayment>,
    receipts: seq<Receipt>,
    dues: seq<Due>,
    assignments: map<Key, Assignment>,
    duePayments: seq<DuePayment>,
    codes: seq<Code>)

  // ---------- Crediting the dues a guest paid ----------

  /** The payment settles a due that still exists and belongs to the organisation paid. */
  predicate Settles(dues: seq<Due>, p: Payment) {
    p.completed && p.due.Some? && p.due.value < |dues| && !dues[p.due.value].deleted
    && dues[p.due.value].organization == p.organization
  }

  predicate Paid(s: State, key: Key) {
    key in s.assignments && s.assignments[key].paid
  }

  predicate HasDuePayment(s: State, key: Key) {
    exists i :: 0 <= i < |s.duePayments| && s.duePayments[i].key == key
  }

  predicate PaymentUsed(s: State, k: nat) {
    exists i :: 0 <= i < |s.duePayments| && s.duePayments[i].payment == k
  }

  function PaidTime(p: Payment, now: int): int {
    if p.paidAt.Some? then p.paidAt.value else now
  }

  function Upsert(s: State, key: Key, amount: int, paidAt: int): State {
    var row := if key in s.assignments then s.assignments[key] else Assignment(amount, true, None);
    s.(assignments := s.assignments[key := row.(paid := true, paidAt := Some(paidAt))])
  }

  /** Marks the assignment paid and records a due payment if it has none; one recorded elsewhere aborts. */
  function Credit(s: State, student: nat, k: nat, now: int): Option<State>
    requires k < |s.payments|
  {
    var p := s.payments[k];
    if !Settles(s.dues, p) then Some(s)
    else
      var key := (p.due.value, student);
      var s1 := Upsert(s, key, s.dues[p.due.value].amount, PaidTime(p, now));
      if HasDuePayment(s, key) then Some(s1)
      else if PaymentUsed(s, k) then None
      else Some(s1.(duePayments := s.duePayments + [DuePayment(key, k, p.amount, PaidTime(p, now))]))
  }

  /** Credits the payments `placeholder` owned in `before`, among the first `n`. */
  function CreditAll(s: State, before: seq<Payment>, placeholder: nat, student: nat,
                     n: nat, now: int): (r: Option<State>)
    requires n <= |before| == |s.payments|
    ensures r.Some? ==> r.value == s.(assignments := r.value.assignments, duePayments := r.value.duePayments)
  {
    if n == 0 then Some(s)
    else
      var earlier := CreditAll(s, before, placeholder, student, n - 1, now);
      if earlier.None? || before[n - 1].payer != placeholder then earlier
      else Credit(earlier.value, student, n - 1, now)
  }

  // ---------- Claiming ----------

  function MovePayments(payments: seq<Payment>, from: nat, to: nat): seq<Payment> {
    seq(|payments|, k requires 0 <= k < |payments| =>
      if payments[k].payer == from then payments[k].(payer := to) else payments[k])
  }

  function MovePendings(pendings: seq<PendingPayment>, from: nat, to: nat): seq<PendingPayment> {
    seq(|pendings|, k requires 0 <= k < |pendings| =>
      if pendings[k].user == from then pendings[k].(user := to) else pendings[k])
  }

  function MoveReceipts(receipts: seq<Receipt>, from: nat, to: nat): seq<Receipt> {
    seq(|receipts|, k requires 0 <= k < |receipts| =>
      if receipts[k].user == from then receipts[k].(user := to) else receipts[k])
  }

  function Move(s: State, from: nat, to: nat): State {
    s.(payments := MovePayments(s.payments, from, to),
       pendings := MovePendings(s.pendings, from, to),
       receipts := MoveReceipts(s.receipts, from, to))
  }

  function CountOf(payments: seq<Payment>, payer: nat, n: nat): nat
    requires n <= |payments|
  {
    if n == 0 then 0 else CountOf(payments, payer, n - 1) + if payments[n - 1].payer == payer then 1 else 0
  }

  predicate Claimable(guest: Guest, email: nat) {
    guest.email == email && guest.claimedBy.None?
  }

  /** One turn of the loop over guests. */
  function ClaimGuest(s: State, user: nat, g: nat, now: int): (r: Option<State>)
    requires user < |s.users| && g < |s.guests|
    ensures r.Some? ==>
              && |r.value.payments| == |s.payments| && r.value.users == s.users
              && r.value.guests == s.guests[g := s.guests[g].(claimedBy := Some(user))]
  {
    var placeholder := s.guests[g].placeholder;
    var s1 := Move(s, placeholder, user);
    var student := s.users[user].student;
    var s2 := if student.Some? then CreditAll(s1, s.payments, placeholder, student.value, |s.payments|, now)
        else Some(s1);
    if s2.None? then None
    else Some(s2.value.(guests := s.guests[g := s.guests[g].(claimedBy := Some(user))]))
  }

  datatype Progress = Progress(state: State, guests: nat, payments: nat)

  function ClaimNext(p: Progress, user: nat, g: nat, now: int): (r: Option<Progress>)
    requires user < |p.state.users| && g < |p.state.guests|
    ensures r.Some? ==>
              && r.value.state.users == p.state.users
              && r.value.state.guests == p.state.guests[g := p.state.guests[g].(claimedBy := Some(user))]
  {
    var r := ClaimGuest(p.state, user, g, now);
    if r.None? then None
    else
      var moved := CountOf(p.state.payments, p.state.guests[g].placeholder, |p.state.payments|);
      Some(Progress(r.value, p.guests + 1, p.payments + moved))
  }

  /** Claims every claimable guest among the first `n`. */
  function ClaimAll(s: State, user: nat, n: nat, now: int): (r: Option<Progress>)
    requires user < |s.users| && n <= |s.guests|
    ensures r.Some? ==>
              && r.value.state.users == s.users
              && |r.value.state.guests| == |s.guests|
  {
    if n == 0 then Some(Progress(s, 0, 0))
    else
      var earlier := ClaimAll(s, user, n - 1, now);
      if earlier.None? || !Claimable(s.guests[n - 1], s.users[user].email) then earlier
      else ClaimNext(earlier.value, user, n - 1, now)
  }

  predicate CodeOpen(s: State, code: Code, email: nat, now: int) {
    && !code.used && now < code.expiresAt && code.attempts < MAXIMUM_ATTEMPTS
    && code.guest < |s.guests| && Claimable(s.guests[code.guest], email)
  }

  /** The newest open code sent for this e-mail address, among the first `n`. */
  function NewestCode(s: State, n: nat, email: nat, now: int): (r: Option<nat>)
    requires n <= |s.codes|
    ensures r.Some? ==> r.value < n && CodeOpen(s, s.codes[r.value], email, now)
  {
    if n == 0 then None
    else
      var earlier := NewestCode(s, n - 1, email, now);
      if !CodeOpen(s, s.codes[n - 1], email, now) then earlier
      else if earlier.Some? && s.codes[earlier.value].createdAt > s.codes[n - 1].createdAt then earlier
      else Some(n - 1)
  }

  datatype Outcome = Refused | Aborted | Claimed(guests: nat, payments: nat)

  datatype Result = Result(state: State, outcome: Outcome)

  function VerifyClaimCode(s: State, user: nat, code: nat, now: int): Result {
    if user >= |s.users| || !s.users[user].verified then Result(s, Refused)
    else
      var found := NewestCode(s, |s.codes|, s.users[user].email, now);
      if found.None? then Result(s, Refused)
      else
        var c := found.value;
        if s.codes[c].code != code || s.codes[c].user != user
        then Result(s.(codes := s.codes[c := s.codes[c].(attempts := s.codes[c].attempts + 1)]), Refused)
        else
          var r := ClaimAll(s, user, |s.guests|, now);
          if r.None? then Result(s, Aborted)
          else Result(r.value.state.(codes := s.codes[c := s.codes[c].(used := true)]),
                      Claimed(r.value.guests, r.value.payments))
  }

  // ---------- Everything else that touches guests ----------

  datatype Event =
    | Register(email: nat, verified: bool, student: Option<nat>)
    | GuestPays(email: nat, due: nat, checkout: bool)
    | Complete(p: nat, paidAt: Option<int>)
    | IssueReceipt(k: nat)
    | RequestCode(user: nat, code: nat, now: int)
    | Verify(user: nat, code: nat, now: int)

  /** A guest gets a placeholder account, whose address is never verified, before the checkout is opened. */
  function InitiateGuestPayment(s: State, email: nat, due: nat, checkout: bool): State {
    if due >= |s.dues| || s.dues[due].deleted then s
    else
      var placeholder := |s.users|;
      var pending := PendingPayment(placeholder, s.dues[due].organization, s.dues[due].amount, due);
      s.(users := s.users + [User(email, false, None)],
         guests := s.guests + [Guest(email, placeholder, None)],
         pendings := s.pendings + if checkout then [pending] else [])
  }

  function CompleteGuestPayment(s: State, p: nat, paidAt: Option<int>): State {
    if p >= |s.pendings| then s
    else
      var row := s.pendings[p];
      s.(payments := s.payments + [Payment(row.user, row.organization, row.amount, true, Some(row.due), paidAt)])
  }

  function FirstClaimable(s: State, n: nat, email: nat): (r: Option<nat>)
    requires n <= |s.guests|
    ensures r.Some? ==> r.value < n && Claimable(s.guests[r.value], email)
  {
    if n == 0 then None
    else
      var earlier := FirstClaimable(s, n - 1, email);
      if earlier.Some? then earlier else if Claimable(s.guests[n - 1], email) then Some(n - 1) else None
  }

  predicate CodeSentRecently(s: State, g: nat, now: int) {
    exists c :: 0 <= c < |s.codes| && s.codes[c].guest == g && !s.codes[c].used
        && s.codes[c].createdAt >= now - CODE_INTERVAL
  }

  function RequestClaimCode(s: State, user: nat, code: nat, now: int): State {
    if user >= |s.users| || !s.users[user].verified then s
    else
      var g := FirstClaimable(s, |s.guests|, s.users[user].email);
      if g.None? || CodeSentRecently(s, g.value, now) then s
      else s.(codes := s.codes + [Code(g.value, code, user, now + CODE_LIFETIME, 0, false, now)])
  }

  function Step(s: State, event: Event): State {
    match event
    case Register(email, verified, student) => s.(users := s.users + [User(email, verified, student)])
    case GuestPays(email, due, checkout) => InitiateGuestPayment(s, email, due, checkout)
    case Complete(p, paidAt) => CompleteGuestPayment(s, p, paidAt)
    case IssueReceipt(k) =>
        if k >= |s.payments| then s else s.(receipts := s.receipts + [Receipt(s.payments[k].payer, k)])
    case RequestCode(user, code, now) => RequestClaimCode(s, user, code, now)
    case Verify(user, code, now) => VerifyClaimCode(s, user, code, now).state
  }

  function Run(s: State, events: seq<Event>): State {
    if events == [] then s else Step(Run(s, events[..|events| - 1]), events[|events| - 1])
  }

  // ---------- What every step keeps ----------

  predicate IsPlaceholder(s: State, u: nat) {
    exists g :: 0 <= g < |s.guests| && s.guests[g].placeholder == u
  }

  predicate OwnsNothing(s: State, u: nat) {
    && (forall k :: 0 <= k < |s.payments| ==> s.payments[k].payer != u)
    && (forall k :: 0 <= k < |s.pendings| ==> s.pendings[k].user != u)
    && (forall k :: 0 <= k < |s.receipts| ==> s.receipts[k].user != u)
  }

  predicate OwnersKnown(s: State) {
    && (forall k :: 0 <= k < |s.payments| ==> s.payments[k].payer < |s.users|)
    && (forall k :: 0 <= k < |s.pendings| ==> s.pendings[k].user < |s.users|)
    && (forall k :: 0 <= k < |s.receipts| ==> s.receipts[k].user < |s.users|)
  }

  /** A placeholder's address is never verified. */
  predicate PlaceholdersKnown(s: State) {
    && (forall g :: 0 <= g < |s.guests|
         ==> s.guests[g].placeholder < |s.users| && !s.users[s.guests[g].placeholder].verified)
    && (forall g, h :: 0 <= g < h < |s.guests| ==> s.guests[g].placeholder != s.guests[h].placeholder)
  }

  predicate ClaimedAreEmpty(s: State) {
    forall g :: 0 <= g < |s.guests| && s.guests[g].claimedBy.Some? ==> OwnsNothing(s, s.guests[g].placeholder)
  }

  /** No assignment has two due payments, and no payment counts for two assignments. */
  predicate DuePaymentsDiffer(s: State) {
    forall i, j :: 0 <= i < j < |s.duePayments| ==>
      s.duePayments[i].key != s.duePayments[j].key && s.duePayments[i].payment != s.duePayments[j].payment
  }

  /** What is recorded against a due was never left with a guest. */
  predicate DuePaymentsClaimed(s: State) {
    forall i :: 0 <= i < |s.duePayments| ==>
      s.duePayments[i].payment < |s.payments| && !IsPlaceholder(s, s.payments[s.duePayments[i].payment].payer)
  }

  predicate Sound(s: State) {
    OwnersKnown(s) && PlaceholdersKnown(s) && ClaimedAreEmpty(s) && DuePaymentsDiffer(s) && DuePaymentsClaimed(s)
  }

  // ---------- Credits ----------

  /** Some payment `placeholder` owned, among the first `n`, settles the due of `key` for `student`. */
  predicate SettledBy(before: seq<Payment>, dues: seq<Due>, placeholder: nat, n: nat, student: nat, key: Key)
    requires n <= |before|
  {
    key.1 == student
    && exists k :: 0 <= k < n && before[k].payer == placeholder && Settles(dues, before[k])
         && before[k].due.value == key.0
  }

  predicate NotYetUsed(s: State, before: seq<Payment>, placeholder: nat, from: nat) {
    forall i :: 0 <= i < |s.duePayments| ==>
      s.duePayments[i].payment < |before|
          && (before[s.duePayments[i].payment].payer == placeholder ==> s.duePayments[i].payment < from)
  }

  lemma CreditWorks(s: State, student: nat, k: nat, now: int)
    requires k < |s.payments| && DuePaymentsDiffer(s) && !PaymentUsed(s, k)
    ensures
      var r := Credit(s, student, k, now);
      && r.Some? && DuePaymentsDiffer(r.value)
      && s.duePayments <= r.value.duePayments
      && (forall i :: |s.duePayments| <= i < |r.value.duePayments| ==> r.value.duePayments[i].payment == k)
      && (forall key :: Paid(r.value, key) <==>
            Paid(s, key) || (Settles(s.dues, s.payments[k]) && key == (s.payments[k].due.value, student)))
  {
  }

  lemma SettledByOneMore(before: seq<Payment>, dues: seq<Due>, placeholder: nat, n: nat, student: nat, key: Key)
    requires 0 < n <= |before|
    ensures SettledBy(before, dues, placeholder, n, student, key)
       <==> SettledBy(before, dues, placeholder, n - 1, student, key)
            || (before[n - 1].payer == placeholder && Settles(dues, before[n - 1])
                 && key == (before[n - 1].due.value, student))
  {
  }

  lemma {:induction false} CreditAllWorks(s: State, before: seq<Payment>,
                                          placeholder: nat, student: nat, n: nat, now: int)
    requires n <= |before| == |s.payments|
    requires forall k :: 0 <= k < |before| ==> s.payments[k] == before[k].(payer := s.payments[k].payer)
    requires DuePaymentsDiffer(s) && NotYetUsed(s, before, placeholder, 0)
    ensures
      var r := CreditAll(s, before, placeholder, student, n, now);
      && r.Some? && DuePaymentsDiffer(r.value) && s.duePayments <= r.value.duePayments
      && NotYetUsed(r.value, before, placeholder, n)
      && (forall i :: |s.duePayments| <= i < |r.value.duePayments|
           ==> before[r.value.duePayments[i].payment].payer == placeholder)
      && (forall key :: Paid(r.value, key) <==> Paid(s, key) || SettledBy(before, s.dues, placeholder, n, student, key))
  {
    if n > 0 {
      CreditAllWorks(s, before, placeholder, student, n - 1, now);
      var earlier := CreditAll(s, before, placeholder, student, n - 1, now).value;
      if before[n - 1].payer == placeholder {
        CreditWorks(earlier, student, n - 1, now);
      }
      forall key {
        SettledByOneMore(before, s.dues, placeholder, n, student, key);
      }
    }
  }

  // ---------- One guest ----------

  predicate MayClaim(s: State, user: nat) {
    user < |s.users| && s.users[user].verified
  }

  lemma NotAPlaceholder(s: State, user: nat)
    requires PlaceholdersKnown(s) && MayClaim(s, user)
    ensures !IsPlaceholder(s, user)
  {
  }

  lemma GuestIsCredited(s: State, user: nat, g: nat, now: int)
    requires Sound(s) && MayClaim(s, user) && g < |s.guests| && s.guests[g].claimedBy.None?
    ensures
      var r := ClaimGuest(s, user, g, now);
      var student := s.users[user].student;
      && r.Some? && DuePaymentsDiffer(r.value) && s.duePayments <= r.value.duePayments
      && r.value == Move(s, s.guests[g].placeholder, user).(
           assignments := r.value.assignments, duePayments := r.value.duePayments,
                                                            guests := r.value.guests)
      && (forall i :: |s.duePayments| <= i < |r.value.duePayments| ==>
            r.value.duePayments[i].payment < |s.payments|
            && s.payments[r.value.duePayments[i].payment].payer == s.guests[g].placeholder)
      && (forall key :: Paid(r.value, key) <==>
            Paid(s, key) || (student.Some?
                && SettledBy(s.payments, s.dues, s.guests[g].placeholder, |s.payments|, student.value, key)))
  {
    var placeholder, student := s.guests[g].placeholder, s.users[user].student;
    if student.Some? {
      var s1 := Move(s, placeholder, user);
      assert IsPlaceholder(s, placeholder);
      CreditAllWorks(s1, s.payments, placeholder, student.value, |s.payments|, now);
      var r := CreditAll(s1, s.payments, placeholder, student.value, |s.payments|, now).value;
      assert ClaimGuest(s, user, g, now) == Some(r.(guests := s.guests[g := s.guests[g].(claimedBy := Some(user))]));
      assert forall key :: Paid(s1, key) <==> Paid(s, key);
      assert forall key :: Paid(ClaimGuest(s, user, g, now).value, key) <==> Paid(r, key);
      assert NotYetUsed(r, s.payments, placeholder, |s.payments|);
    }
  }

  /** Claiming one guest keeps every invariant, and never aborts. */
  lemma GuestKeepsSound(s: State, user: nat, g: nat, now: int)
    requires Sound(s) && MayClaim(s, user) && g < |s.guests| && s.guests[g].claimedBy.None?
    ensures ClaimGuest(s, user, g, now).Some? && Sound(ClaimGuest(s, user, g, now).value)
  {
    GuestIsCredited(s, user, g, now);
    NotAPlaceholder(s, user);
    var r := ClaimGuest(s, user, g, now).value;
    assert forall u :: IsPlaceholder(r, u) <==> IsPlaceholder(s, u) by {
      assert forall h :: 0 <= h < |s.guests| ==> r.guests[h].placeholder == s.guests[h].placeholder;
    }
    forall h | 0 <= h < |r.guests| && r.guests[h].claimedBy.Some?
      ensures OwnsNothing(r, r.guests[h].placeholder)
    {
      assert IsPlaceholder(s, s.guests[h].placeholder);
      if h != g {
        assert OwnsNothing(s, s.guests[h].placeholder);
      }
    }
  }

  // ---------- The whole claim ----------

  /** `u` is the placeholder of a claimable guest among the first `n`. */
  predicate Taken(s: State, user: nat, n: nat, u: nat)
    requires user < |s.users| && n <= |s.guests|
  {
    exists g :: 0 <= g < n && Claimable(s.guests[g], s.users[user].email) && s.guests[g].placeholder == u
  }

  function Owner(s: State, user: nat, n: nat, u: nat): nat
    requires user < |s.users| && n <= |s.guests|
  {
    if Taken(s, user, n, u) then user else u
  }

  /** Everything of the claimed guests belongs to the user, and nothing else about it changed. */
  predicate HandedOver(s: State, r: State, user: nat, n: nat)
    requires user < |s.users| && n <= |s.guests|
  {
    && |r.payments| == |s.payments| && |r.pendings| == |s.pendings| && |r.receipts| == |s.receipts|
    && (forall k :: 0 <= k < |s.payments|
         ==> r.payments[k] == s.payments[k].(payer := Owner(s, user, n, s.payments[k].payer)))
    && (forall k :: 0 <= k < |s.pendings|
         ==> r.pendings[k] == s.pendings[k].(user := Owner(s, user, n, s.pendings[k].user)))
    && (forall k :: 0 <= k < |s.receipts|
         ==> r.receipts[k] == s.receipts[k].(user := Owner(s, user, n, s.receipts[k].user)))
    && |r.guests| == |s.guests| && r.users == s.users && r.dues == s.dues && r.codes == s.codes
    && (forall g :: 0 <= g < |s.guests| ==>
          r.guests[g] == if g < n && Claimable(s.guests[g], s.users[user].email)
                         then s.guests[g].(claimedBy := Some(user)) else s.guests[g])
  }

  /** A payment of one of the claimed guests settles the due of `key`, and the user is its student. */
  predicate SettledByGuests(s: State, user: nat, n: nat, key: Key)
    requires user < |s.users| && n <= |s.guests|
  {
    s.users[user].student == Some(key.1)
    && exists k :: 0 <= k < |s.payments| && Taken(s, user, n, s.payments[k].payer)
                   && Settles(s.dues, s.payments[k]) && s.payments[k].due.value == key.0
  }

  function CountTaken(s: State, user: nat, n: nat, m: nat): nat
    requires user < |s.users| && n <= |s.guests| && m <= |s.payments|
  {
    if m == 0 then 0 else CountTaken(s, user, n, m - 1) + if Taken(s, user, n, s.payments[m - 1].payer) then 1 else 0
  }

  lemma TakenOneMore(s: State, user: nat, n: nat, u: nat)
    requires user < |s.users| && 0 < n <= |s.guests|
    ensures Taken(s, user, n, u)
       <==> || Taken(s, user, n - 1, u)
            || (Claimable(s.guests[n - 1], s.users[user].email) && s.guests[n - 1].placeholder == u)
  {
  }

  /** Handing over the earlier guests leaves this guest's payments where they were. */
  lemma OthersUntouched(s: State, user: nat, n: nat, u: nat)
    requires PlaceholdersKnown(s) && MayClaim(s, user) && 0 < n <= |s.guests|
    ensures Owner(s, user, n - 1, u) == s.guests[n - 1].placeholder <==> u == s.guests[n - 1].placeholder
    ensures u == s.guests[n - 1].placeholder ==> !Taken(s, user, n - 1, u)
  {
    NotAPlaceholder(s, user);
    assert IsPlaceholder(s, s.guests[n - 1].placeholder);
  }

  lemma {:induction false} CountsAdd(s: State, at: State, user: nat, n: nat, m: nat)
    requires PlaceholdersKnown(s) && MayClaim(s, user) && 0 < n <= |s.guests| && m <= |s.payments|
    requires HandedOver(s, at, user, n - 1) && Claimable(s.guests[n - 1], s.users[user].email)
    ensures CountTaken(s, user, n, m)
         == CountTaken(s, user, n - 1, m) + CountOf(at.payments, s.guests[n - 1].placeholder, m)
  {
    if m > 0 {
      CountsAdd(s, at, user, n, m - 1);
      TakenOneMore(s, user, n, s.payments[m - 1].payer);
      OthersUntouched(s, user, n, s.payments[m - 1].payer);
    }
  }

  lemma HandOverOneMore(s: State, at: State, r: State, user: nat, n: nat)
    requires PlaceholdersKnown(s) && MayClaim(s, user) && 0 < n <= |s.guests|
    requires HandedOver(s, at, user, n - 1) && Claimable(s.guests[n - 1], s.users[user].email)
    requires r == Move(at, s.guests[n - 1].placeholder, user).(
        assignments := r.assignments, duePayments := r.duePayments, guests := r.guests)
    requires r.guests == at.guests[n - 1 := at.guests[n - 1].(claimedBy := Some(user))]
    ensures HandedOver(s, r, user, n)
  {
    forall u: nat
      ensures Owner(s, user, n, u) == if u == s.guests[n - 1].placeholder then user else Owner(s, user, n - 1, u)
      ensures Owner(s, user, n - 1, u) == s.guests[n - 1].placeholder <==> u == s.guests[n - 1].placeholder
    {
      TakenOneMore(s, user, n, u);
      OthersUntouched(s, user, n, u);
    }
  }

  lemma SettledOneMore(s: State, at: State, user: nat, n: nat, key: Key)
    requires PlaceholdersKnown(s) && MayClaim(s, user) && 0 < n <= |s.guests|
    requires HandedOver(s, at, user, n - 1) && Claimable(s.guests[n - 1], s.users[user].email)
    ensures SettledByGuests(s, user, n, key)
       <==> SettledByGuests(s, user, n - 1, key)
            || (s.users[user].student.Some?
                && SettledBy(at.payments, at.dues, s.guests[n - 1].placeholder,
                             |at.payments|, s.users[user].student.value, key))
  {
    forall k | 0 <= k < |s.payments|
      ensures Taken(s, user, n, s.payments[k].payer)
         <==> Taken(s, user, n - 1, s.payments[k].payer) || at.payments[k].payer == s.guests[n - 1].placeholder
      ensures Settles(at.dues, at.payments[k]) <==> Settles(s.dues, s.payments[k])
    {
      TakenOneMore(s, user, n, s.payments[k].payer);
      OthersUntouched(s, user, n, s.payments[k].payer);
    }
  }

  lemma NoneTaken(s: State, user: nat, m: nat)
    requires user < |s.users| && m <= |s.payments|
    ensures CountTaken(s, user, 0, m) == 0
  {
  }

  lemma {:induction false} SameCount(s: State, user: nat, n: nat, m: nat)
    requires user < |s.users| && 0 < n <= |s.guests| && m <= |s.payments|
        && !Claimable(s.guests[n - 1], s.users[user].email)
    ensures CountTaken(s, user, n, m) == CountTaken(s, user, n - 1, m)
  {
    if m > 0 {
      SameCount(s, user, n, m - 1);
      TakenOneMore(s, user, n, s.payments[m - 1].payer);
    }
  }

  predicate ClaimWorked(s: State, r: Option<Progress>, user: nat, n: nat)
    requires user < |s.users| && n <= |s.guests|
  {
    && r.Some? && Sound(r.value.state) && HandedOver(s, r.value.state, user, n)
    && r.value.payments == CountTaken(s, user, n, |s.payments|)
    && s.duePayments <= r.value.state.duePayments
  }

  lemma OneGuestMore(s: State, at: State, user: nat, n: nat, now: int)
    requires PlaceholdersKnown(s) && MayClaim(s, user) && 0 < n <= |s.guests|
        && Claimable(s.guests[n - 1], s.users[user].email)
    requires Sound(at) && HandedOver(s, at, user, n - 1)
    ensures
      var r := ClaimGuest(at, user, n - 1, now);
      && r.Some? && Sound(r.value) && HandedOver(s, r.value, user, n) && at.duePayments <= r.value.duePayments
  {
    GuestKeepsSound(at, user, n - 1, now);
    GuestIsCredited(at, user, n - 1, now);
    HandOverOneMore(s, at, ClaimGuest(at, user, n - 1, now).value, user, n);
  }

  /** One turn of the loop. */
  lemma ClaimAllStep(s: State, user: nat, n: nat, now: int, earlier: Progress)
    requires user < |s.users| && 0 < n <= |s.guests| && Claimable(s.guests[n - 1], s.users[user].email)
    requires ClaimAll(s, user, n - 1, now) == Some(earlier)
    ensures ClaimAll(s, user, n, now) == ClaimNext(earlier, user, n - 1, now)
  {
  }

  lemma ClaimOneMore(s: State, user: nat, n: nat, now: int)
    requires PlaceholdersKnown(s) && MayClaim(s, user) && 0 < n <= |s.guests|
        && Claimable(s.guests[n - 1], s.users[user].email)
    requires ClaimWorked(s, ClaimAll(s, user, n - 1, now), user, n - 1)
    ensures ClaimWorked(s, ClaimAll(s, user, n, now), user, n)
  {
    var earlier := ClaimAll(s, user, n - 1, now).value;
    OneGuestMore(s, earlier.state, user, n, now);
    ClaimAllStep(s, user, n, now, earlier);
    CountsAdd(s, earlier.state, user, n, |s.payments|);
  }

  lemma {:induction false} ClaimAllWorks(s: State, user: nat, n: nat, now: int)
    requires Sound(s) && MayClaim(s, user) && n <= |s.guests|
    ensures ClaimWorked(s, ClaimAll(s, user, n, now), user, n)
  {
    if n == 0 {
      NoneTaken(s, user, |s.payments|);
    } else {
      ClaimAllWorks(s, user, n - 1, now);
      if Claimable(s.guests[n - 1], s.users[user].email) {
        ClaimOneMore(s, user, n, now);
      } else {
        SameCount(s, user, n, |s.payments|);
        NotTakenSame(s, ClaimAll(s, user, n - 1, now).value.state, user, n);
      }
    }
  }

  lemma NotTakenSame(s: State, r: State, user: nat, n: nat)
    requires user < |s.users| && 0 < n <= |s.guests| && !Claimable(s.guests[n - 1], s.users[user].email)
    requires HandedOver(s, r, user, n - 1)
    ensures HandedOver(s, r, user, n)
  {
    forall u: nat
      ensures Owner(s, user, n, u) == Owner(s, user, n - 1, u)
    {
      TakenOneMore(s, user, n, u);
    }
  }

  predicate PaysExactly(s: State, r: Option<Progress>, user: nat, n: nat, key: Key)
    requires user < |s.users| && n <= |s.guests|
  {
    r.Some? && (Paid(r.value.state, key) <==> Paid(s, key) || SettledByGuests(s, user, n, key))
  }

  /** After a claim an assignment is paid exactly when it was, or when a claimed payment settles it. */
  lemma {:induction false} ClaimPaysExactly(s: State, user: nat, n: nat, now: int, key: Key)
    requires Sound(s) && MayClaim(s, user) && n <= |s.guests|
    ensures PaysExactly(s, ClaimAll(s, user, n, now), user, n, key)
  {
    if n > 0 {
      ClaimPaysExactly(s, user, n - 1, now, key);
      if Claimable(s.guests[n - 1], s.users[user].email) {
        PaysOneMore(s, user, n, now, key);
      } else {
        SettledSame(s, user, n, key);
      }
    }
  }

  lemma PaysOneMore(s: State, user: nat, n: nat, now: int, key: Key)
    requires Sound(s) && MayClaim(s, user) && 0 < n <= |s.guests| && Claimable(s.guests[n - 1], s.users[user].email)
    requires PaysExactly(s, ClaimAll(s, user, n - 1, now), user, n - 1, key)
    ensures PaysExactly(s, ClaimAll(s, user, n, now), user, n, key)
  {
    ClaimAllWorks(s, user, n - 1, now);
    var earlier := ClaimAll(s, user, n - 1, now).value;
    NextPays(s, earlier, user, n, now, key);
    ClaimAllStep(s, user, n, now, earlier);
  }

  lemma NextPays(s: State, earlier: Progress, user: nat, n: nat, now: int, key: Key)
    requires PlaceholdersKnown(s) && MayClaim(s, user) && 0 < n <= |s.guests|
        && Claimable(s.guests[n - 1], s.users[user].email)
    requires Sound(earlier.state) && HandedOver(s, earlier.state, user, n - 1)
    requires PaysExactly(s, Some(earlier), user, n - 1, key)
    ensures PaysExactly(s, ClaimNext(earlier, user, n - 1, now), user, n, key)
  {
    GuestIsCredited(earlier.state, user, n - 1, now);
    SettledOneMore(s, earlier.state, user, n, key);
  }

  lemma SettledSame(s: State, user: nat, n: nat, key: Key)
    requires user < |s.users| && 0 < n <= |s.guests| && !Claimable(s.guests[n - 1], s.users[user].email)
    ensures SettledByGuests(s, user, n, key) <==> SettledByGuests(s, user, n - 1, key)
  {
    forall k | 0 <= k < |s.payments|
      ensures Taken(s, user, n, s.payments[k].payer) <==> Taken(s, user, n - 1, s.payments[k].payer)
    {
      TakenOneMore(s, user, n, s.payments[k].payer);
    }
  }

  // ---------- Every run ----------

  lemma VerifyKeepsSound(s: State, user: nat, code: nat, now: int)
    requires Sound(s)
    ensures Sound(VerifyClaimCode(s, user, code, now).state)
    ensures !VerifyClaimCode(s, user, code, now).outcome.Aborted?
  {
    if MayClaim(s, user) {
      ClaimAllWorks(s, user, |s.guests|, now);
      var r := ClaimAll(s, user, |s.guests|, now).value.state;
      CodesAreFree(r, VerifyClaimCode(s, user, code, now).state.codes);
    }
    CodesAreFree(s, VerifyClaimCode(s, user, code, now).state.codes);
  }

  lemma CodesAreFree(s: State, codes: seq<Code>)
    requires Sound(s)
    ensures Sound(s.(codes := codes))
  {}

  lemma NewGuestKeepsSound(s: State, email: nat, due: nat, checkout: bool)
    requires Sound(s)
    ensures Sound(InitiateGuestPayment(s, email, due, checkout))
  {
    var r := InitiateGuestPayment(s, email, due, checkout);
    if r != s {
      forall u: nat | u < |s.users|
        ensures IsPlaceholder(r, u) <==> IsPlaceholder(s, u)
      {
        assert forall g :: 0 <= g < |s.guests| ==> r.guests[g] == s.guests[g];
      }
      forall g | 0 <= g < |r.guests| && r.guests[g].claimedBy.Some?
        ensures OwnsNothing(r, r.guests[g].placeholder)
      {
        assert OwnsNothing(s, s.guests[g].placeholder);
      }
    }
  }

  lemma CompletionKeepsSound(s: State, p: nat, paidAt: Option<int>)
    requires Sound(s)
    ensures Sound(CompleteGuestPayment(s, p, paidAt))
  {
    var r := CompleteGuestPayment(s, p, paidAt);
    assert forall u :: IsPlaceholder(r, u) <==> IsPlaceholder(s, u);
    forall g | 0 <= g < |r.guests| && r.guests[g].claimedBy.Some?
      ensures OwnsNothing(r, r.guests[g].placeholder)
    {
      assert OwnsNothing(s, s.guests[g].placeholder);
    }
  }

  lemma StepKeepsSound(s: State, event: Event)
    requires Sound(s)
    ensures Sound(Step(s, event))
  {
    var r := Step(s, event);
    match event
    case Verify(user, code, now) => VerifyKeepsSound(s, user, code, now);
    case GuestPays(email, due, checkout) => NewGuestKeepsSound(s, email, due, checkout);
    case Complete(p, paidAt) => CompletionKeepsSound(s, p, paidAt);
    case _ =>
      assert forall u :: IsPlaceholder(r, u) <==> IsPlaceholder(s, u);
      forall g | 0 <= g < |r.guests| && r.guests[g].claimedBy.Some?
        ensures OwnsNothing(r, r.guests[g].placeholder)
      {
        assert OwnsNothing(s, s.guests[g].placeholder);
      }
  }

  /** In every run claimed guests own nothing, even when a checkout they opened completes after the claim. */
  lemma {:induction false} RunStaysSound(s: State, events: seq<Event>)
    requires Sound(s)
    ensures Sound(Run(s, events))
  {
    if events != [] {
      RunStaysSound(s, events[..|events| - 1]);
      StepKeepsSound(Run(s, events[..|events| - 1]), events[|events| - 1]);
    }
  }

  lemma StepClaimsOnce(s: State, event: Event, g: nat)
    requires Sound(s) && g < |s.guests|
    ensures |Step(s, event).guests| >= |s.guests|
    ensures s.guests[g].claimedBy.Some? ==> Step(s, event).guests[g] == s.guests[g]
  {
    if event.Verify? && MayClaim(s, event.user) {
      ClaimAllWorks(s, event.user, |s.guests|, event.now);
    }
  }

  /** A guest once claimed is never claimed again, by anybody. */
  lemma {:induction false} ClaimedOnce(s: State, events: seq<Event>, g: nat)
    requires Sound(s) && g < |s.guests| && s.guests[g].claimedBy.Some?
    ensures g < |Run(s, events).guests| && Run(s, events).guests[g] == s.guests[g]
  {
    if events != [] {
      ClaimedOnce(s, events[..|events| - 1], g);
      RunStaysSound(s, events[..|events| - 1]);
      StepClaimsOnce(Run(s, events[..|events| - 1]), events[|events| - 1], g);
    }
  }

  /** What a successful claim means, all in one place. */
  lemma ClaimMeans(s: State, user: nat, code: nat, now: int)
    requires Sound(s) && VerifyClaimCode(s, user, code, now).outcome.Claimed?
    ensures MayClaim(s, user)
    ensures
      var r := VerifyClaimCode(s, user, code, now);
      && HandedOver(s, r.state.(codes := s.codes), user, |s.guests|)
      && r.outcome.payments == CountTaken(s, user, |s.guests|, |s.payments|)
      && DuePaymentsDiffer(r.state) && s.duePayments <= r.state.duePayments
      && (forall g :: 0 <= g < |s.guests| && Claimable(s.guests[g], s.users[user].email)
           ==> OwnsNothing(r.state, s.guests[g].placeholder))
      && (forall key :: Paid(r.state, key) <==> Paid(s, key) || SettledByGuests(s, user, |s.guests|, key))
  {
    var r := VerifyClaimCode(s, user, code, now);
    ClaimAllWorks(s, user, |s.guests|, now);
    VerifyKeepsSound(s, user, code, now);
    forall key
      ensures Paid(r.state, key) <==> Paid(s, key) || SettledByGuests(s, user, |s.guests|, key)
    {
      ClaimPaysExactly(s, user, |s.guests|, now, key);
    }
    forall g | 0 <= g < |s.guests| && Claimable(s.guests[g], s.users[user].email)
      ensures OwnsNothing(r.state, s.guests[g].placeholder)
    {
      assert r.state.guests[g].claimedBy.Some?;
    }
  }
}
