/**
  Claim codes: which submission claims, what a wrong one changes, and how long a code is
  good for over any run.
 */
module GuestCodes {
  import opened Tables
  import opened GuestClaims

  /** Unused, unexpired, below five attempts, and sent for a guest of this address that nobody claimed. */
  predicate Usable(s: State, c: nat, email: nat, now: int) {
    && c < |s.codes| && !s.codes[c].used && now < s.codes[c].expiresAt && s.codes[c].attempts < 5
    && s.codes[c].guest < |s.guests|
    && s.guests[s.codes[c].guest].email == email && s.guests[s.codes[c].guest].claimedBy == None
  }

  /** The usable code sent last; of those sent at once, the one with the greatest identifier. */
  predicate NewestUsable(s: State, c: nat, email: nat, now: int) {
    && Usable(s, c, email, now)
    && forall d :: 0 <= d < |s.codes| && Usable(s, d, email, now) ==>
         s.codes[d].createdAt < s.codes[c].createdAt || (s.codes[d].createdAt == s.codes[c].createdAt && d <= c)
  }

  lemma {:induction false} NewestAmongFirst(s: State, n: nat, email: nat, now: int)
    requires n <= |s.codes|
    ensures var found := NewestCode(s, n, email, now);
            if found.None? then forall d :: 0 <= d < n ==> !Usable(s, d, email, now)
            else
              && found.value < n && Usable(s, found.value, email, now)
              && forall d :: 0 <= d < n && Usable(s, d, email, now) ==>
                   || s.codes[d].createdAt < s.codes[found.value].createdAt
                   || (s.codes[d].createdAt == s.codes[found.value].createdAt && d <= found.value)
  {
    if n > 0 {
      NewestAmongFirst(s, n - 1, email, now);
    }
  }

  /** The submission names the code and the user that the newest usable code of the address was sent with. */
  predicate Names(s: State, user: nat, code: nat, now: int, c: nat) {
    && user < |s.users| && s.users[user].verified && NewestUsable(s, c, s.users[user].email, now)
    && s.codes[c].code == code && s.codes[c].user == user
  }

  /** A verified user submits something else than that. */
  predicate Misses(s: State, user: nat, code: nat, now: int, c: nat) {
    && user < |s.users| && s.users[user].verified && NewestUsable(s, c, s.users[user].email, now)
    && !(s.codes[c].code == code && s.codes[c].user == user)
  }

  lemma NewestIsOne(s: State, email: nat, now: int, c: nat)
    requires NewestUsable(s, c, email, now)
    ensures NewestCode(s, |s.codes|, email, now) == Some(c)
  {
    NewestAmongFirst(s, |s.codes|, email, now);
  }

  /** A submission claims exactly when it names the newest usable code of a verified user's address. */
  lemma ClaimedExactly(s: State, user: nat, code: nat, now: int)
    requires Sound(s)
    ensures VerifyClaimCode(s, user, code, now).outcome.Claimed? <==> exists c :: Names(s, user, code, now, c)
  {
    VerifyKeepsSound(s, user, code, now);
    if user < |s.users| && s.users[user].verified {
      var email := s.users[user].email;
      NewestAmongFirst(s, |s.codes|, email, now);
      forall c: nat | Names(s, user, code, now, c) ensures NewestCode(s, |s.codes|, email, now) == Some(c) {
        NewestIsOne(s, email, now, c);
      }
      var found := NewestCode(s, |s.codes|, email, now);
      if found.Some? {
        assert NewestUsable(s, found.value, email, now);
        assert Names(s, user, code, now, found.value) || Misses(s, user, code, now, found.value);
      }
    }
  }

  /** A claim uses up its code and touches no other; a miss counts one attempt; anything else changes nothing. */
  lemma CodesAfterExactly(s: State, user: nat, code: nat, now: int, c: nat)
    requires Sound(s) && c < |s.codes|
    ensures var r := VerifyClaimCode(s, user, code, now);
            && |r.state.codes| == |s.codes|
            && r.state.codes[c]
               == (if Names(s, user, code, now, c) then s.codes[c].(used := true)
                   else if Misses(s, user, code, now, c) then s.codes[c].(attempts := s.codes[c].attempts + 1)
                   else s.codes[c])
            && (!r.outcome.Claimed? ==> r.outcome.Refused? && r.state == s.(codes := r.state.codes))
  {
    VerifyKeepsSound(s, user, code, now);
    if user < |s.users| && s.users[user].verified {
      var email := s.users[user].email;
      NewestAmongFirst(s, |s.codes|, email, now);
      var found := NewestCode(s, |s.codes|, email, now);
      if NewestUsable(s, c, email, now) { NewestIsOne(s, email, now, c); }
      if found.Some? { assert NewestUsable(s, found.value, email, now); }
      ClaimAllWorks(s, user, |s.guests|, now);
      ClaimKeepsCodes(s, user, |s.guests|, now);
    }
  }

  lemma {:induction false} ClaimKeepsCodes(s: State, user: nat, n: nat, now: int)
    requires user < |s.users| && n <= |s.guests|
    ensures ClaimAll(s, user, n, now).Some? ==> ClaimAll(s, user, n, now).value.state.codes == s.codes
  {
    if n > 0 {
      ClaimKeepsCodes(s, user, n - 1, now);
    }
  }

  // ---------- What a claim credits ----------

  /** A completed payment for a due that is there, not deleted, and of the organisation that was paid. */
  predicate PaysDue(s: State, k: nat, d: nat) {
    && k < |s.payments| && s.payments[k].completed && s.payments[k].due == Some(d)
    && d < |s.dues| && !s.dues[d].deleted && s.dues[d].organization == s.payments[k].organization
  }

  /** Such a payment marks the assignment paid, at its own time if it has one, and is recorded if none was. */
  lemma CreditedExactly(s: State, student: nat, k: nat, now: int, d: nat)
    requires PaysDue(s, k, d)
    requires forall i :: 0 <= i < |s.duePayments| ==> s.duePayments[i].payment != k
    ensures var key := (d, student);
            var paidAt := if s.payments[k].paidAt == None then now else s.payments[k].paidAt.value;
            var amount := if key in s.assignments then s.assignments[key].amount else s.dues[d].amount;
            Credit(s, student, k, now)
            == Some(s.(assignments := s.assignments[key := Assignment(amount, true, Some(paidAt))],
                       duePayments := if exists i :: 0 <= i < |s.duePayments| && s.duePayments[i].key == key
                                      then s.duePayments
                                      else s.duePayments + [DuePayment(key, k, s.payments[k].amount, paidAt)]))
  {}

  /** Any other payment credits nothing. */
  lemma NotCredited(s: State, student: nat, k: nat, now: int)
    requires k < |s.payments| && forall d :: 0 <= d < |s.dues| ==> !PaysDue(s, k, d)
    ensures Credit(s, student, k, now) == Some(s)
  {
    if s.payments[k].due.Some? {
      assert s.payments[k].due.value < |s.dues| ==> !PaysDue(s, k, s.payments[k].due.value);
    }
  }

  /** A payment recorded for another assignment already makes the whole claim fail. */
  lemma RecordedElsewhereAborts(s: State, student: nat, k: nat, now: int, d: nat)
    requires PaysDue(s, k, d)
    requires forall i :: 0 <= i < |s.duePayments| ==> s.duePayments[i].key != (d, student)
    ensures Credit(s, student, k, now) == None
       <==> exists i :: 0 <= i < |s.duePayments| && s.duePayments[i].payment == k
  {}

  lemma SettlesExactly(s: State, k: nat)
    requires k < |s.payments|
    ensures Settles(s.dues, s.payments[k]) <==> exists d :: PaysDue(s, k, d)
  {
    if Settles(s.dues, s.payments[k]) { assert PaysDue(s, k, s.payments[k].due.value); }
  }

  /** What was recorded for the key stays so, and so is one of the first `n` payments if one settles it. */
  ghost predicate Recording(s: State, before: seq<Payment>, placeholder: nat, student: nat,
                            n: nat, now: int, key: Key) {
    && n <= |before| == |s.payments|
    && (HasDuePayment(s, key) || SettledBy(before, s.dues, placeholder, n, student, key) ==>
          var r := CreditAll(s, before, placeholder, student, n, now);
          r.Some? && HasDuePayment(r.value, key))
  }

  lemma {:induction false} CreditAllRecords(s: State, before: seq<Payment>, placeholder: nat, student: nat,
                                            n: nat, now: int, key: Key)
    requires n <= |before| == |s.payments|
    requires forall k :: 0 <= k < |before| ==> s.payments[k] == before[k].(payer := s.payments[k].payer)
    requires DuePaymentsDiffer(s) && NotYetUsed(s, before, placeholder, 0)
    ensures Recording(s, before, placeholder, student, n, now, key)
  {
    if n > 0 {
      CreditAllRecords(s, before, placeholder, student, n - 1, now, key);
      OneMoreRecording(s, before, placeholder, student, n, now, key);
    }
  }

  lemma OneMoreRecording(s: State, before: seq<Payment>, placeholder: nat, student: nat, n: nat, now: int, key: Key)
    requires 0 < n <= |before| == |s.payments|
    requires forall k :: 0 <= k < |before| ==> s.payments[k] == before[k].(payer := s.payments[k].payer)
    requires DuePaymentsDiffer(s) && NotYetUsed(s, before, placeholder, 0)
    requires Recording(s, before, placeholder, student, n - 1, now, key)
    ensures Recording(s, before, placeholder, student, n, now, key)
  {
    CreditAllWorks(s, before, placeholder, student, n - 1, now);
    var earlier := CreditAll(s, before, placeholder, student, n - 1, now).value;
    if before[n - 1].payer == placeholder {
      CreditAllWorks(s, before, placeholder, student, n, now);
      if HasDuePayment(s, key) || SettledBy(before, s.dues, placeholder, n, student, key) {
        CreditRecords(earlier, student, n - 1, now, key);
      }
    }
  }

  lemma CreditRecords(s: State, student: nat, k: nat, now: int, key: Key)
    requires k < |s.payments|
    requires || HasDuePayment(s, key)
             || (Settles(s.dues, s.payments[k]) && key == (s.payments[k].due.value, student))
    ensures Credit(s, student, k, now).Some? ==> HasDuePayment(Credit(s, student, k, now).value, key)
  {
    CreditExtends(s, student, k, now);
    if HasDuePayment(s, key) && Credit(s, student, k, now).Some? {
      StaysRecorded(s, Credit(s, student, k, now).value, key);
    } else if !HasDuePayment(s, key) {
      LastRecords(s, student, k, now, key);
    }
  }

  lemma CreditExtends(s: State, student: nat, k: nat, now: int)
    requires k < |s.payments|
    ensures Credit(s, student, k, now).Some? ==> s.duePayments <= Credit(s, student, k, now).value.duePayments
  {}

  lemma StaysRecorded(s: State, t: State, key: Key)
    requires HasDuePayment(s, key) && s.duePayments <= t.duePayments
    ensures HasDuePayment(t, key)
  {
    var i :| 0 <= i < |s.duePayments| && s.duePayments[i].key == key;
    assert t.duePayments[i] == s.duePayments[i];
  }

  lemma LastRecords(s: State, student: nat, k: nat, now: int, key: Key)
    requires k < |s.payments| && Settles(s.dues, s.payments[k]) && key == (s.payments[k].due.value, student)
    ensures Credit(s, student, k, now).Some? ==> HasDuePayment(Credit(s, student, k, now).value, key)
  {
    var r := Credit(s, student, k, now);
    if r.Some? && !HasDuePayment(s, key) {
      assert r.value.duePayments[|s.duePayments|].key == key;
    }
  }

  lemma GuestRecords(s: State, user: nat, g: nat, now: int, key: Key)
    requires Sound(s) && MayClaim(s, user) && g < |s.guests| && s.guests[g].claimedBy.None?
    requires HasDuePayment(s, key)
             || (s.users[user].student.Some?
                 && SettledBy(s.payments, s.dues, s.guests[g].placeholder, |s.payments|,
                              s.users[user].student.value, key))
    ensures var r := ClaimGuest(s, user, g, now);
            r.Some? && HasDuePayment(r.value, key)
  {
    GuestIsCredited(s, user, g, now);
    var r := ClaimGuest(s, user, g, now).value;
    if HasDuePayment(s, key) {
      StaysRecorded(s, r, key);
    } else {
      var s1 := Move(s, s.guests[g].placeholder, user);
      NoneUsedYet(s, s1, g);
      CreditAllRecords(s1, s.payments, s.guests[g].placeholder, s.users[user].student.value, |s.payments|, now, key);
    }
  }

  lemma NoneUsedYet(s: State, t: State, g: nat)
    requires Sound(s) && g < |s.guests| && t.duePayments == s.duePayments
    ensures NotYetUsed(t, s.payments, s.guests[g].placeholder, 0)
  {
    assert IsPlaceholder(s, s.guests[g].placeholder);
  }

  predicate Records(s: State, user: nat, n: nat, now: int, key: Key)
    requires user < |s.users| && n <= |s.guests|
  {
    HasDuePayment(s, key) || SettledByGuests(s, user, n, key) ==>
      ClaimAll(s, user, n, now).Some? && HasDuePayment(ClaimAll(s, user, n, now).value.state, key)
  }

  lemma NextRecords(s: State, user: nat, n: nat, now: int, key: Key)
    requires Sound(s) && MayClaim(s, user) && 0 < n <= |s.guests| && Claimable(s.guests[n - 1], s.users[user].email)
    requires ClaimWorked(s, ClaimAll(s, user, n - 1, now), user, n - 1) && Records(s, user, n - 1, now, key)
    ensures Records(s, user, n, now, key)
  {
    if HasDuePayment(s, key) || SettledByGuests(s, user, n, key) {
      var at := ClaimAll(s, user, n - 1, now).value.state;
      SettledOneMore(s, at, user, n, key);
      GuestRecords(at, user, n - 1, now, key);
      NextState(s, user, n, now);
    }
  }

  lemma NextState(s: State, user: nat, n: nat, now: int)
    requires user < |s.users| && 0 < n <= |s.guests| && Claimable(s.guests[n - 1], s.users[user].email)
    requires ClaimAll(s, user, n - 1, now).Some?
    ensures var claimed := ClaimGuest(ClaimAll(s, user, n - 1, now).value.state, user, n - 1, now);
            claimed.Some? ==> ClaimAll(s, user, n, now).Some? && ClaimAll(s, user, n, now).value.state == claimed.value
  {}

  lemma SkippedRecords(s: State, user: nat, n: nat, now: int, key: Key)
    requires Sound(s) && MayClaim(s, user) && 0 < n <= |s.guests| && !Claimable(s.guests[n - 1], s.users[user].email)
    requires ClaimWorked(s, ClaimAll(s, user, n - 1, now), user, n - 1) && Records(s, user, n - 1, now, key)
    ensures Records(s, user, n, now, key)
  {
    SettledSame(s, user, n, key);
    assert ClaimAll(s, user, n, now) == ClaimAll(s, user, n - 1, now);
  }

  /** A claim leaves a due payment behind for every assignment its payments settle. */
  lemma {:induction false} ClaimRecords(s: State, user: nat, n: nat, now: int, key: Key)
    requires Sound(s) && MayClaim(s, user) && n <= |s.guests|
    ensures Records(s, user, n, now, key)
  {
    if n == 0 {
      NoneRecords(s, user, now, key);
    } else {
      ClaimRecords(s, user, n - 1, now, key);
      OneMoreRecords(s, user, n, now, key);
    }
  }

  lemma NoneRecords(s: State, user: nat, now: int, key: Key)
    requires MayClaim(s, user)
    ensures Records(s, user, 0, now, key)
  {
    assert forall u :: !Taken(s, user, 0, u);
    assert !SettledByGuests(s, user, 0, key);
  }

  lemma OneMoreRecords(s: State, user: nat, n: nat, now: int, key: Key)
    requires Sound(s) && MayClaim(s, user) && 0 < n <= |s.guests| && Records(s, user, n - 1, now, key)
    ensures Records(s, user, n, now, key)
  {
    ClaimAllWorks(s, user, n - 1, now);
    if Claimable(s.guests[n - 1], s.users[user].email) {
      NextRecords(s, user, n, now, key);
    } else {
      SkippedRecords(s, user, n, now, key);
    }
  }

  function Unclaimed(guests: seq<Guest>, email: nat): nat {
    if guests == [] then 0
    else
      var last := guests[|guests| - 1];
      Unclaimed(guests[..|guests| - 1], email) + if last.email == email && last.claimedBy == None then 1 else 0
  }

  /** The guests reported are all the unclaimed ones of the address. */
  lemma {:induction false} GuestsCounted(s: State, user: nat, n: nat, now: int)
    requires user < |s.users| && n <= |s.guests| && ClaimAll(s, user, n, now).Some?
    ensures ClaimAll(s, user, n, now).value.guests == Unclaimed(s.guests[..n], s.users[user].email)
  {
    if n > 0 {
      GuestsCounted(s, user, n - 1, now);
      assert s.guests[..n][..n - 1] == s.guests[..n - 1];
    }
  }

  /** The state a successful claim leaves, apart from the code it used up. */
  lemma ClaimedState(s: State, user: nat, code: nat, now: int)
    requires Sound(s) && VerifyClaimCode(s, user, code, now).outcome.Claimed?
    ensures MayClaim(s, user) && ClaimAll(s, user, |s.guests|, now).Some?
    ensures var r, all := VerifyClaimCode(s, user, code, now), ClaimAll(s, user, |s.guests|, now).value;
            && r.state == all.state.(codes := r.state.codes) && r.outcome == Claimed(all.guests, all.payments)
  {}

  /** What a successful claim records. */
  lemma ClaimLeavesDuePayments(s: State, user: nat, code: nat, now: int, key: Key)
    requires Sound(s) && VerifyClaimCode(s, user, code, now).outcome.Claimed? && user < |s.users|
    requires SettledByGuests(s, user, |s.guests|, key)
    ensures HasDuePayment(VerifyClaimCode(s, user, code, now).state, key)
  {
    ClaimedState(s, user, code, now);
    ClaimRecords(s, user, |s.guests|, now, key);
    var all := ClaimAll(s, user, |s.guests|, now).value.state;
    StaysRecorded(all, VerifyClaimCode(s, user, code, now).state, key);
  }

  /** And what it reports: all the unclaimed guests of the address, of which there was at least one. */
  lemma ClaimReports(s: State, user: nat, code: nat, now: int)
    requires Sound(s) && VerifyClaimCode(s, user, code, now).outcome.Claimed?
    ensures user < |s.users|
    ensures VerifyClaimCode(s, user, code, now).outcome.guests == Unclaimed(s.guests, s.users[user].email) > 0
  {
    ClaimedState(s, user, code, now);
    GuestsCounted(s, user, |s.guests|, now);
    assert s.guests[..|s.guests|] == s.guests;
    ClaimedExactly(s, user, code, now);
    var c: nat :| Names(s, user, code, now, c);
    SomeUnclaimed(s.guests, s.users[user].email, s.codes[c].guest);
  }

  lemma {:induction false} SomeUnclaimed(guests: seq<Guest>, email: nat, g: nat)
    requires g < |guests| && guests[g].email == email && guests[g].claimedBy == None
    ensures Unclaimed(guests, email) > 0
  {
    if g < |guests| - 1 {
      SomeUnclaimed(guests[..|guests| - 1], email, g);
    }
  }

  // ---------- Guests ----------

  /** A guest's payment for a due that is there opens a placeholder account that is never verified. */
  lemma GuestOpensExactly(s: State, email: nat, due: nat, checkout: bool)
    ensures Step(s, GuestPays(email, due, checkout))
         == if due < |s.dues| && !s.dues[due].deleted
            then s.(users := s.users + [User(email, false, None)],
                    guests := s.guests + [Guest(email, |s.users|, None)],
                    pendings := s.pendings + (if checkout
                      then [PendingPayment(|s.users|, s.dues[due].organization, s.dues[due].amount, due)] else []))
            else s
  {}

  /** A completed checkout records a completed payment of whoever its row belongs to by then. */
  lemma GuestPaysExactly(s: State, p: nat, paidAt: Option<int>)
    ensures Step(s, Complete(p, paidAt))
         == if p < |s.pendings|
            then s.(payments := s.payments + [Payment(s.pendings[p].user, s.pendings[p].organization,
                                                      s.pendings[p].amount, true, Some(s.pendings[p].due), paidAt)])
            else s
  {}

  lemma ReceiptExactly(s: State, k: nat)
    ensures Step(s, IssueReceipt(k))
         == if k < |s.payments| then s.(receipts := s.receipts + [Receipt(s.payments[k].payer, k)]) else s
  {}

  // ---------- Sending ----------

  /** The first unclaimed guest of the address. */
  predicate FirstUnclaimed(s: State, g: nat, email: nat) {
    && g < |s.guests| && s.guests[g].email == email && s.guests[g].claimedBy == None
    && forall h :: 0 <= h < g ==> !(s.guests[h].email == email && s.guests[h].claimedBy == None)
  }

  lemma {:induction false} FirstAmong(s: State, n: nat, email: nat)
    requires n <= |s.guests|
    ensures var found := FirstClaimable(s, n, email);
            if found.None?
            then forall h :: 0 <= h < n ==> !(s.guests[h].email == email && s.guests[h].claimedBy == None)
            else found.value < n && FirstUnclaimed(s, found.value, email)
  {
    if n > 0 {
      FirstAmong(s, n - 1, email);
    }
  }

  /** A code is sent to a verified user with an unclaimed guest, unless an unused one was sent within a minute. */
  lemma SentExactly(s: State, user: nat, code: nat, now: int, g: nat)
    requires user < |s.users| && FirstUnclaimed(s, g, s.users[user].email)
    ensures RequestClaimCode(s, user, code, now)
         == if s.users[user].verified
               && forall c :: 0 <= c < |s.codes| && s.codes[c].guest == g && !s.codes[c].used ==>
                    s.codes[c].createdAt < now - 60_000
            then s.(codes := s.codes + [Code(g, code, user, now + 600_000, 0, false, now)]) else s
  {
    FirstAmong(s, |s.guests|, s.users[user].email);
  }

  lemma NotSent(s: State, user: nat, code: nat, now: int)
    requires user < |s.users| ==> forall g :: 0 <= g < |s.guests| ==> !FirstUnclaimed(s, g, s.users[user].email)
    ensures RequestClaimCode(s, user, code, now) == s
  {
    if user < |s.users| { FirstAmong(s, |s.guests|, s.users[user].email); }
  }

  // ---------- Over runs ----------

  predicate Uses(s: State, event: Event, c: nat) {
    event.Verify? && Names(s, event.user, event.code, event.now, c)
  }

  predicate Wastes(s: State, event: Event, c: nat) {
    event.Verify? && Misses(s, event.user, event.code, event.now, c)
  }

  function UseCount(s: State, events: seq<Event>, c: nat): nat {
    if events == [] then 0
    else
      var before := events[..|events| - 1];
      UseCount(s, before, c) + if Uses(Run(s, before), events[|events| - 1], c) then 1 else 0
  }

  function WasteCount(s: State, events: seq<Event>, c: nat): nat {
    if events == [] then 0
    else
      var before := events[..|events| - 1];
      WasteCount(s, before, c) + if Wastes(Run(s, before), events[|events| - 1], c) then 1 else 0
  }

  lemma StepCodes(s: State, event: Event, c: nat)
    requires Sound(s) && c < |s.codes|
    ensures c < |Step(s, event).codes|
    ensures var before, after := s.codes[c], Step(s, event).codes[c];
            && after == before.(used := after.used, attempts := after.attempts)
            && (after.used <==> before.used || Uses(s, event, c))
            && after.attempts == before.attempts + (if Wastes(s, event, c) then 1 else 0)
            && (Uses(s, event, c) || Wastes(s, event, c) ==> !before.used && before.attempts < 5)
  {
    if event.Verify? {
      CodesAfterExactly(s, event.user, event.code, event.now, c);
    }
  }

  /**
    Over any run a code is used at most once and missed at most five times, and once it was
    used or missed five times no submission reaches it any more.
   */
  lemma {:induction false} CodeIsGoodOnce(s: State, events: seq<Event>, c: nat)
    requires Sound(s) && c < |s.codes| && s.codes[c].attempts <= 5
    ensures var t := Run(s, events);
            && c < |t.codes| && t.codes[c].attempts <= 5
            && t.codes[c].attempts == s.codes[c].attempts + WasteCount(s, events, c)
            && UseCount(s, events, c) == (if t.codes[c].used then 1 else 0) - (if s.codes[c].used then 1 else 0)
            && (s.codes[c].used || s.codes[c].attempts == 5 ==>
                  UseCount(s, events, c) == 0 && WasteCount(s, events, c) == 0)
  {
    if events != [] {
      var before := events[..|events| - 1];
      CodeIsGoodOnce(s, before, c);
      RunStaysSound(s, before);
      StepCodes(Run(s, before), events[|events| - 1], c);
    }
  }
}
