/**
  The claim as the service carries it out: loops over guests and their payments inside a
  transaction that is rolled back as a whole.
 */
module GuestStore {
  import opened Tables
  import opened GuestClaims
  import Spec = GuestClaims

  class Store {
    var users: seq<User>
    var guests: seq<Guest>
    var payments: seq<Payment>
    var pendings: seq<PendingPayment>
    var receipts: seq<Receipt>
    var dues: seq<Due>
    var assignments: map<Key, Assignment>
    var duePayments: seq<DuePayment>
    var codes: seq<Code>

    function View(): State
      reads this
    {
      State(users, guests, payments, pendings, receipts, dues, assignments, duePayments, codes)
    }

    method Load(s: State)
      modifies this
      ensures View() == s
    {
      users, guests, payments, pendings, receipts := s.users, s.guests, s.payments, s.pendings, s.receipts;
      dues, assignments, duePayments, codes := s.dues, s.assignments, s.duePayments, s.codes;
    }

    method UpdateOwners(from: nat, to: nat)
      modifies this`payments, this`pendings, this`receipts
      ensures View() == Move(old(View()), from, to)
    {
      payments := MovePayments(payments, from, to);
      pendings := MovePendings(pendings, from, to);
      receipts := MoveReceipts(receipts, from, to);
    }

    method CreditDue(student: nat, k: nat, now: int) returns (ok: bool)
      requires k < |payments|
      modifies this`assignments, this`duePayments
      ensures ok <==> Credit(old(View()), student, k, now).Some?
      ensures ok ==> View() == Credit(old(View()), student, k, now).value
    {
      var p := payments[k];
      if !p.completed || p.due.None? {
        return true;
      }
      var d := p.due.value;
      if d >= |dues| || dues[d].deleted || dues[d].organization != p.organization {
        return true;
      }
      var key, paidAt := (d, student), PaidTime(p, now);
      if key in assignments {
        assignments := assignments[key := assignments[key].(paid := true, paidAt := Some(paidAt))];
      } else {
        assignments := assignments[key := Assignment(dues[d].amount, true, Some(paidAt))];
      }
      if !exists i :: 0 <= i < |duePayments| && duePayments[i].key == key {
        if exists i :: 0 <= i < |duePayments| && duePayments[i].payment == k {
          return false;
        }
        duePayments := duePayments + [DuePayment(key, k, p.amount, paidAt)];
      }
      return true;
    }

    method CreditDues(before: seq<Payment>, placeholder: nat, student: nat, now: int) returns (ok: bool)
      requires |before| == |payments|
      modifies this`assignments, this`duePayments
      ensures ok <==> CreditAll(old(View()), before, placeholder, student, |before|, now).Some?
      ensures ok ==> View() == CreditAll(old(View()), before, placeholder, student, |before|, now).value
    {
      for k := 0 to |before|
        invariant CreditAll(old(View()), before, placeholder, student, k, now) == Some(View())
      {
        if before[k].payer == placeholder {
          var credited := CreditDue(student, k, now);
          if !credited {
            NoneStays(old(View()), before, placeholder, student, k + 1, |before|, now);
            return false;
          }
        }
      }
      return true;
    }

    method ClaimOne(user: nat, g: nat, now: int, claimed: nat, counted: nat) returns (ok: bool, moved: nat)
      requires user < |users| && g < |guests|
      modifies this
      ensures (if ok then Some(Progress(View(), claimed + 1, counted + moved)) else None)
           == ClaimNext(Progress(old(View()), claimed, counted), user, g, now)
    {
      var placeholder, before := guests[g].placeholder, payments;
      moved := 0;
      for k := 0 to |payments|
        invariant View() == old(View())
        invariant moved == CountOf(old(payments), placeholder, k)
      {
        if payments[k].payer == placeholder {
          moved := moved + 1;
        }
      }
      UpdateOwners(placeholder, user);
      ok := true;
      if users[user].student.Some? {
        ok := CreditDues(before, placeholder, users[user].student.value, now);
      }
      if ok {
        guests := guests[g := guests[g].(claimedBy := Some(user))];
      }
    }

    method ClaimGuests(user: nat, now: int) returns (ok: bool, claimed: nat, moved: nat)
      requires user < |users|
      modifies this
      ensures ok <==> ClaimAll(old(View()), user, |old(guests)|, now).Some?
      ensures ok ==> Some(Progress(View(), claimed, moved)) == ClaimAll(old(View()), user, |old(guests)|, now)
    {
      ghost var before := View();
      var found := guests;
      claimed, moved := 0, 0;
      for g := 0 to |found|
        invariant |guests| == |found| && users == before.users
        invariant ClaimAll(before, user, g, now) == Some(Progress(View(), claimed, moved))
      {
        ghost var so := Progress(View(), claimed, moved);
        OneTurn(before, user, g, now, so);
        if Claimable(found[g], users[user].email) {
          var one, count := ClaimOne(user, g, now, claimed, moved);
          if !one {
            return false, 0, 0;
          }
          claimed, moved := claimed + 1, moved + count;
        }
      }
      return true, claimed, moved;
    }

    method VerifyClaimCode(user: nat, code: nat, now: int) returns (outcome: Outcome)
      modifies this
      ensures Result(View(), outcome) == Spec.VerifyClaimCode(old(View()), user, code, now)
    {
      if user >= |users| || !users[user].verified {
        return Refused;
      }
      var found := NewestCode(View(), |codes|, users[user].email, now);
      if found.None? {
        return Refused;
      }
      var c := found.value;
      if codes[c].code != code || codes[c].user != user {
        codes := codes[c := codes[c].(attempts := codes[c].attempts + 1)];
        return Refused;
      }
      var before := View();
      var ok, claimed, moved := ClaimGuests(user, now);
      if !ok {
        Load(before);
        return Aborted;
      }
      CodesStay(before, user, |before.guests|, now);
      codes := codes[c := codes[c].(used := true)];
      return Claimed(claimed, moved);
    }
  }

  lemma {:induction false} NoneStays(s: State, before: seq<Payment>, placeholder: nat,
                                     student: nat, k: nat, n: nat, now: int)
    requires k <= n <= |before| == |s.payments| && CreditAll(s, before, placeholder, student, k, now).None?
    ensures CreditAll(s, before, placeholder, student, n, now).None?
  {
    if k < n {
      NoneStays(s, before, placeholder, student, k, n - 1, now);
    }
  }

  /** One turn of the loop, and what its failure means for the whole loop. */
  lemma OneTurn(s: State, user: nat, g: nat, now: int, so: Progress)
    requires user < |s.users| && g < |s.guests| && ClaimAll(s, user, g, now) == Some(so)
    ensures ClaimAll(s, user, g + 1, now) ==
         if Claimable(s.guests[g], s.users[user].email) then ClaimNext(so, user, g, now) else Some(so)
    ensures ClaimAll(s, user, g + 1, now).None? ==> ClaimAll(s, user, |s.guests|, now).None?
  {
    if ClaimAll(s, user, g + 1, now).None? {
      NoClaimStays(s, user, g + 1, |s.guests|, now);
    }
  }

  lemma {:induction false} NoClaimStays(s: State, user: nat, g: nat, n: nat, now: int)
    requires user < |s.users| && g <= n <= |s.guests| && ClaimAll(s, user, g, now).None?
    ensures ClaimAll(s, user, n, now).None?
  {
    if g < n {
      NoClaimStays(s, user, g, n - 1, now);
    }
  }

  lemma {:induction false} CodesStay(s: State, user: nat, n: nat, now: int)
    requires user < |s.users| && n <= |s.guests| && ClaimAll(s, user, n, now).Some?
    ensures ClaimAll(s, user, n, now).value.state.codes == s.codes
  {
    if n > 0 {
      CodesStay(s, user, n - 1, now);
    }
  }
}
