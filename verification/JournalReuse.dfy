/**
  Journal entries: the test that decides whether an existing one may stand for a withdrawal
  (same number of lines, and every expected line occurs), and what posting one does.
 */
module JournalReuse {
  import opened Tables
  import opened Books
  import opened Withdrawals

  /** What the comparison looks at in a line. */
  datatype Key = Key(account: Account, side: Side, amount: int)

  function KeyOf(line: Line): Key {
    Key(line.account, line.side, line.amount)
  }

  function Keys(lines: seq<Line>): seq<Key> {
    seq(|lines|, i requires 0 <= i < |lines| => KeyOf(lines[i]))
  }

  predicate Distinct(keys: seq<Key>) {
    forall i, j :: 0 <= i < j < |keys| ==> keys[i] != keys[j]
  }

  lemma {:induction false} CountInDistinct(keys: seq<Key>, k: Key)
    requires Distinct(keys)
    ensures multiset(keys)[k] <= 1
  {
    if keys != [] {
      var last := |keys| - 1;
      assert keys == keys[..last] + [keys[last]];
      CountInDistinct(keys[..last], k);
      if keys[last] == k {
        assert k !in keys[..last];
      }
    }
  }

  lemma SubMultisetOfSameSize(a: multiset<Key>, b: multiset<Key>)
    requires a <= b && |a| == |b|
    ensures a == b
  {
    assert b == a + (b - a);
    assert |b - a| == 0;
    assert b - a == multiset{};
  }

  lemma HasLineByKey(lines: seq<Line>, expected: Line)
    ensures HasLine(lines, expected) <==> KeyOf(expected) in Keys(lines)
  {
    if HasLine(lines, expected) {
      var actual :| actual in lines && SameLine(actual, expected);
      var i :| 0 <= i < |lines| && lines[i] == actual;
      assert Keys(lines)[i] == KeyOf(expected);
    }
    if KeyOf(expected) in Keys(lines) {
      var i :| 0 <= i < |lines| && Keys(lines)[i] == KeyOf(expected);
      assert lines[i] in lines && SameLine(lines[i], expected);
    }
  }

  /**
    When the expected lines are pairwise distinct, the length-and-membership test
    accepts exactly the posted, balanced-flagged entries with the same multiset of lines.
   */
  lemma MatchIsMultisetEquality(entry: Entry, lines: seq<Line>)
    requires Distinct(Keys(lines))
    ensures MatchesLines(entry, lines)
       <==> entry.status.Posted? && entry.balanced && multiset(Keys(entry.lines)) == multiset(Keys(lines))
  {
    var expected, actual := Keys(lines), Keys(entry.lines);
    if MatchesLines(entry, lines) {
      forall k | k in multiset(expected) ensures multiset(expected)[k] <= multiset(actual)[k] {
        assert k in expected;
        var i :| 0 <= i < |expected| && expected[i] == k;
        assert lines[i] in lines;
        HasLineByKey(entry.lines, lines[i]);
        CountInDistinct(expected, k);
      }
      SubMultisetOfSameSize(multiset(expected), multiset(actual));
    }
    if multiset(actual) == multiset(expected) {
      assert |actual| == |multiset(actual)| && |expected| == |multiset(expected)|;
      forall line | line in lines ensures HasLine(entry.lines, line) {
        var i :| 0 <= i < |lines| && lines[i] == line;
        assert expected[i] in multiset(expected);
        HasLineByKey(entry.lines, line);
      }
    }
  }

  /** A line that hides behind its repetition can be replaced unnoticed. */
  lemma RepetitionHides(lines: seq<Line>, i: nat, j: nat)
    requires i < j < |lines| && Keys(lines)[i] == Keys(lines)[j]
    ensures var entry := Entry(ForWithdrawal(0), lines[j := lines[j].(amount := lines[j].amount + 1)], Posted, true);
            MatchesLines(entry, lines) && multiset(Keys(entry.lines)) != multiset(Keys(lines))
  {
    var other := lines[j].(amount := lines[j].amount + 1);
    var entry := Entry(ForWithdrawal(0), lines[j := other], Posted, true);
    forall line | line in lines ensures HasLine(entry.lines, line) {
      var k :| 0 <= k < |lines| && lines[k] == line;
      var kept := if k == j then i else k;
      assert entry.lines[kept] == lines[kept] && SameLine(entry.lines[kept], line);
    }
    assert Keys(entry.lines) == Keys(lines)[j := KeyOf(other)];
    assert multiset(Keys(entry.lines)) == multiset(Keys(lines)) - multiset{KeyOf(lines[j])} + multiset{KeyOf(other)};
    assert multiset(Keys(entry.lines))[KeyOf(other)] == multiset(Keys(lines))[KeyOf(other)] + 1;
  }

  ghost predicate AcceptsSameLinesOnly(lines: seq<Line>) {
    forall entry :: MatchesLines(entry, lines)
                    <==> entry.status.Posted? && entry.balanced && multiset(Keys(entry.lines)) == multiset(Keys(lines))
  }

  /** The comparison stands for multiset equality exactly for pairwise distinct expected lines. */
  lemma DistinctExactly(lines: seq<Line>)
    ensures AcceptsSameLinesOnly(lines) <==> Distinct(Keys(lines))
  {
    if Distinct(Keys(lines)) {
      forall entry
        ensures MatchesLines(entry, lines)
           <==> entry.status.Posted? && entry.balanced && multiset(Keys(entry.lines)) == multiset(Keys(lines))
      {
        MatchIsMultisetEquality(entry, lines);
      }
    } else {
      var i, j :| 0 <= i < j < |lines| && Keys(lines)[i] == Keys(lines)[j];
      RepetitionHides(lines, i, j);
      var entry := Entry(ForWithdrawal(0), lines[j := lines[j].(amount := lines[j].amount + 1)], Posted, true);
      assert MatchesLines(entry, lines);
    }
  }

  /** Both callers expect two lines on different accounts, so what they reuse has exactly those lines. */
  lemma PayoutMatchesExactly(entry: Entry, owner: Owner, total: int)
    ensures MatchesLines(entry, PayoutLines(owner, total))
       <==> entry.status.Posted? && entry.balanced
            && multiset(Keys(entry.lines))
               == multiset{Key(BankClearing, Debit, total), Key(WalletAccount(owner), Credit, total)}
  {
    var lines := PayoutLines(owner, total);
    assert Keys(lines) == [Key(BankClearing, Debit, total), Key(WalletAccount(owner), Credit, total)];
    MatchIsMultisetEquality(entry, lines);
  }

  /** A reused payout entry carries the withdrawal's total once on each side. */
  lemma ReusedEntryBalances(entry: Entry, owner: Owner, total: int)
    requires MatchesLines(entry, PayoutLines(owner, total))
    ensures Sum(entry.lines, Debits) == total == Sum(entry.lines, Credits)
  {
    var lines := PayoutLines(owner, total);
    assert lines[0] in lines && lines[1] in lines;
    var a, b := entry.lines[0], entry.lines[1];
    assert entry.lines == [a, b];
    PairFigures(a, b);
  }

  /** The one entry of the withdrawal. */
  predicate IsEntryOf(s: State, w: nat, e: nat) {
    e < |s.entries| && forall k :: 0 <= k < |s.entries| ==> (s.entries[k].source == ForWithdrawal(w) <==> k == e)
  }

  /**
    Where the withdrawal has an entry already, a settlement posts nothing: with just these two
    lines the entry counts as its own and only the wallet is debited, with any others it is refused.
   */
  lemma ExistingEntryExactly(s: State, w: nat, e: nat, platformText: bool)
    requires w < |s.withdrawals| && s.withdrawals[w].status.Pending? && s.withdrawals[w].wallet in s.wallets
    requires IsEntryOf(s, w, e)
    ensures var r, row, entry := SettleWithdrawal(s, w, platformText), s.withdrawals[w], s.entries[e];
            if entry.status == Posted && entry.balanced
               && multiset(Keys(entry.lines)) == multiset{Key(BankClearing, Debit, row.amount + row.fee),
                                                          Key(WalletAccount(row.wallet), Credit, row.amount + row.fee)}
            then
              && r.outcome == Debited && |r.state.withdrawals| == |s.withdrawals|
              && r.state == s.(wallets := r.state.wallets, holds := r.state.holds, withdrawals := r.state.withdrawals)
              && r.state.withdrawals[w] == row.(status := PayoutStatus.Processing, entry := Some(e), submitting := true)
              && r.state.wallets.Keys == s.wallets.Keys
              && r.state.wallets[row.wallet].balance == s.wallets[row.wallet].balance - row.amount - row.fee
              && r.state.wallets[row.wallet].ledger == s.wallets[row.wallet].ledger
            else r == Result(s, Refused)
  {
    PayoutMatchesExactly(s.entries[e], s.withdrawals[w].wallet, s.withdrawals[w].Cost());
  }

  // ---------- Posting ----------

  /** What the lines of one side add up to. */
  function SideTotal(lines: seq<Line>, side: Side): int {
    if lines == [] then 0
    else
      var last := lines[|lines| - 1];
      SideTotal(lines[..|lines| - 1], side) + if last.side == side then last.amount else 0
  }

  /** The debits of an account less its credits. */
  function Moved(lines: seq<Line>, account: Account): int {
    if lines == [] then 0
    else
      var last := lines[|lines| - 1];
      var signed := if last.side == Debit then last.amount else -last.amount;
      Moved(lines[..|lines| - 1], account) + if last.account == account then signed else 0
  }

  lemma {:induction false} SidesAreSums(lines: seq<Line>)
    ensures SideTotal(lines, Debit) == Sum(lines, Debits) && SideTotal(lines, Credit) == Sum(lines, Credits)
  {
    if lines != [] {
      SidesAreSums(lines[..|lines| - 1]);
    }
  }

  lemma {:induction false} LinesMove(s: State, lines: seq<Line>)
    requires forall line :: line in lines ==> HasAccount(s, line.account)
    ensures var t := ApplyLines(s, lines);
            && t == s.(wallets := t.wallets, clearing := s.clearing + Moved(lines, BankClearing),
                       settlement := s.settlement + Moved(lines, BachsSettlement))
            && t.wallets.Keys == s.wallets.Keys
            && forall o :: o in s.wallets ==>
                 t.wallets[o] == s.wallets[o].(ledger := s.wallets[o].ledger + Moved(lines, WalletAccount(o)))
  {
    if lines != [] {
      var last := |lines| - 1;
      assert lines[last] in lines;
      LinesMove(s, lines[..last]);
      LineMoves(ApplyLines(s, lines[..last]), lines[last]);
    }
  }

  lemma LineMoves(s: State, line: Line)
    requires HasAccount(s, line.account)
    ensures var t := Adjust(s, line.account, Signed(line));
            var signed := if line.side == Debit then line.amount else -line.amount;
            && t == s.(wallets := t.wallets,
                       clearing := s.clearing + (if line.account == BankClearing then signed else 0),
                       settlement := s.settlement + (if line.account == BachsSettlement then signed else 0))
            && t.wallets.Keys == s.wallets.Keys
            && forall o :: o in s.wallets ==>
                 t.wallets[o] == s.wallets[o].(ledger := s.wallets[o].ledger
                                                         + if line.account == WalletAccount(o) then signed else 0)
  {}

  /** The lines name a wallet that is not there. */
  predicate NamesNoAccount(s: State, lines: seq<Line>) {
    exists i :: 0 <= i < |lines| && lines[i].account.WalletAccount? && lines[i].account.owner !in s.wallets
  }

  /**
    An entry is refused exactly when its sides differ or an account is missing; else it is posted
    as it is, each account moves by its own debits less its credits, and no balance changes.
   */
  lemma EntryPostedExactly(s: State, source: Source, lines: seq<Line>)
    ensures var r := CreateEntry(s, source, lines);
            if SideTotal(lines, Debit) != SideTotal(lines, Credit) || NamesNoAccount(s, lines) then r == None
            else
              && r.Some?
              && r.value == s.(wallets := r.value.wallets, clearing := s.clearing + Moved(lines, BankClearing),
                               settlement := s.settlement + Moved(lines, BachsSettlement),
                               entries := s.entries + [Entry(source, lines, Posted, true)])
              && r.value.wallets.Keys == s.wallets.Keys
              && forall o :: o in s.wallets ==>
                   r.value.wallets[o] == s.wallets[o].(ledger := s.wallets[o].ledger + Moved(lines, WalletAccount(o)))
  {
    SidesAreSums(lines);
    if NamesNoAccount(s, lines) {
      var i :| 0 <= i < |lines| && lines[i].account.WalletAccount? && lines[i].account.owner !in s.wallets;
      assert lines[i] in lines && !HasAccount(s, lines[i].account);
    } else if Balances(lines) {
      LinesMove(s, lines);
    }
  }
}
