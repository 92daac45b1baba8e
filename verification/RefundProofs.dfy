/**
  Rejections, refunds and provider webhooks: what they keep, and exactly when a
  webhook that arrives in an unexpected order does not.
 */
module RefundProofs {
  import opened Tables
  import opened Books
  import opened Withdrawals
  import opened Invariants
  import opened PayoutProofs

  // ---------- Soundness of the pieces ----------

  /** A row may leave PENDING and change nothing the ledger depends on. */
  lemma StatusSound(s: State, w: nat, status: PayoutStatus, submitting: bool, held: int)
    requires Sound(s) && w < |s.withdrawals| && s.withdrawals[w].wallet in s.wallets && !status.Pending?
    requires submitting ==> s.withdrawals[w].submitting
    ensures var o := s.withdrawals[w].wallet;
            var t := s.(withdrawals :=
                s.withdrawals[w := s.withdrawals[w].(status := status, submitting := submitting)],
                        wallets := s.wallets[o := s.wallets[o].(held := held)]);
            Sound(t) && Worth(t) == Worth(s)
  {
    assert GoodRow(s, w);
    var o := s.withdrawals[w].wallet;
    var t := s.(withdrawals := s.withdrawals[w := s.withdrawals[w].(status := status, submitting := submitting)],
                wallets := s.wallets[o := s.wallets[o].(held := held)]);
    WalletWritten(s, o, s.wallets[o].(held := held));
    forall e | 0 <= e < |s.entries| ensures GoodEntry(t, t.entries[e]) {
      assert GoodEntry(s, s.entries[e]);
    }
    SoundByRow(s, t, w);
  }

  lemma MoveSound(s: State, o: Owner, delta: int, clearing: int)
    requires Sound(s) && o in s.wallets
    ensures Sound(Move(s, o, delta).(clearing := clearing))
  {
    RowsCarryOver(s, Move(s, o, delta).(clearing := clearing));
  }

  lemma ReversalSound(s: State, e: Option<nat>)
    requires Sound(s)
    ensures Sound(s.(entries := ReverseEntry(s.entries, e)))
  {
    var t := s.(entries := ReverseEntry(s.entries, e));
    forall w | 0 <= w < |t.withdrawals| ensures GoodRow(t, w) {
      assert GoodRow(s, w);
    }
    forall k | 0 <= k < |t.entries| ensures GoodEntry(t, t.entries[k]) {
      assert GoodEntry(s, s.entries[k]);
    }
  }

  lemma ReverseShareSound(s: State, w: nat, row: Withdrawal)
    requires Sound(s) && (row.feeSplit && row.share > 0 ==> Platform in s.wallets)
    ensures Sound(ReverseShare(s, w, row)) && Worth(ReverseShare(s, w, row)) == Worth(s)
  {
    if row.feeSplit && row.share > 0 {
      var e := if row.shareEntry.Some? then row.shareEntry else FindPostedShare(s.entries, w);
      ReversalSound(s, e);
      var s1 := s.(entries := ReverseEntry(s.entries, e));
      MoveSound(s1, Platform, -row.share, s.clearing + row.share);
      Moved(s1, Platform, -row.share);
      ReverseShareForm(s, w, row, e);
    }
  }

  lemma ReverseShareForm(s: State, w: nat, row: Withdrawal, e: Option<nat>)
    requires row.feeSplit && row.share > 0 && Platform in s.wallets
    requires e == if row.shareEntry.Some? then row.shareEntry else FindPostedShare(s.entries, w)
    ensures ReverseShare(s, w, row)
         == Move(s.(entries := ReverseEntry(s.entries, e)), Platform, -row.share).(clearing := s.clearing + row.share)
  {
  }

  lemma RefundSound(s: State, w: nat, row: Withdrawal)
    requires Sound(s) && row.wallet in s.wallets && (row.feeSplit && row.share > 0 ==> Platform in s.wallets)
    ensures Sound(Refund(s, w, row)) && Worth(Refund(s, w, row)) == Worth(s)
  {
    MoveSound(s, row.wallet, row.Cost(), s.clearing - row.Cost());
    Moved(s, row.wallet, row.Cost());
    var s1 := Adjust(Move(s, row.wallet, row.Cost()), BankClearing, -row.Cost());
    assert Worth(s1) == Worth(s);
    ReversalSound(s1, row.entry);
    var s2 := s1.(entries := ReverseEntry(s1.entries, row.entry));
    assert Worth(s2) == Worth(s1);
    ReverseShareSound(s2, w, row);
  }

  // ---------- A refund of a paid row undoes everything it posted ----------

  ghost predicate PaidRow(s: State, w: nat) {
    && Settled(s) && w < |s.withdrawals| && s.withdrawals[w].Paid() && s.withdrawals[w].wallet in s.wallets
    && s.withdrawals[w].entry.Some? && s.withdrawals[w].entry.value < |s.entries|
  }

  predicate Shares(row: Withdrawal) {
    row.feeSplit && row.share > 0
  }

  /** The cost goes back from account 1100 to the wallet and the payout entry is reversed. */
  function RefundedState(s: State, w: nat, held: int, submitting: bool): State
    requires w < |s.withdrawals| && s.withdrawals[w].wallet in s.wallets
    requires s.withdrawals[w].entry.Some? && s.withdrawals[w].entry.value < |s.entries|
  {
    var row := s.withdrawals[w];
    var wallet := s.wallets[row.wallet];
    var e := row.entry.value;
    s.(clearing := s.clearing - row.Cost(),
       wallets := s.wallets[row.wallet := wallet.(
         balance := wallet.balance + row.Cost(), ledger := wallet.ledger + row.Cost(), held := held)],
       withdrawals := s.withdrawals[w := row.(status := PayoutStatus.Failed, submitting := submitting)],
       entries := s.entries[e := s.entries[e].(status := Reversed)])
  }

  lemma RefundedRows(s: State, w: nat, held: int, submitting: bool)
    requires PaidRow(s, w) && (submitting ==> s.withdrawals[w].submitting)
    ensures AllRowsSettled(RefundedState(s, w, held, submitting))
  {
    var t := RefundedState(s, w, held, submitting);
    assert SettledRow(s, w);
    forall v | 0 <= v < |t.withdrawals| ensures SettledRow(t, v) {
      assert SettledRow(s, v);
    }
  }

  lemma RefundedFigures(s: State, w: nat, held: int, submitting: bool)
    requires PaidRow(s, w) && !Shares(s.withdrawals[w])
    ensures TransitAgrees(RefundedState(s, w, held, submitting)) && ReportAgrees(RefundedState(s, w, held, submitting))
  {
    assert SettledRow(s, w);
    var row := s.withdrawals[w];
    var t := RefundedState(s, w, held, submitting);
    var lines := PayoutLines(row.wallet, row.Cost());
    RowChanged(s.withdrawals, w, t.withdrawals[w]);
    EntryChanged(s.entries, row.entry.value, t.entries[row.entry.value]);
    PairFigures(lines[0], lines[1]);
  }

  lemma RefundedJournal(s: State, w: nat, held: int, submitting: bool)
    requires PaidRow(s, w)
    ensures JournalAgrees(RefundedState(s, w, held, submitting))
  {
    assert SettledRow(s, w);
    var e := s.withdrawals[w].entry.value;
    var t := RefundedState(s, w, held, submitting);
    PairEffect(s.entries[e]);
    PairEffect(t.entries[e]);
    JournalRewritten(s, t, e, t.entries[e]);
  }

  /** The share of an organisation's fee goes back from the platform wallet to account 1100. */
  function UnshareState(s: State, w: nat): State
    requires w < |s.withdrawals| && Platform in s.wallets
    requires s.withdrawals[w].shareEntry.Some? && s.withdrawals[w].shareEntry.value < |s.entries|
  {
    var row := s.withdrawals[w];
    var e := row.shareEntry.value;
    var platform := s.wallets[Platform];
    s.(clearing := s.clearing + row.share,
       wallets := s.wallets[Platform :=
           platform.(balance := platform.balance - row.share, ledger := platform.ledger - row.share)],
       withdrawals := s.withdrawals[w := row.(feeSplit := false)],
       entries := s.entries[e := s.entries[e].(status := Reversed)])
  }

  ghost predicate SharedRow(s: State, w: nat) {
    && PaidRow(s, w) && Shares(s.withdrawals[w]) && Platform in s.wallets && !s.withdrawals[w].submitting
    && s.withdrawals[w].shareEntry.Some? && s.withdrawals[w].shareEntry.value < |s.entries|
  }

  lemma UnshareRows(s: State, w: nat)
    requires SharedRow(s, w)
    ensures AllRowsSettled(UnshareState(s, w))
  {
    var t := UnshareState(s, w);
    assert SettledRow(s, w);
    forall v | 0 <= v < |t.withdrawals| ensures SettledRow(t, v) {
      assert SettledRow(s, v);
    }
  }

  lemma UnshareFigures(s: State, w: nat)
    requires SharedRow(s, w)
    ensures TransitAgrees(UnshareState(s, w)) && ReportAgrees(UnshareState(s, w))
  {
    assert SettledRow(s, w);
    var row := s.withdrawals[w];
    var t := UnshareState(s, w);
    var lines := ShareLines(row.share);
    RowChanged(s.withdrawals, w, t.withdrawals[w]);
    EntryChanged(s.entries, row.shareEntry.value, t.entries[row.shareEntry.value]);
    PairFigures(lines[0], lines[1]);
  }

  lemma UnshareJournal(s: State, w: nat)
    requires SharedRow(s, w)
    ensures JournalAgrees(UnshareState(s, w))
  {
    assert SettledRow(s, w);
    var e := s.withdrawals[w].shareEntry.value;
    var t := UnshareState(s, w);
    PairEffect(s.entries[e]);
    PairEffect(t.entries[e]);
    JournalRewritten(s, t, e, t.entries[e]);
  }

  /** A FAILED row counts nowhere, so its remaining metadata is free. */
  lemma FailedRowFree(s: State, w: nat, row: Withdrawal)
    requires Settled(s) && w < |s.withdrawals| && s.withdrawals[w].status.Failed? && row.status.Failed?
    requires row.wallet == s.withdrawals[w].wallet && SettledRow(s.(withdrawals := s.withdrawals[w := row]), w)
    ensures Settled(s.(withdrawals := s.withdrawals[w := row]))
  {
    var t := s.(withdrawals := s.withdrawals[w := row]);
    RowChanged(s.withdrawals, w, row);
    assert AllRowsSettled(t) by {
      forall v | 0 <= v < |t.withdrawals| ensures SettledRow(t, v) {
        assert SettledRow(s, v);
      }
    }
    assert forall a :: LedgerOf(t, a) == LedgerOf(s, a);
  }

  lemma HoldsFree(s: State, holds: seq<Hold>)
    requires Settled(s)
    ensures Settled(s.(holds := holds))
  {
    var t := s.(holds := holds);
    RowsCarryOver(s, t);
    assert forall a :: LedgerOf(t, a) == LedgerOf(s, a);
  }

  lemma RefundedSettled(s: State, w: nat, held: int, submitting: bool)
    requires PaidRow(s, w) && !Shares(s.withdrawals[w]) && (submitting ==> s.withdrawals[w].submitting)
    ensures Settled(RefundedState(s, w, held, submitting))
  {
    RefundedRows(s, w, held, submitting);
    RefundedFigures(s, w, held, submitting);
    RefundedJournal(s, w, held, submitting);
  }

  // ---------- Compensation ----------

  /** While the settling call is submitting, no share exists, so only the cost comes back. */
  lemma CompensateResult(s: State, w: nat)
    requires Sound(s) && w < |s.withdrawals| && s.withdrawals[w].submitting
    requires s.withdrawals[w].status.Processing? && s.withdrawals[w].payout.None?
    requires s.withdrawals[w].wallet in s.wallets
    requires s.withdrawals[w].entry.Some? && s.withdrawals[w].entry.value < |s.entries|
    ensures CompensateWithdrawal(s, w)
         == Result(RefundedState(s, w, s.wallets[s.withdrawals[w].wallet].held, false), Refunded)
  {
    assert GoodRow(s, w);
  }

  // ---------- A failed payout reported by the provider ----------

  /** The wallet row after the webhook's second hold release. */
  function ReleasedTwice(s: State, w: nat): int
    requires w < |s.withdrawals| && s.withdrawals[w].wallet in s.wallets
  {
    Max(0, s.wallets[s.withdrawals[w].wallet].held - s.withdrawals[w].Cost())
  }

  lemma FailUnsharedResult(s: State, w: nat)
    requires w < |s.withdrawals| && s.withdrawals[w].status.Processing? && s.withdrawals[w].wallet in s.wallets
    requires s.withdrawals[w].entry.Some? && s.withdrawals[w].entry.value < |s.entries|
    requires !Shares(s.withdrawals[w])
    ensures FailPayout(s, w).state
         == RefundedState(s, w, ReleasedTwice(s, w), s.withdrawals[w].submitting).(
              holds := ReleaseHolds(s.holds, w, s.withdrawals[w].wallet, Some(false)))
  {}

  lemma FailSharedResult(s: State, w: nat)
    requires SharedRow(s, w) && s.withdrawals[w].status.Processing? && s.withdrawals[w].wallet.Organization?
    requires s.withdrawals[w].shareEntry != s.withdrawals[w].entry
    ensures var row := s.withdrawals[w];
            var back := RefundedState(UnshareState(s, w), w, ReleasedTwice(s, w), false);
            (FailPayout(s, w).state
             == back.(holds := ReleaseHolds(s.holds, w, row.wallet, Some(false)),
                      withdrawals := back.withdrawals[w := row.(status := PayoutStatus.Failed)]))
  {
    FailSharedWallets(s, w);
    FailSharedEntries(s, w);
  }

  lemma FailSharedWallets(s: State, w: nat)
    requires SharedRow(s, w) && s.withdrawals[w].status.Processing? && s.withdrawals[w].wallet.Organization?
    ensures FailPayout(s, w).state.wallets
         == RefundedState(UnshareState(s, w), w, ReleasedTwice(s, w), false).wallets
  {}

  lemma FailSharedEntries(s: State, w: nat)
    requires SharedRow(s, w) && s.withdrawals[w].status.Processing? && s.withdrawals[w].wallet.Organization?
    requires s.withdrawals[w].shareEntry != s.withdrawals[w].entry
    ensures FailPayout(s, w).state.entries
         == RefundedState(UnshareState(s, w), w, ReleasedTwice(s, w), false).entries
  {}
}
