/**
  Each withdrawal step keeps the invariants, with the exact condition where one of
  the provider's webhooks does not.
 */
module PayoutProofs {
  import opened Tables
  import opened Books
  import opened Charges
  import opened Withdrawals
  import opened Invariants

  // ---------- A step writes one withdrawal row and its own entries ----------

  predicate About(entry: Entry, w: nat) {
    entry.source == ForWithdrawal(w) || entry.source == ForFeeShare(w)
  }

  ghost predicate OnlyRow(s: State, t: State, w: nat) {
    && w < |t.withdrawals| && t.pendings == s.pendings
    && |t.withdrawals| == Max(|s.withdrawals|, w + 1)
    && (forall v :: 0 <= v < |s.withdrawals| && v != w ==> t.withdrawals[v] == s.withdrawals[v])
    && (w < |s.withdrawals| ==> t.withdrawals[w].wallet == s.withdrawals[w].wallet)
    && s.wallets.Keys <= t.wallets.Keys
    && |s.entries| <= |t.entries|
    && (forall e :: 0 <= e < |s.entries| ==> t.entries[e].source == s.entries[e].source)
    && (forall e :: 0 <= e < |s.entries| && !About(s.entries[e], w) ==> t.entries[e] == s.entries[e])
  }

  lemma SoundByRow(s: State, t: State, w: nat)
    requires Sound(s) && OnlyRow(s, t, w) && w <= |s.withdrawals|
    requires LedgerAgrees(t) && GoodRow(t, w)
    requires forall e :: 0 <= e < |t.entries| && (e >= |s.entries| || About(s.entries[e], w)) ==>
               GoodEntry(t, t.entries[e])
    ensures Sound(t)
  {
    forall v | 0 <= v < |t.withdrawals| ensures GoodRow(t, v) {
      if v != w { assert GoodRow(s, v); }
    }
    forall e | 0 <= e < |t.entries| ensures GoodEntry(t, t.entries[e]) {
      if e < |s.entries| && !About(s.entries[e], w) { assert GoodEntry(s, s.entries[e]); }
    }
  }

  ghost predicate AllRowsSettled(s: State) {
    forall w :: 0 <= w < |s.withdrawals| ==> SettledRow(s, w)
  }

  lemma SettledByRow(s: State, t: State, w: nat)
    requires AllRowsSettled(s) && OnlyRow(s, t, w) && w <= |s.withdrawals|
    requires SettledRow(t, w)
    ensures AllRowsSettled(t)
  {
    forall v | 0 <= v < |t.withdrawals| ensures SettledRow(t, v) {
      if v != w { assert SettledRow(s, v); }
    }
  }

  lemma ReservedByRow(s: State, t: State, w: nat)
    requires Reserved(s) && w < |s.withdrawals|
    requires |t.withdrawals| == |s.withdrawals| && t.withdrawals == s.withdrawals[w := t.withdrawals[w]]
    requires forall o ::
               HeldBy(t, o) - HeldBy(s, o) == ReservedFor(o)(t.withdrawals[w]) - ReservedFor(o)(s.withdrawals[w])
    ensures Reserved(t)
  {
    forall o ensures HeldBy(t, o) == Sum(t.withdrawals, ReservedFor(o)) {
      SumUpdate(s.withdrawals, w, t.withdrawals[w], ReservedFor(o));
    }
  }

  /** While reserves agree, the clamp at zero never fires on a pending row. */
  lemma ReserveCovers(s: State, w: nat)
    requires Sound(s) && Reserved(s) && w < |s.withdrawals| && s.withdrawals[w].status.Pending?
    ensures s.withdrawals[w].wallet in s.wallets
    ensures s.wallets[s.withdrawals[w].wallet].held >= s.withdrawals[w].Cost()
  {
    var o := s.withdrawals[w].wallet;
    assert HeldBy(s, o) == Sum(s.withdrawals, ReservedFor(o));
    forall v | 0 <= v < |s.withdrawals| ensures ReservedFor(o)(s.withdrawals[v]) >= 0 {
      assert GoodRow(s, v);
    }
    SumNonNegative(s.withdrawals, ReservedFor(o));
    assert GoodRow(s, w);
  }

  // ---------- Request ----------

  /** An accepted request: one pending row, its hold, and the reserved cost. */
  function RequestedState(s: State, user: nat, owner: Owner, amount: int, fee: int): State
    requires owner in s.wallets
  {
    var wallet := s.wallets[owner];
    s.(withdrawals := s.withdrawals + [NewWithdrawal(user, owner, amount, fee)],
       holds := s.holds + [Hold(owner, amount + fee, |s.withdrawals|, owner.Platform?, true)],
       wallets := s.wallets[owner := wallet.(held := wallet.held + amount + fee)])
  }

  lemma RequestSound(s: State, user: nat, owner: Owner, amount: int, fee: nat)
    requires Sound(s) && owner in s.wallets && amount >= MINIMUM_WITHDRAWAL
    ensures Sound(RequestedState(s, user, owner, amount, fee))
    ensures Worth(RequestedState(s, user, owner, amount, fee)) == Worth(s)
  {
    var t := RequestedState(s, user, owner, amount, fee);
    WalletWritten(s, owner, t.wallets[owner]);
    forall e | 0 <= e < |s.entries| ensures GoodEntry(t, t.entries[e]) {
      assert GoodEntry(s, s.entries[e]);
    }
    SoundByRow(s, t, |s.withdrawals|);
  }

  lemma RequestSettled(s: State, user: nat, owner: Owner, amount: int, fee: nat)
    requires Settled(s) && owner in s.wallets
    ensures Settled(RequestedState(s, user, owner, amount, fee))
  {
    var t := RequestedState(s, user, owner, amount, fee);
    SettledByRow(s, t, |s.withdrawals|);
    RowAdded(s.withdrawals, NewWithdrawal(user, owner, amount, fee));
    assert forall a :: LedgerOf(t, a) == LedgerOf(s, a);
  }

  lemma RequestReserved(s: State, user: nat, owner: Owner, amount: int, fee: nat)
    requires Reserved(s) && owner in s.wallets
    ensures Reserved(RequestedState(s, user, owner, amount, fee))
  {
    RowAdded(s.withdrawals, NewWithdrawal(user, owner, amount, fee));
  }

  // ---------- Settle ----------

  /** The settlement transaction written out: no earlier entry can exist, so one is posted. */
  function SettledState(s: State, w: nat, platformText: bool): State
    requires w < |s.withdrawals| && s.withdrawals[w].wallet in s.wallets
  {
    var row := s.withdrawals[w];
    var wallet := s.wallets[row.wallet];
    s.(clearing := s.clearing + row.Cost(),
       wallets := s.wallets[row.wallet := wallet.(
         balance := wallet.balance - row.Cost(), ledger := wallet.ledger - row.Cost(),
         held := Max(0, wallet.held - row.Cost()))],
       withdrawals := s.withdrawals[w := row.(
         status := PayoutStatus.Processing, entry := Some(|s.entries|), submitting := true)],
       holds := ReleaseHolds(s.holds, w, row.wallet, Some(platformText)),
       entries := s.entries + [Entry(ForWithdrawal(w), PayoutLines(row.wallet, row.Cost()), Posted, true)])
  }

  lemma SettleResult(s: State, w: nat, platformText: bool)
    requires Sound(s) && w < |s.withdrawals| && s.withdrawals[w].status.Pending?
    ensures s.withdrawals[w].wallet in s.wallets
    ensures SettleWithdrawal(s, w, platformText) == Result(SettledState(s, w, platformText), Debited)
  {
    assert GoodRow(s, w);
    var row := s.withdrawals[w];
    var lines := PayoutLines(row.wallet, row.Cost());
    assert FindEntry(s.entries, ForWithdrawal(w)).None? by {
      forall e | 0 <= e < |s.entries| ensures s.entries[e].source != ForWithdrawal(w) {
        assert GoodEntry(s, s.entries[e]);
      }
    }
    PairCreated(s, ForWithdrawal(w), lines[0], lines[1]);
  }

  lemma SettleSound(s: State, w: nat, platformText: bool)
    requires Sound(s) && w < |s.withdrawals| && s.withdrawals[w].status.Pending? && s.withdrawals[w].wallet in s.wallets
    ensures Sound(SettledState(s, w, platformText)) && Worth(SettledState(s, w, platformText)) == Worth(s)
  {
    assert GoodRow(s, w);
    var t := SettledState(s, w, platformText);
    WalletWritten(s, s.withdrawals[w].wallet, t.wallets[s.withdrawals[w].wallet]);
    forall e | 0 <= e < |s.entries| && About(s.entries[e], w) ensures GoodEntry(t, t.entries[e]) {
      assert GoodEntry(s, s.entries[e]);
    }
    SoundByRow(s, t, w);
  }

  lemma SettleSettled(s: State, w: nat, platformText: bool)
    requires Sound(s) && Settled(s)
    requires w < |s.withdrawals| && s.withdrawals[w].status.Pending? && s.withdrawals[w].wallet in s.wallets
    ensures Settled(SettledState(s, w, platformText))
  {
    assert GoodRow(s, w) && SettledRow(s, w);
    var t := SettledState(s, w, platformText);
    var row := s.withdrawals[w];
    var lines := PayoutLines(row.wallet, row.Cost());
    var entry := Entry(ForWithdrawal(w), lines, Posted, true);
    SettledByRow(s, t, w);
    SettleFigures(s, w, platformText);
    assert JournalAgrees(t) by {
      PairEffect(entry);
      JournalAppended(s, t, entry);
    }
  }

  lemma SettleFigures(s: State, w: nat, platformText: bool)
    requires TransitAgrees(s) && ReportAgrees(s)
    requires w < |s.withdrawals| && s.withdrawals[w].status.Pending? && s.withdrawals[w].wallet in s.wallets
    requires !s.withdrawals[w].feeSplit
    ensures TransitAgrees(SettledState(s, w, platformText)) && ReportAgrees(SettledState(s, w, platformText))
  {
    var row := s.withdrawals[w];
    var lines := PayoutLines(row.wallet, row.Cost());
    RowChanged(s.withdrawals, w, SettledState(s, w, platformText).withdrawals[w]);
    EntryAdded(s.entries, Entry(ForWithdrawal(w), lines, Posted, true));
    PairFigures(lines[0], lines[1]);
  }

  lemma SettleReserved(s: State, w: nat, platformText: bool)
    requires Sound(s) && Reserved(s)
    requires w < |s.withdrawals| && s.withdrawals[w].status.Pending? && s.withdrawals[w].wallet in s.wallets
    ensures Reserved(SettledState(s, w, platformText))
  {
    ReserveCovers(s, w);
    ReservedByRow(s, SettledState(s, w, platformText), w);
  }

  // ---------- Submit ----------

  /** The row an organisation's submission writes, before any share is posted. */
  function SplitRow(row: Withdrawal, payout: Option<nat>, providerFee: int): Withdrawal {
    row.(payout := payout, share := Max(0, row.fee - providerFee),
         providerFee := Some(providerFee), feeSplit := true, submitting := false)
  }

  function UnsharedState(s: State, w: nat, payout: Option<nat>, providerFee: int): State
    requires w < |s.withdrawals|
  {
    s.(withdrawals := s.withdrawals[w := SplitRow(s.withdrawals[w], payout, providerFee)])
  }

  /** The platform's share moves from account 1100 to the platform wallet. */
  function SharedState(s: State, w: nat, payout: Option<nat>, providerFee: int): State
    requires w < |s.withdrawals| && Platform in s.wallets
  {
    var done := SplitRow(s.withdrawals[w], payout, providerFee);
    var platform := s.wallets[Platform];
    s.(clearing := s.clearing - done.share,
       wallets := s.wallets[Platform :=
           platform.(balance := platform.balance + done.share, ledger := platform.ledger + done.share)],
       withdrawals := s.withdrawals[w := done.(shareEntry := Some(|s.entries|))],
       entries := s.entries + [Entry(ForFeeShare(w), ShareLines(done.share), Posted, true)])
  }

  lemma SubmitOrganizationResult(s: State, w: nat, payout: Option<nat>, providerFee: int)
    requires w < |s.withdrawals| && !s.withdrawals[w].feeSplit
    ensures SubmitOrganizationPayout(s, w, payout, providerFee)
         == Result(if s.withdrawals[w].fee > providerFee
             then SharedState(EnsureWallet(s, Platform), w, payout, providerFee)
                   else UnsharedState(s, w, payout, providerFee), Done)
  {
    if s.withdrawals[w].fee > providerFee {
      SharedResult(s, w, payout, providerFee);
    }
  }

  lemma SharedResult(s: State, w: nat, payout: Option<nat>, providerFee: int)
    requires w < |s.withdrawals| && !s.withdrawals[w].feeSplit && s.withdrawals[w].fee > providerFee
    ensures SubmitOrganizationPayout(s, w, payout, providerFee)
         == Result(SharedState(EnsureWallet(s, Platform), w, payout, providerFee), Done)
  {
    var s1 := EnsureWallet(s, Platform);
    var share := s.withdrawals[w].fee - providerFee;
    ShareCreated(s1, w, share);
    var r := SubmitOrganizationPayout(s, w, payout, providerFee).state;
    assert r.wallets == SharedState(s1, w, payout, providerFee).wallets;
  }

  lemma ShareCreated(s: State, w: nat, share: nat)
    requires Platform in s.wallets
    ensures CreateEntry(s, ForFeeShare(w), ShareLines(share))
         == Some(s.(clearing := s.clearing - share,
                    wallets := s.wallets[Platform :=
                        s.wallets[Platform].(ledger := s.wallets[Platform].ledger + share)],
                    entries := s.entries + [Entry(ForFeeShare(w), ShareLines(share), Posted, true)]))
  {
    PairCreated(s, ForFeeShare(w), ShareLines(share)[0], ShareLines(share)[1]);
  }

  lemma UnsharedKeeps(s: State, w: nat, payout: Option<nat>, providerFee: nat)
    requires Sound(s) && w < |s.withdrawals| && !s.withdrawals[w].status.Pending?
    requires s.withdrawals[w].wallet.Organization? && !s.withdrawals[w].feeSplit && s.withdrawals[w].fee <= providerFee
    ensures Sound(UnsharedState(s, w, payout, providerFee))
    ensures Settled(s) && s.withdrawals[w].Paid() ==> Settled(UnsharedState(s, w, payout, providerFee))
  {
    assert GoodRow(s, w);
    var t := UnsharedState(s, w, payout, providerFee);
    forall e | 0 <= e < |s.entries| ensures GoodEntry(t, t.entries[e]) {
      assert GoodEntry(s, s.entries[e]);
    }
    SoundByRow(s, t, w);
    if Settled(s) && s.withdrawals[w].Paid() {
      assert SettledRow(s, w);
      RowChanged(s.withdrawals, w, t.withdrawals[w]);
      SettledByRow(s, t, w);
      assert forall a :: LedgerOf(t, a) == LedgerOf(s, a);
    }
  }

  lemma SharedSound(s: State, w: nat, payout: Option<nat>, providerFee: nat)
    requires Sound(s) && w < |s.withdrawals| && Platform in s.wallets && !s.withdrawals[w].status.Pending?
    ensures Sound(SharedState(s, w, payout, providerFee))
    ensures Worth(SharedState(s, w, payout, providerFee)) == Worth(s)
  {
    assert GoodRow(s, w);
    var t := SharedState(s, w, payout, providerFee);
    WalletWritten(s, Platform, t.wallets[Platform]);
    forall e | 0 <= e < |s.entries| && About(s.entries[e], w) ensures GoodEntry(t, t.entries[e]) {
      assert GoodEntry(s, s.entries[e]);
    }
    SoundByRow(s, t, w);
  }

  ghost predicate Shareable(s: State, w: nat, providerFee: nat) {
    && Sound(s) && Settled(s) && w < |s.withdrawals| && Platform in s.wallets
    && s.withdrawals[w].wallet.Organization? && s.withdrawals[w].Paid() && !s.withdrawals[w].feeSplit
    && s.withdrawals[w].fee > providerFee
  }

  lemma SharedRows(s: State, w: nat, payout: Option<nat>, providerFee: nat)
    requires Shareable(s, w, providerFee)
    ensures AllRowsSettled(SharedState(s, w, payout, providerFee))
  {
    assert GoodRow(s, w) && SettledRow(s, w);
    SettledByRow(s, SharedState(s, w, payout, providerFee), w);
  }

  lemma SharedFigures(s: State, w: nat, payout: Option<nat>, providerFee: nat)
    requires Shareable(s, w, providerFee)
    ensures TransitAgrees(SharedState(s, w, payout, providerFee))
         && ReportAgrees(SharedState(s, w, payout, providerFee))
  {
    var t := SharedState(s, w, payout, providerFee);
    var lines := ShareLines(t.withdrawals[w].share);
    RowChanged(s.withdrawals, w, t.withdrawals[w]);
    EntryAdded(s.entries, Entry(ForFeeShare(w), lines, Posted, true));
    PairFigures(lines[0], lines[1]);
  }

  lemma SharedJournal(s: State, w: nat, payout: Option<nat>, providerFee: nat)
    requires Shareable(s, w, providerFee)
    ensures JournalAgrees(SharedState(s, w, payout, providerFee))
  {
    var t := SharedState(s, w, payout, providerFee);
    var entry := Entry(ForFeeShare(w), ShareLines(t.withdrawals[w].share), Posted, true);
    PairEffect(entry);
    JournalAppended(s, t, entry);
  }

  /** Repricing keeps the shape of a payout entry. */
  lemma Repriced(entry: Entry, owner: Owner, before: int, after: int)
    requires entry.lines == PayoutLines(owner, before)
    ensures Reprice(entry, after) == entry.(lines := PayoutLines(owner, after))
  {}

  lemma SubmitPlainSound(s: State, w: nat, payout: Option<nat>, providerFee: nat)
    requires Sound(s) && w < |s.withdrawals|
    ensures var t := SubmitPlainPayout(s, w, payout, providerFee).state;
            Sound(t) && Worth(t) == Worth(s)
  {
    assert GoodRow(s, w);
    var row := s.withdrawals[w];
    var t := SubmitPlainPayout(s, w, payout, providerFee).state;
    if row.fee != providerFee {
      Moved(s, row.wallet, row.fee - providerFee);
      assert t.wallets == Move(s, row.wallet, row.fee - providerFee).wallets;
    }
    SubmitPlainEntries(s, w, payout, providerFee);
    SoundByRow(s, t, w);
  }

  lemma SubmitPlainEntries(s: State, w: nat, payout: Option<nat>, providerFee: nat)
    requires Sound(s) && w < |s.withdrawals|
    ensures var t := SubmitPlainPayout(s, w, payout, providerFee).state;
            && |t.entries| == |s.entries|
            && (forall e :: 0 <= e < |s.entries| ==> t.entries[e].source == s.entries[e].source)
            && (forall e :: 0 <= e < |s.entries| && !About(s.entries[e], w) ==> t.entries[e] == s.entries[e])
            && (forall e :: 0 <= e < |s.entries| && About(s.entries[e], w) ==> GoodEntry(t, t.entries[e]))
  {
    assert GoodRow(s, w);
    forall e | 0 <= e < |s.entries| ensures GoodEntry(s, s.entries[e]) {}
  }

  /** The wallet pays or receives the difference between the provider's fee and the quoted one. */
  function RepricedState(s: State, w: nat, payout: Option<nat>, providerFee: int): State
    requires w < |s.withdrawals| && s.withdrawals[w].wallet in s.wallets
    requires s.withdrawals[w].entry.Some? && s.withdrawals[w].entry.value < |s.entries|
  {
    var row := s.withdrawals[w];
    var wallet := s.wallets[row.wallet];
    var e := row.entry.value;
    var difference := providerFee - row.fee;
    s.(clearing := s.clearing + difference,
       wallets := s.wallets[row.wallet :=
           wallet.(balance := wallet.balance - difference, ledger := wallet.ledger - difference)],
       withdrawals := s.withdrawals[w := row.(payout := payout, fee := providerFee, submitting := false)],
       entries := s.entries[e := s.entries[e].(lines := PayoutLines(row.wallet, row.amount + providerFee))])
  }

  lemma SubmitPlainResult(s: State, w: nat, payout: Option<nat>, providerFee: int)
    requires w < |s.withdrawals| && s.withdrawals[w].wallet in s.wallets
    requires s.withdrawals[w].entry.Some? && s.withdrawals[w].entry.value < |s.entries|
    requires s.entries[s.withdrawals[w].entry.value].lines
        == PayoutLines(s.withdrawals[w].wallet, s.withdrawals[w].Cost())
    ensures SubmitPlainPayout(s, w, payout, providerFee) == Result(RepricedState(s, w, payout, providerFee), Done)
  {
    var row := s.withdrawals[w];
    var e := row.entry.value;
    Repriced(s.entries[e], row.wallet, row.Cost(), row.amount + providerFee);
    if providerFee == row.fee {
      assert s.wallets[row.wallet := s.wallets[row.wallet]] == s.wallets;
      assert s.entries[e := s.entries[e]] == s.entries;
    }
  }

  ghost predicate Repriceable(s: State, w: nat) {
    && Sound(s) && Settled(s) && w < |s.withdrawals| && s.withdrawals[w].wallet in s.wallets
    && !s.withdrawals[w].wallet.Organization? && s.withdrawals[w].Paid()
    && s.withdrawals[w].entry.Some? && s.withdrawals[w].entry.value < |s.entries|
    && s.entries[s.withdrawals[w].entry.value]
       == Entry(ForWithdrawal(w), PayoutLines(s.withdrawals[w].wallet, s.withdrawals[w].Cost()), Posted, true)
  }

  lemma RepricedRows(s: State, w: nat, payout: Option<nat>, providerFee: nat)
    requires Repriceable(s, w)
    ensures AllRowsSettled(RepricedState(s, w, payout, providerFee))
  {
    assert SettledRow(s, w);
    SettledByRow(s, RepricedState(s, w, payout, providerFee), w);
  }

  lemma RepricedFigures(s: State, w: nat, payout: Option<nat>, providerFee: nat)
    requires Repriceable(s, w)
    ensures TransitAgrees(RepricedState(s, w, payout, providerFee))
         && ReportAgrees(RepricedState(s, w, payout, providerFee))
  {
    assert SettledRow(s, w);
    var row := s.withdrawals[w];
    var t := RepricedState(s, w, payout, providerFee);
    var before, after := PayoutLines(row.wallet, row.Cost()), PayoutLines(row.wallet, row.amount + providerFee);
    RowChanged(s.withdrawals, w, t.withdrawals[w]);
    EntryChanged(s.entries, row.entry.value, t.entries[row.entry.value]);
    PairFigures(before[0], before[1]);
    PairFigures(after[0], after[1]);
  }

  lemma RepricedJournal(s: State, w: nat, payout: Option<nat>, providerFee: nat)
    requires Repriceable(s, w)
    ensures JournalAgrees(RepricedState(s, w, payout, providerFee))
  {
    var e := s.withdrawals[w].entry.value;
    var t := RepricedState(s, w, payout, providerFee);
    PairEffect(s.entries[e]);
    PairEffect(t.entries[e]);
    JournalRewritten(s, t, e, t.entries[e]);
  }
}
