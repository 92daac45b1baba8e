/**
  What the steps of the money engine keep, in layers: `Sound` needs nothing of anybody,
  `TermsAgree` that no checkout is opened for another amount than its row's, and of the
  provider's order `Settled`, which ties account 1100, the earnings report and the journal
  to the rows, and `Reserved`, which ties held balances to them.
 */
module Invariants {
  import opened Tables
  import opened Books
  import opened Collections
  import opened Charges

  function HeldBy(s: State, owner: Owner): int {
    if owner in s.wallets then s.wallets[owner].held else 0
  }

  function LedgerOf(s: State, account: Account): int {
    if HasAccount(s, account) then AccountBalance(s, account) else 0
  }

  /** Each wallet's stored balance equals its ledger account's balance. */
  ghost predicate LedgerAgrees(s: State) {
    forall o :: o in s.wallets ==> s.wallets[o].ledger == s.wallets[o].balance
  }

  predicate GoodRow(s: State, w: nat)
    requires w < |s.withdrawals|
  {
    var row := s.withdrawals[w];
    && row.wallet in s.wallets && row.amount >= MINIMUM_WITHDRAWAL && row.fee >= 0
    && (row.providerFee.Some? ==> row.providerFee.value >= 0)
    && (row.status.Pending? || row.submitting ==> !row.feeSplit)
    && (row.submitting ==> !row.status.Pending?)
    && (row.feeSplit && row.share > 0 ==> Platform in s.wallets)
    && (row.entry.Some? ==> row.entry.value < |s.entries| && s.entries[row.entry.value].source == ForWithdrawal(w))
    && (row.shareEntry.Some? ==>
          row.shareEntry.value < |s.entries| && s.entries[row.shareEntry.value].source == ForFeeShare(w))
  }

  /** A payout entry has two equal lines and belongs to a settled withdrawal; a share's entry has two equal lines. */
  predicate GoodEntry(s: State, entry: Entry) {
    match entry.source
    case ForPayment(_) => true
    case ForWithdrawal(w) =>
      && w < |s.withdrawals| && !s.withdrawals[w].status.Pending?
      && |entry.lines| == 2 && entry.lines == PayoutLines(s.withdrawals[w].wallet, entry.lines[0].amount)
    case ForFeeShare(w) => |entry.lines| == 2 && entry.lines == ShareLines(entry.lines[0].amount)
  }

  ghost predicate Sound(s: State) {
    && LedgerAgrees(s)
    && (forall w :: 0 <= w < |s.withdrawals| ==> GoodRow(s, w))
    && (forall p :: 0 <= p < |s.pendings| ==> s.pendings[p].amount >= MINIMUM_CHECKOUT)
    && (forall e :: 0 <= e < |s.entries| ==> GoodEntry(s, s.entries[e]))
  }

  /** The expected settlement is the amount plus the service fee. */
  predicate GoodTerms(row: PendingPayment) {
    row.Expected() == row.amount + row.ServiceFee()
  }

  ghost predicate TermsAgree(s: State) {
    forall p :: 0 <= p < |s.pendings| ==> GoodTerms(s.pendings[p])
  }

  /** The entry of every collection has equal debits and credits. */
  ghost predicate CollectionsBalance(s: State) {
    forall e :: 0 <= e < |s.entries| && s.entries[e].source.ForPayment? ==> Balances(s.entries[e].lines)
  }

  /** How a row's status, payout and entries belong together. */
  predicate SettledRow(s: State, w: nat)
    requires w < |s.withdrawals|
  {
    var row := s.withdrawals[w];
    && (row.status.Pending? || row.submitting ==> row.payout.None?)
    && (row.status.Pending? ==> row.entry.None?)
    && (row.feeSplit ==>
          row.wallet.Organization? && row.providerFee.Some? && row.share == Max(0, row.fee - row.providerFee.value))
    && (row.Paid() ==>
          && row.entry.Some? && row.entry.value < |s.entries|
          && s.entries[row.entry.value] == Entry(ForWithdrawal(w), PayoutLines(row.wallet, row.Cost()), Posted, true))
    && (row.Paid() && row.feeSplit && row.share > 0 ==>
          && row.shareEntry.Some? && row.shareEntry.value < |s.entries| && Platform in s.wallets
          && s.entries[row.shareEntry.value] == Entry(ForFeeShare(w), ShareLines(row.share), Posted, true))
  }

  /** Account 1100 holds exactly the money of paid withdrawals still in transit. */
  ghost predicate TransitAgrees(s: State) {
    s.clearing == Sum(s.withdrawals, InTransit)
  }

  /** The reported net platform earnings are the platform wallet's balance. */
  ghost predicate ReportAgrees(s: State) {
    Earnings(s) == PlatformBalance(s)
  }

  /** Every ledger balance follows from the posted entries; collections carry the opposite sign. */
  ghost predicate JournalAgrees(s: State) {
    forall a :: LedgerOf(s, a) == Sum(s.entries, NetOn(a)) +
        if a.WalletAccount? then 2 * Sum(s.entries, CollectedOn(a)) else 0
  }

  ghost predicate Settled(s: State) {
    && (forall w :: 0 <= w < |s.withdrawals| ==> SettledRow(s, w))
    && TransitAgrees(s) && ReportAgrees(s) && JournalAgrees(s)
  }

  /** Each wallet's held balance is the total cost of its PENDING withdrawals. */
  ghost predicate Reserved(s: State) {
    forall o :: HeldBy(s, o) == Sum(s.withdrawals, ReservedFor(o))
  }

  /** What a wallet can still spend. */
  function Slack(s: State, owner: Owner): int {
    if owner in s.wallets then s.wallets[owner].balance - s.wallets[owner].held else 0
  }

  /** No wallet holds more than it has, and none has less than nothing. */
  ghost predicate Solvent(s: State) {
    forall o :: 0 <= HeldBy(s, o) && 0 <= Slack(s, o)
  }

  /** Rows and entries that stay as they are stay good while wallets and entries are only added. */
  lemma RowsCarryOver(s: State, t: State)
    requires t.withdrawals == s.withdrawals && s.wallets.Keys <= t.wallets.Keys && s.entries <= t.entries
    ensures Sound(s) ==> forall w :: 0 <= w < |t.withdrawals| ==> GoodRow(t, w)
    ensures Sound(s) ==> forall e :: 0 <= e < |s.entries| ==> GoodEntry(t, t.entries[e])
    ensures Settled(s) ==> forall w :: 0 <= w < |t.withdrawals| ==> SettledRow(t, w)
  {
    forall w | 0 <= w < |t.withdrawals|
      ensures Sound(s) ==> GoodRow(t, w)
      ensures Settled(s) ==> SettledRow(t, w)
    {
      if Sound(s) { assert GoodRow(s, w); }
      if Settled(s) { assert SettledRow(s, w); }
    }
    forall e | 0 <= e < |s.entries| ensures Sound(s) ==> GoodEntry(t, t.entries[e]) {
      if Sound(s) { assert GoodEntry(s, s.entries[e]); }
    }
  }

  // ---------- Effects of the wallet primitives ----------

  lemma WalletWritten(s: State, o: Owner, wallet: Wallet)
    requires o in s.wallets
    ensures Worth(s.(wallets := s.wallets[o := wallet])) == Worth(s) - s.wallets[o].balance + wallet.balance
  {
    TotalUpdate(s.wallets, o, wallet, BalanceOf);
  }

  lemma WalletEnsured(s: State, o: Owner)
    ensures Worth(EnsureWallet(s, o)) == Worth(s)
    ensures PlatformBalance(EnsureWallet(s, o)) == PlatformBalance(s)
    ensures forall a :: LedgerOf(EnsureWallet(s, o), a) == LedgerOf(s, a)
    ensures forall q :: HeldBy(EnsureWallet(s, o), q) == HeldBy(s, q) && Slack(EnsureWallet(s, o), q) == Slack(s, q)
    ensures Sound(s) ==> Sound(EnsureWallet(s, o))
    ensures Settled(s) ==> Settled(EnsureWallet(s, o))
    ensures Reserved(s) ==> Reserved(EnsureWallet(s, o))
  {
    TotalUpdate(s.wallets, o, NEW_WALLET, BalanceOf);
    RowsCarryOver(s, EnsureWallet(s, o));
  }

  lemma Moved(s: State, o: Owner, delta: int)
    requires o in s.wallets
    ensures Worth(Move(s, o, delta)) == Worth(s) + delta
    ensures PlatformBalance(Move(s, o, delta)) == PlatformBalance(s) + if o.Platform? then delta else 0
    ensures forall a :: LedgerOf(Move(s, o, delta), a) == LedgerOf(s, a) + if a == WalletAccount(o) then delta else 0
    ensures forall q :: HeldBy(Move(s, o, delta), q) == HeldBy(s, q)
    ensures forall q :: Slack(Move(s, o, delta), q) == Slack(s, q) + if q == o then delta else 0
  {
    var wallet := s.wallets[o];
    WalletWritten(s, o, wallet.(balance := wallet.balance + delta, ledger := wallet.ledger + delta));
  }

  // ---------- How the journal follows ----------

  /** What an entry contributes to an account's ledger balance. */
  function EffectOn(entry: Entry, account: Account): int {
    NetOn(account)(entry) + if account.WalletAccount? then 2 * CollectedOn(account)(entry) else 0
  }

  lemma JournalAppended(s: State, t: State, entry: Entry)
    requires JournalAgrees(s) && t.entries == s.entries + [entry]
    requires forall a :: LedgerOf(t, a) == LedgerOf(s, a) + EffectOn(entry, a)
    ensures JournalAgrees(t)
  {
    forall a ensures LedgerOf(t, a) == Sum(t.entries, NetOn(a)) +
        if a.WalletAccount? then 2 * Sum(t.entries, CollectedOn(a)) else 0 {
      SumAppend(s.entries, entry, NetOn(a));
      SumAppend(s.entries, entry, CollectedOn(a));
    }
  }

  lemma JournalRewritten(s: State, t: State, e: nat, entry: Entry)
    requires JournalAgrees(s) && e < |s.entries| && t.entries == s.entries[e := entry]
    requires forall a :: LedgerOf(t, a) == LedgerOf(s, a) - EffectOn(s.entries[e], a) + EffectOn(entry, a)
    ensures JournalAgrees(t)
  {
    forall a ensures LedgerOf(t, a) == Sum(t.entries, NetOn(a)) +
        if a.WalletAccount? then 2 * Sum(t.entries, CollectedOn(a)) else 0 {
      SumUpdate(s.entries, e, entry, NetOn(a));
      SumUpdate(s.entries, e, entry, CollectedOn(a));
    }
  }

  /** An entry of two lines that is not a collection. */
  lemma PairEffect(entry: Entry)
    requires |entry.lines| == 2 && !entry.source.ForPayment?
    ensures forall a :: EffectOn(entry, a)
              == if entry.status.Posted? then SignedOn(a)(entry.lines[0]) + SignedOn(a)(entry.lines[1]) else 0
  {
    var first, second := entry.lines[0], entry.lines[1];
    assert entry.lines == [first, second];
    forall a ensures Sum(entry.lines, SignedOn(a)) == SignedOn(a)(first) + SignedOn(a)(second) {
      SumPair(first, second, SignedOn(a));
    }
  }
}
