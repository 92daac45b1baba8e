/**
  The rows the money engine reads and writes, the ledger primitives, and the
  quantities its invariants are about. All amounts are integer kobo.
 */
module Books {
  import opened Tables

  /** Each user and organisation owns one wallet; the platform owns one. */
  datatype Owner = User(id: nat) | Organization(id: nat) | Platform

  /** A wallet row together with the balance of its ledger account. */
  datatype Wallet = Wallet(balance: int, held: int, ledger: int, active: bool)

  const NEW_WALLET := Wallet(0, 0, 0, true)

  /** Ledger accounts 1100, 1200, and the account of each wallet. */
  datatype Account = BankClearing | BachsSettlement | WalletAccount(owner: Owner)

  datatype Side = Debit | Credit

  /** The two line descriptions the earnings report filters on; `Plain` is any other. */
  datatype Purpose = ServiceFee | PayoutFeeShare | Plain

  datatype Line = Line(account: Account, side: Side, amount: int, purpose: Purpose)

  datatype Source = ForPayment(reference: nat) | ForWithdrawal(id: nat) | ForFeeShare(id: nat)

  datatype EntryStatus = Posted | Reversed

  datatype Entry = Entry(source: Source, lines: seq<Line>, status: EntryStatus, balanced: bool)

  datatype PayoutStatus = Pending | Processing | Completed | Failed

  /**
    A withdrawal row. `share`, `providerFee`, `feeSplit` and `shareEntry` are the
    charges and allocation kept in its metadata; `submitting` marks the call that
    settled it and has not yet finished submitting the payout.
   */
  datatype Withdrawal = Withdrawal(
    user: nat, wallet: Owner, amount: int, fee: int, status: PayoutStatus,
    share: int, providerFee: Option<int>, feeSplit: bool, shareEntry: Option<nat>,
    payout: Option<nat>, entry: Option<nat>, submitting: bool)
  {
    function Cost(): int {
      amount + fee
    }

    predicate Paid() {
      status.Processing? || status.Completed?
    }
  }

  /** A wallet hold; `platformText` says which of the two reason texts it carries. */
  datatype Hold = Hold(wallet: Owner, amount: int, withdrawal: nat, platformText: bool, active: bool)

  datatype CheckoutStatus = Pending | Completed | Failed | Expired | Cancelled

  datatype Meta = Meta(platformFee: Option<nat>, expected: Option<int>, retries: nat)

  /** A pending payment row. */
  datatype PendingPayment = PendingPayment(
    user: nat, organization: nat, due: Option<nat>, amount: int, reference: nat,
    status: CheckoutStatus, checkout: Option<nat>, createdAt: int, meta: Meta)
  {
    /** Reading the metadata: absent and zero are the same. */
    function ServiceFee(): nat {
      if meta.platformFee.Some? then meta.platformFee.value else 0
    }

    function Expected(): int {
      if meta.expected.Some? && meta.expected.value != 0 then meta.expected.value else amount + ServiceFee()
    }
  }

  datatype Payment = Payment(reference: nat, organization: nat, amount: int, serviceFee: nat, charge: nat)

  /** The payment recorded for an assignment; a unique index allows one. */
  datatype DuePayment = DuePayment(amount: int, reference: nat)

  /** What one student owes for one due. */
  datatype Assignment = Assignment(amount: int, paid: bool, payment: Option<DuePayment>)

  datatype State = State(
    wallets: map<Owner, Wallet>, clearing: int, settlement: int,
    withdrawals: seq<Withdrawal>, holds: seq<Hold>,
    pendings: seq<PendingPayment>, payments: seq<Payment>, entries: seq<Entry>,
    dues: map<nat, Assignment>)

  const EMPTY := State(map[], 0, 0, [], [], [], [], [], map[])

  /** What a step did: refused it, changed nothing, or did its work. */
  datatype Outcome = Refused | Unchanged | Done | Credited | Debited | Refunded

  datatype Result = Result(state: State, outcome: Outcome)

  // ---------- Ledger primitives ----------

  function EnsureWallet(s: State, owner: Owner): (r: State)
    ensures owner in r.wallets
  {
    if owner in s.wallets then s else s.(wallets := s.wallets[owner := NEW_WALLET])
  }

  predicate HasAccount(s: State, account: Account) {
    account.WalletAccount? ==> account.owner in s.wallets
  }

  function AccountBalance(s: State, account: Account): int
    requires HasAccount(s, account)
  {
    match account
    case BankClearing => s.clearing
    case BachsSettlement => s.settlement
    case WalletAccount(owner) => s.wallets[owner].ledger
  }

  function Adjust(s: State, account: Account, delta: int): (r: State)
    requires HasAccount(s, account)
    ensures r.wallets.Keys == s.wallets.Keys
  {
    match account
    case BankClearing => s.(clearing := s.clearing + delta)
    case BachsSettlement => s.(settlement := s.settlement + delta)
    case WalletAccount(owner) =>
      var wallet := s.wallets[owner];
      s.(wallets := s.wallets[owner := wallet.(ledger := wallet.ledger + delta)])
  }

  /** A wallet's stored balance and its ledger account move together. */
  function Move(s: State, owner: Owner, delta: int): (r: State)
    requires owner in s.wallets
    ensures r.wallets.Keys == s.wallets.Keys
  {
    var wallet := s.wallets[owner];
    s.(wallets := s.wallets[owner := wallet.(balance := wallet.balance + delta, ledger := wallet.ledger + delta)])
  }

  function Signed(line: Line): int {
    if line.side.Debit? then line.amount else -line.amount
  }

  function Debits(line: Line): int {
    if line.side.Debit? then line.amount else 0
  }

  function Credits(line: Line): int {
    if line.side.Credit? then line.amount else 0
  }

  predicate Balances(lines: seq<Line>) {
    Sum(lines, Debits) == Sum(lines, Credits)
  }

  function ApplyLines(s: State, lines: seq<Line>): (r: State)
    requires forall line :: line in lines ==> HasAccount(s, line.account)
    ensures r.wallets.Keys == s.wallets.Keys
  {
    if lines == [] then s
    else
      var last := |lines| - 1;
      var rest := ApplyLines(s, lines[..last]);
      assert HasAccount(rest, lines[last].account) by {
        assert lines[last] in lines && rest.wallets.Keys == s.wallets.Keys;
        assert HasAccount(s, lines[last].account);
      }
      Adjust(rest, lines[last].account, Signed(lines[last]))
  }

  /** `createJournalEntry`: refuses unbalanced lines and unknown accounts. */
  function CreateEntry(s: State, source: Source, lines: seq<Line>): (r: Option<State>)
    ensures r.Some? ==> r.value.wallets.Keys == s.wallets.Keys && |r.value.entries| == |s.entries| + 1
  {
    if !Balances(lines) || exists line :: line in lines && !HasAccount(s, line.account) then None
    else
      Some(ApplyLines(s, lines).(entries := s.entries + [Entry(source, lines, Posted, true)]))
  }

  function FindEntry(entries: seq<Entry>, source: Source): (r: Option<nat>)
    ensures r.Some? ==> r.value < |entries| && entries[r.value].source == source
    ensures r.None? ==> forall e :: 0 <= e < |entries| ==> entries[e].source != source
  {
    if entries == [] then None
    else
      var last := |entries| - 1;
      if entries[last].source == source then Some(last) else FindEntry(entries[..last], source)
  }

  function PayoutLines(owner: Owner, total: int): seq<Line> {
    [Line(BankClearing, Debit, total, Plain), Line(WalletAccount(owner), Credit, total, Plain)]
  }

  function ShareLines(share: int): seq<Line> {
    [Line(WalletAccount(Platform), Debit, share, PayoutFeeShare), Line(BankClearing, Credit, share, Plain)]
  }

  function CollectionLines(organization: nat, settled: int, amount: int, fee: nat): seq<Line> {
    [Line(BachsSettlement, Debit, settled, Plain),
     Line(WalletAccount(Organization(organization)), Credit, amount, Plain)]
    + if fee > 0 then [Line(WalletAccount(Platform), Credit, fee, ServiceFee)] else []
  }

  // ---------- Quantities ----------

  function BalanceOf(wallet: Wallet): int {
    wallet.balance
  }

  /** Wallet money plus money in transit to banks, less money Bachs still owes. */
  ghost function Worth(s: State): int {
    Total(s.wallets, BalanceOf) + s.clearing - s.settlement
  }

  /** What a payment brought in: to the organisation, and as the platform's fee. */
  function Brought(payment: Payment): int {
    payment.amount + payment.serviceFee
  }

  /** Wallet money plus money in transit to banks, beyond what the recorded payments brought in. */
  ghost function Surplus(s: State): int {
    Total(s.wallets, BalanceOf) + s.clearing - Sum(s.payments, Brought)
  }

  /** What a withdrawal still keeps in account 1100. */
  function InTransit(row: Withdrawal): int {
    if !row.Paid() then 0
    else if row.wallet.Organization? && row.feeSplit && row.providerFee.Some?
    then row.amount + Min(row.fee, row.providerFee.value)
    else row.Cost()
  }

  /** The curried form lets sums of it be compared for one owner. */
  function ReservedFor(owner: Owner): Withdrawal -> int {
    (row: Withdrawal) => if row.wallet == owner && row.status.Pending? then row.Cost() else 0
  }

  function ActiveFor(owner: Owner): Hold -> int {
    (hold: Hold) => if hold.wallet == owner && hold.active then hold.amount else 0
  }

  function PlatformAmount(row: Withdrawal): int {
    if row.wallet.Platform? && row.Paid() then row.amount else 0
  }

  function PlatformPayoutFee(row: Withdrawal): int {
    if row.wallet.Platform? && row.Paid() then row.fee else 0
  }

  function ServiceFeeCredit(line: Line): int {
    if line.side.Credit? && line.purpose.ServiceFee? then line.amount else 0
  }

  function FeeShareDebit(line: Line): int {
    if line.side.Debit? && line.purpose.PayoutFeeShare? then line.amount else 0
  }

  function ServiceFees(entry: Entry): int {
    if entry.source.ForPayment? then Sum(entry.lines, ServiceFeeCredit) else 0
  }

  function FeeShares(entry: Entry): int {
    if entry.status.Posted? then Sum(entry.lines, FeeShareDebit) else 0
  }

  /** `netPlatformEarnings` of the platform-wide financial overview. */
  function Earnings(s: State): int {
    Sum(s.entries, ServiceFees) + Sum(s.entries, FeeShares)
    - Sum(s.withdrawals, PlatformAmount) - Sum(s.withdrawals, PlatformPayoutFee)
  }

  function PlatformBalance(s: State): int {
    if Platform in s.wallets then s.wallets[Platform].balance else 0
  }

  function SignedOn(account: Account): Line -> int {
    (line: Line) => if line.account == account then Signed(line) else 0
  }

  function CreditOn(account: Account): Line -> int {
    (line: Line) => if line.account == account && line.side.Credit? then line.amount else 0
  }

  /** What `reconcileAccounts` adds up for an account from one posted entry. */
  function NetOn(account: Account): Entry -> int {
    (entry: Entry) => if entry.status.Posted? then Sum(entry.lines, SignedOn(account)) else 0
  }

  /** What Bachs collections credited to an account in one posted entry. */
  function CollectedOn(account: Account): Entry -> int {
    (entry: Entry) =>
      if entry.status.Posted? && entry.source.ForPayment? then Sum(entry.lines, CreditOn(account)) else 0
  }

  // ---------- How sums change ----------

  lemma SumPair<T>(a: T, b: T, f: T -> int)
    ensures Sum([a, b], f) == f(a) + f(b)
  {
    assert [a, b] == [] + [a] + [b];
    SumAppend([] + [a], b, f);
    SumAppend([], a, f);
  }

  lemma RowChanged(rows: seq<Withdrawal>, w: nat, row: Withdrawal)
    requires w < |rows|
    ensures Sum(rows[w := row], InTransit) == Sum(rows, InTransit) - InTransit(rows[w]) + InTransit(row)
    ensures Sum(rows[w := row], PlatformAmount)
         == Sum(rows, PlatformAmount) - PlatformAmount(rows[w]) + PlatformAmount(row)
    ensures Sum(rows[w := row], PlatformPayoutFee)
         == Sum(rows, PlatformPayoutFee) - PlatformPayoutFee(rows[w]) + PlatformPayoutFee(row)
  {
    SumUpdate(rows, w, row, InTransit);
    SumUpdate(rows, w, row, PlatformAmount);
    SumUpdate(rows, w, row, PlatformPayoutFee);
  }

  lemma RowAdded(rows: seq<Withdrawal>, row: Withdrawal)
    ensures Sum(rows + [row], InTransit) == Sum(rows, InTransit) + InTransit(row)
    ensures Sum(rows + [row], PlatformAmount) == Sum(rows, PlatformAmount) + PlatformAmount(row)
    ensures Sum(rows + [row], PlatformPayoutFee) == Sum(rows, PlatformPayoutFee) + PlatformPayoutFee(row)
    ensures forall o :: Sum(rows + [row], ReservedFor(o)) == Sum(rows, ReservedFor(o)) + ReservedFor(o)(row)
  {
    SumAppend(rows, row, InTransit);
    SumAppend(rows, row, PlatformAmount);
    SumAppend(rows, row, PlatformPayoutFee);
    forall o {
      SumAppend(rows, row, ReservedFor(o));
    }
  }

  lemma EntryChanged(entries: seq<Entry>, e: nat, entry: Entry)
    requires e < |entries|
    ensures Sum(entries[e := entry], ServiceFees)
         == Sum(entries, ServiceFees) - ServiceFees(entries[e]) + ServiceFees(entry)
    ensures Sum(entries[e := entry], FeeShares) == Sum(entries, FeeShares) - FeeShares(entries[e]) + FeeShares(entry)
  {
    SumUpdate(entries, e, entry, ServiceFees);
    SumUpdate(entries, e, entry, FeeShares);
  }

  lemma EntryAdded(entries: seq<Entry>, entry: Entry)
    ensures Sum(entries + [entry], ServiceFees) == Sum(entries, ServiceFees) + ServiceFees(entry)
    ensures Sum(entries + [entry], FeeShares) == Sum(entries, FeeShares) + FeeShares(entry)
  {
    SumAppend(entries, entry, ServiceFees);
    SumAppend(entries, entry, FeeShares);
  }

  /** What a posted payout or share entry contributes to each figure. */
  lemma PairFigures(first: Line, second: Line)
    ensures Sum([first, second], ServiceFeeCredit) == ServiceFeeCredit(first) + ServiceFeeCredit(second)
    ensures Sum([first, second], FeeShareDebit) == FeeShareDebit(first) + FeeShareDebit(second)
    ensures Sum([first, second], Debits) == Debits(first) + Debits(second)
    ensures Sum([first, second], Credits) == Credits(first) + Credits(second)
  {
    SumPair(first, second, ServiceFeeCredit);
    SumPair(first, second, FeeShareDebit);
    SumPair(first, second, Debits);
    SumPair(first, second, Credits);
  }

  lemma PairApplied(s: State, first: Line, second: Line)
    requires HasAccount(s, first.account) && HasAccount(s, second.account)
    ensures ApplyLines(s, [first, second])
         == Adjust(Adjust(s, first.account, Signed(first)), second.account, Signed(second))
  {
    assert [first][..0] == [];
    assert ApplyLines(s, [first]) == Adjust(s, first.account, Signed(first));
    assert [first, second][..1] == [first];
  }

  /** Posting a balanced pair: one account rises, the other falls, and the entry is recorded. */
  lemma PairCreated(s: State, source: Source, first: Line, second: Line)
    requires HasAccount(s, first.account) && HasAccount(s, second.account)
    requires first.side.Debit? && second.side.Credit? && first.amount == second.amount
    ensures CreateEntry(s, source, [first, second])
         == Some(Adjust(Adjust(s, first.account, first.amount), second.account, -first.amount).(
              entries := s.entries + [Entry(source, [first, second], Posted, true)]))
  {
    PairFigures(first, second);
    PairApplied(s, first, second);
  }
}
