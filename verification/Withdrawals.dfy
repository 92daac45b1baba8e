/**
  The withdrawal life cycle: request, settle, submit to the provider, compensate,
  reject, and the provider's later webhooks. Each function is one committed
  transaction; a refused one leaves every row as it was.
 */
module Withdrawals {
  import opened Tables
  import opened Books
  import opened Charges

  datatype Event =
    | Request(user: nat, owner: Owner, amount: int)
    | Settle(w: nat)
    | ApprovePlatform(w: nat, admin: nat, allowSelf: bool)
    | Submit(w: nat, payout: Option<nat>, reported: Option<nat>)
    | Compensate(w: nat)
    | Reject(w: nat)
    | PayoutSucceeded(w: nat)
    | PayoutFailed(w: nat)
    | PayoutPending(w: nat)

  function FixedFee(owner: Owner): Option<nat> {
    match owner
    case User(_) => None
    case Organization(_) => Some(ORGANIZATION_WITHDRAWAL_FEE)
    case Platform => Some(BACHS_PAYOUT_FEE)
  }

  /** The row a request writes, with the charges its metadata records. */
  function NewWithdrawal(user: nat, owner: Owner, amount: int, fee: int): Withdrawal {
    Withdrawal(user, owner, amount, fee, PayoutStatus.Pending,
               if owner.Organization? then ORGANIZATION_WITHDRAWAL_FEE - BACHS_PAYOUT_FEE else 0,
               if owner.User? then None else Some(BACHS_PAYOUT_FEE),
               false, None, None, None, false)
  }

  function RequestWithdrawal(policy: FeePolicy, s: State, user: nat, owner: Owner, amount: int): Result {
    if amount < MINIMUM_WITHDRAWAL then Result(s, Refused)
    else
      var s1 := EnsureWallet(s, owner);
      var wallet := s1.wallets[owner];
      var fee := Fee(policy, FixedFee(owner), amount);
      if !RequestAccepted(policy, FixedFee(owner), wallet.balance, wallet.held, amount) then Result(s1, Refused)
      else
        var w := |s.withdrawals|;
        Result(s1.(withdrawals := s1.withdrawals + [NewWithdrawal(user, owner, amount, fee)],
                   holds := s1.holds + [Hold(owner, amount + fee, w, owner.Platform?, true)],
                   wallets := s1.wallets[owner := wallet.(held := wallet.held + amount + fee)]), Done)
  }

  /** The row filter of a hold release: owner, and one of the reason texts (`None` matches both). */
  predicate ReleasesHold(hold: Hold, w: nat, owner: Owner, platformText: Option<bool>) {
    && hold.wallet == owner && hold.withdrawal == w && hold.active
    && (platformText.Some? ==> hold.platformText == platformText.value)
  }

  function ReleaseHolds(holds: seq<Hold>, w: nat, owner: Owner, platformText: Option<bool>): seq<Hold> {
    seq(|holds|, i requires 0 <= i < |holds| =>
      if ReleasesHold(holds[i], w, owner, platformText) then holds[i].(active := false) else holds[i])
  }

  /** Whether an existing entry stands for the expected lines; descriptions are not compared. */
  predicate MatchesLines(entry: Entry, lines: seq<Line>) {
    && entry.status.Posted? && entry.balanced && |entry.lines| == |lines|
    && forall expected :: expected in lines ==> HasLine(entry.lines, expected)
  }

  predicate HasLine(lines: seq<Line>, expected: Line) {
    exists actual :: actual in lines && SameLine(actual, expected)
  }

  predicate SameLine(a: Line, b: Line) {
    a.account == b.account && a.side == b.side && a.amount == b.amount
  }

  /** `createOrReuseWithdrawalJournal`: the state with the entry, and its identifier. */
  function CreateOrReuseEntry(s: State, w: nat, lines: seq<Line>): (r: Option<(State, nat)>)
    ensures r.Some? ==> r.value.0.wallets.Keys == s.wallets.Keys && r.value.1 < |r.value.0.entries|
  {
    match FindEntry(s.entries, ForWithdrawal(w))
    case Some(e) => if MatchesLines(s.entries[e], lines) then Some((s, e)) else None
    case None =>
      match CreateEntry(s, ForWithdrawal(w), lines)
      case Some(s1) => Some((s1, |s.entries|))
      case None => None
  }

  /** The transaction shared by both approval routes; they differ in the hold text they look for. */
  function SettleWithdrawal(s: State, w: nat, platformText: bool): Result {
    if w >= |s.withdrawals| || !s.withdrawals[w].status.Pending? || s.withdrawals[w].wallet !in s.wallets
    then Result(s, Refused)
    else
      var row := s.withdrawals[w];
      match CreateOrReuseEntry(s, w, PayoutLines(row.wallet, row.Cost()))
      case None => Result(s, Refused)
      case Some((s1, e)) =>
        assert row.wallet in s1.wallets.Keys;
        var wallet := s1.wallets[row.wallet];
        Result(s1.(withdrawals := s.withdrawals[w :=
                     row.(status := PayoutStatus.Processing, entry := Some(e), submitting := true)],
                   holds := ReleaseHolds(s1.holds, w, row.wallet, Some(platformText)),
                   wallets := s1.wallets[row.wallet :=
                     wallet.(balance := wallet.balance - row.Cost(), held := Max(0, wallet.held - row.Cost()))]),
               Debited)
  }

  function ApproveWithdrawal(s: State, w: nat, admin: nat, allowSelf: bool): Result {
    if w < |s.withdrawals| && s.withdrawals[w].user == admin && s.withdrawals[w].wallet.Platform? && !allowSelf
    then Result(s, Refused)
    else SettleWithdrawal(s, w, true)
  }

  /** The fee the provider takes: reported, else quoted in the metadata, else the withdrawal fee. */
  function ProviderFee(row: Withdrawal, reported: Option<nat>): int {
    if reported.Some? then reported.value
    else if row.providerFee.Some? && row.providerFee.value != 0 then row.providerFee.value
    else row.fee
  }

  /** Rewrites the amount of every line of an entry. */
  function Reprice(entry: Entry, amount: int): Entry {
    entry.(lines := seq(|entry.lines|, i requires 0 <= i < |entry.lines| => entry.lines[i].(amount := amount)))
  }

  function SubmitOrganizationPayout(s: State, w: nat, payout: Option<nat>, providerFee: int): Result
    requires w < |s.withdrawals|
  {
    var row := s.withdrawals[w];
    var share := Max(0, row.fee - providerFee);
    var done := row.(payout := payout, share := share, providerFee := Some(providerFee),
                     feeSplit := true, submitting := false);
    if share > 0 && !row.feeSplit then
      match CreateEntry(EnsureWallet(s, Platform), ForFeeShare(w), ShareLines(share))
      case None => Result(s, Refused)
      case Some(s1) =>
        var platform := s1.wallets[Platform];
        Result(s1.(wallets := s1.wallets[Platform := platform.(balance := platform.balance + share)],
                   withdrawals := s.withdrawals[w := done.(shareEntry := Some(|s.entries|))]), Done)
    else
      Result(s.(withdrawals := s.withdrawals[w := done]), Done)
  }

  function SubmitPlainPayout(s: State, w: nat, payout: Option<nat>, providerFee: int): Result
    requires w < |s.withdrawals|
  {
    var row := s.withdrawals[w];
    var done := row.(payout := payout, fee := providerFee, submitting := false);
    var difference := providerFee - row.fee;
    if difference == 0 then Result(s.(withdrawals := s.withdrawals[w := done]), Done)
    else if row.wallet !in s.wallets then Result(s, Refused)
    else
      var s1 := Adjust(Move(s, row.wallet, -difference), BankClearing, difference);
      var entries := if row.entry.Some? && row.entry.value < |s.entries|
                     then s.entries[row.entry.value := Reprice(s.entries[row.entry.value], row.amount + providerFee)]
                     else s.entries;
      Result(s1.(entries := entries, withdrawals := s.withdrawals[w := done]), Done)
  }

  predicate PayoutTaken(s: State, w: nat, payout: Option<nat>) {
    payout.Some? && exists v :: 0 <= v < |s.withdrawals| && v != w && s.withdrawals[v].payout == payout
  }

  /** The second transaction of the settling call; a repeated provider id is refused by the unique index. */
  function SubmitPayout(s: State, w: nat, payout: Option<nat>, reported: Option<nat>): Result {
    if w >= |s.withdrawals| || !s.withdrawals[w].submitting then Result(s, Refused)
    else if PayoutTaken(s, w, payout) then Result(s, Refused)
    else
      var row := s.withdrawals[w];
      var providerFee := ProviderFee(row, reported);
      if row.wallet.Organization? then SubmitOrganizationPayout(s, w, payout, providerFee)
      else SubmitPlainPayout(s, w, payout, providerFee)
  }

  function ReverseEntry(entries: seq<Entry>, e: Option<nat>): seq<Entry> {
    if e.Some? && e.value < |entries| then entries[e.value := entries[e.value].(status := Reversed)] else entries
  }

  /** `reverseOrganizationWithdrawalPlatformFee`: nothing unless a share was allocated. */
  function ReverseShare(s: State, w: nat, row: Withdrawal): State {
    if !row.feeSplit || row.share <= 0 then s
    else
      var e := if row.shareEntry.Some? then row.shareEntry else FindPostedShare(s.entries, w);
      var s1 := s.(entries := ReverseEntry(s.entries, e), clearing := s.clearing + row.share);
      if Platform in s1.wallets then Move(s1, Platform, -row.share) else s1
  }

  function FindPostedShare(entries: seq<Entry>, w: nat): (r: Option<nat>)
    ensures r.Some? ==>
              r.value < |entries| && entries[r.value].source == ForFeeShare(w) && entries[r.value].status.Posted?
    ensures r.None? ==>
              forall e :: 0 <= e < |entries| && entries[e].source == ForFeeShare(w) ==> entries[e].status.Reversed?
  {
    if entries == [] then None
    else
      var last := |entries| - 1;
      if entries[last].source == ForFeeShare(w) && entries[last].status.Posted? then Some(last)
      else FindPostedShare(entries[..last], w)
  }

  /** Returns the full cost to the wallet, takes it out of 1100, and reverses the entries. */
  function Refund(s: State, w: nat, row: Withdrawal): State
    requires row.wallet in s.wallets
  {
    var s1 := Adjust(Move(s, row.wallet, row.Cost()), BankClearing, -row.Cost());
    ReverseShare(s1.(entries := ReverseEntry(s1.entries, row.entry)), w, row)
  }

  /** Runs when the submission failed; does nothing once a provider payout is recorded. */
  function CompensateWithdrawal(s: State, w: nat): Result {
    if w >= |s.withdrawals| || !s.withdrawals[w].submitting then Result(s, Refused)
    else
      var row := s.withdrawals[w].(submitting := false);
      if !row.status.Processing? || row.payout.Some? then Result(s.(withdrawals := s.withdrawals[w := row]), Unchanged)
      else if row.wallet !in s.wallets then Result(s, Refused)
      else
        var s1 := s.(withdrawals := s.withdrawals[w := row.(status := PayoutStatus.Failed)]);
        Result(Refund(s1, w, row), Refunded)
  }

  function RejectWithdrawal(s: State, w: nat): Result {
    if w >= |s.withdrawals| || !s.withdrawals[w].status.Pending? || s.withdrawals[w].wallet !in s.wallets
    then Result(s, Refused)
    else
      var row := s.withdrawals[w];
      var wallet := s.wallets[row.wallet];
      Result(s.(withdrawals := s.withdrawals[w := row.(status := PayoutStatus.Failed)],
                holds := ReleaseHolds(s.holds, w, row.wallet, None),
                wallets := s.wallets[row.wallet := wallet.(held := Max(0, wallet.held - row.Cost()))]), Done)
  }

  function CompletePayout(s: State, w: nat): Result {
    if w >= |s.withdrawals| then Result(s, Refused)
    else
      var row := s.withdrawals[w];
      if row.status.Completed? then Result(s, Unchanged)
      else if !row.status.Processing? then Result(s, Refused)
      else Result(s.(withdrawals := s.withdrawals[w := row.(status := PayoutStatus.Completed)]), Done)
  }

  /** The provider reports a failed payout; the wallet gets its money back only from PROCESSING. */
  function FailPayout(s: State, w: nat): Result {
    if w >= |s.withdrawals| || s.withdrawals[w].wallet !in s.wallets then Result(s, Refused)
    else
      var row := s.withdrawals[w];
      if row.status.Failed? then Result(s, Unchanged)
      else
        var wallet := s.wallets[row.wallet];
        var s1 := s.(withdrawals := s.withdrawals[w := row.(status := PayoutStatus.Failed)],
                     holds := ReleaseHolds(s.holds, w, row.wallet, Some(false)),
                     wallets := s.wallets[row.wallet := wallet.(held := Max(0, wallet.held - row.Cost()))]);
        if row.status.Processing? then Result(Refund(s1, w, row), Refunded)
        else Result(ReverseShare(s1.(entries := ReverseEntry(s1.entries, row.entry)), w, row), Done)
  }

  function MarkPayoutPending(s: State, w: nat): Result {
    if w >= |s.withdrawals| then Result(s, Refused)
    else
      var row := s.withdrawals[w];
      if row.status.Completed? || row.status.Failed? then Result(s, Unchanged)
      else Result(s.(withdrawals := s.withdrawals[w := row.(status := PayoutStatus.Processing)]), Done)
  }

  function Step(policy: FeePolicy, s: State, event: Event): Result {
    match event
    case Request(user, owner, amount) => RequestWithdrawal(policy, s, user, owner, amount)
    case Settle(w) => SettleWithdrawal(s, w, false)
    case ApprovePlatform(w, admin, allowSelf) => ApproveWithdrawal(s, w, admin, allowSelf)
    case Submit(w, payout, reported) => SubmitPayout(s, w, payout, reported)
    case Compensate(w) => CompensateWithdrawal(s, w)
    case Reject(w) => RejectWithdrawal(s, w)
    case PayoutSucceeded(w) => CompletePayout(s, w)
    case PayoutFailed(w) => FailPayout(s, w)
    case PayoutPending(w) => MarkPayoutPending(s, w)
  }
}
