/**
  What each step of a withdrawal answers and writes, said of the rows themselves: when it is
  accepted, what it moves, and what it leaves alone.
 */
module Payouts {
  import opened Tables
  import opened Books
  import opened Charges
  import opened Withdrawals
  import opened Invariants
  import opened PayoutProofs
  import opened Steps
  import opened Balances

  // ---------- Requests ----------

  /** The fee an owner pays: a fixed one, or for users what is configured. */
  lemma FeeOfOwner(policy: FeePolicy, owner: Owner, amount: int)
    ensures owner.Organization? ==> Fee(policy, FixedFee(owner), amount) == 10_000
    ensures owner.Platform? ==> Fee(policy, FixedFee(owner), amount) == 5_000
    ensures owner.User? && !policy.enabled ==> Fee(policy, FixedFee(owner), amount) == 0
    ensures owner.User? ==> FixedFee(owner).None?
  {}

  /** A request is accepted exactly when it is large enough and its cost is spendable. */
  lemma RequestAcceptedExactly(policy: FeePolicy, s: State, user: nat, owner: Owner, amount: int)
    ensures var r := RequestWithdrawal(policy, s, user, owner, amount);
            && (r.outcome.Done?
                <==> amount >= 100 && amount + Fee(policy, FixedFee(owner), amount) <= Slack(s, owner))
            && (!r.outcome.Done? ==>
                  && r.outcome.Refused? && r.state == s.(wallets := r.state.wallets)
                  && forall o :: BalanceAt(r.state, o) == BalanceAt(s, o) && HeldBy(r.state, o) == HeldBy(s, o))
  {}

  /** An accepted one holds its cost, writes one pending row and one ACTIVE hold of it, and moves no money. */
  lemma RequestWritesExactly(policy: FeePolicy, s: State, user: nat, owner: Owner, amount: int)
    requires RequestWithdrawal(policy, s, user, owner, amount).outcome.Done?
    ensures var t := RequestWithdrawal(policy, s, user, owner, amount).state;
            var w, fee := |s.withdrawals|, Fee(policy, FixedFee(owner), amount);
            && t == s.(wallets := t.wallets, withdrawals := t.withdrawals, holds := t.holds)
            && |t.withdrawals| == w + 1 && t.withdrawals[..w] == s.withdrawals
            && |t.holds| == |s.holds| + 1 && t.holds[..|s.holds|] == s.holds
            && t.holds[|s.holds|] == Hold(owner, amount + fee, w, owner.Platform?, true)
            && (forall o :: BalanceAt(t, o) == BalanceAt(s, o))
            && (forall o :: HeldBy(t, o) == HeldBy(s, o) + if o == owner then amount + fee else 0)
            && var row := t.withdrawals[w];
               && row.user == user && row.wallet == owner && row.amount == amount && row.fee == fee
               && row.status.Pending? && row.payout.None? && row.entry.None? && !row.submitting && !row.feeSplit
               && row.providerFee == (if owner.User? then None else Some(5_000))
               && row.share == (if owner.Organization? then 5_000 else 0)
  {}

  // ---------- Approval and settlement ----------

  /** A pending withdrawal is settled by an administrator unless it is the platform's own and asked for by them. */
  lemma ApprovedExactly(s: State, w: nat, admin: nat, allowSelf: bool)
    requires Sound(s)
    ensures var r := ApproveWithdrawal(s, w, admin, allowSelf);
            && (r.outcome.Debited?
                <==> && w < |s.withdrawals| && s.withdrawals[w].status.Pending?
                     && !(s.withdrawals[w].wallet.Platform? && s.withdrawals[w].user == admin && !allowSelf))
            && r == if r.outcome.Debited? then SettleWithdrawal(s, w, true) else Result(s, Refused)
  {
    if w < |s.withdrawals| && s.withdrawals[w].status.Pending? { SettleResult(s, w, true); }
  }

  lemma SettledExactly(s: State, w: nat, platformText: bool)
    requires Sound(s)
    ensures var r := SettleWithdrawal(s, w, platformText);
            && (r.outcome.Debited? <==> w < |s.withdrawals| && s.withdrawals[w].status.Pending?)
            && (!r.outcome.Debited? ==> r == Result(s, Refused))
  {
    if w < |s.withdrawals| && s.withdrawals[w].status.Pending? { SettleResult(s, w, platformText); }
  }

  /** A settlement takes the cost into 1100, posts it, ends the reserve, and marks the row as submitting. */
  lemma SettlementWrites(s: State, w: nat, platformText: bool)
    requires Sound(s) && w < |s.withdrawals| && s.withdrawals[w].status.Pending?
    ensures var t := SettleWithdrawal(s, w, platformText).state;
            var row := s.withdrawals[w];
            var cost := row.amount + row.fee;
            && t == s.(wallets := t.wallets, clearing := s.clearing + cost, withdrawals := t.withdrawals,
                       holds := t.holds, entries := t.entries)
            && t.withdrawals == s.withdrawals[w :=
                 row.(status := PayoutStatus.Processing, entry := Some(|s.entries|), submitting := true)]
            && t.holds == ReleaseHolds(s.holds, w, row.wallet, Some(platformText))
            && |t.entries| == |s.entries| + 1 && t.entries[..|s.entries|] == s.entries
            && t.entries[|s.entries|]
               == Entry(ForWithdrawal(w), [Line(BankClearing, Debit, cost, Plain),
                                           Line(WalletAccount(row.wallet), Credit, cost, Plain)], Posted, true)
            && (forall o :: BalanceAt(t, o) == BalanceAt(s, o) - if o == row.wallet then cost else 0)
            && (forall o :: HeldBy(t, o) == if o == row.wallet then Max(0, HeldBy(s, o) - cost) else HeldBy(s, o))
  {
    assert GoodRow(s, w);
    SettleResult(s, w, platformText);
  }

  /** A hold is released exactly when it is this withdrawal's, ACTIVE, and has the text looked for. */
  lemma HoldsReleasedExactly(holds: seq<Hold>, w: nat, owner: Owner, platformText: Option<bool>, i: nat)
    requires i < |holds|
    ensures |ReleaseHolds(holds, w, owner, platformText)| == |holds|
    ensures var hold, after := holds[i], ReleaseHolds(holds, w, owner, platformText)[i];
            && after == hold.(active := after.active)
            && (after.active
                <==> hold.active
                     && !(hold.withdrawal == w && hold.wallet == owner
                          && (platformText == None || platformText == Some(hold.platformText))))
  {}

  // ---------- Submission ----------

  /** The provider took `fee`: it said so, or else what was quoted with the request, or else what was charged. */
  predicate Took(row: Withdrawal, reported: Option<nat>, fee: int) {
    || reported == Some(fee)
    || (reported == None && fee != 0 && row.providerFee == Some(fee))
    || (reported == None && (row.providerFee == None || row.providerFee == Some(0)) && fee == row.fee)
  }

  lemma OneFeeIsTaken(row: Withdrawal, reported: Option<nat>)
    ensures exists fee :: Took(row, reported, fee)
    ensures forall f, g :: Took(row, reported, f) && Took(row, reported, g) ==> f == g
  {
    if reported.Some? {
      assert Took(row, reported, reported.value);
    } else if row.providerFee.Some? && row.providerFee.value != 0 {
      assert Took(row, reported, row.providerFee.value);
    } else {
      assert Took(row, reported, row.fee);
    }
  }

  /** No other withdrawal has this provider payout. */
  predicate NewPayout(s: State, w: nat, payout: Option<nat>) {
    payout.Some? ==> forall v :: 0 <= v < |s.withdrawals| && s.withdrawals[v].payout == payout ==> v == w
  }

  /** Accepted exactly for a call that is submitting, with a payout nobody has. */
  lemma SubmittedExactly(s: State, w: nat, payout: Option<nat>, reported: Option<nat>)
    requires Sound(s)
    ensures var r := SubmitPayout(s, w, payout, reported);
            && (r.outcome.Done? <==> w < |s.withdrawals| && s.withdrawals[w].submitting && NewPayout(s, w, payout))
            && (!r.outcome.Done? ==> r == Result(s, Refused))
  {
    if w < |s.withdrawals| && s.withdrawals[w].submitting {
      SubmissionAccepted(s, w, payout, reported);
      SubmitMoney(s, w, payout, reported, Platform);
    }
  }

  /** What an organisation paid beyond the provider's fee goes to the platform, posted and recorded once. */
  lemma OrganizationSubmission(s: State, w: nat, payout: Option<nat>, reported: Option<nat>, fee: int)
    requires Sound(s) && SubmitPayout(s, w, payout, reported).outcome.Done? && s.withdrawals[w].wallet.Organization?
    requires Took(s.withdrawals[w], reported, fee)
    ensures var t := SubmitPayout(s, w, payout, reported).state;
            var row := s.withdrawals[w];
            var share, e := Max(0, row.fee - fee), |s.entries|;
            && t == s.(wallets := t.wallets, clearing := s.clearing - share, withdrawals := t.withdrawals,
                       entries := t.entries)
            && t.withdrawals == s.withdrawals[w :=
                 row.(payout := payout, providerFee := Some(fee), share := share, feeSplit := true, submitting := false,
                      shareEntry := if share > 0 then Some(e) else row.shareEntry)]
            && t.entries == s.entries + (if share > 0
                 then [Entry(ForFeeShare(w), [Line(WalletAccount(Platform), Debit, share, PayoutFeeShare),
                                              Line(BankClearing, Credit, share, Plain)], Posted, true)] else [])
            && (forall o :: BalanceAt(t, o) == BalanceAt(s, o) + if o.Platform? then share else 0)
            && (forall o :: HeldBy(t, o) == HeldBy(s, o))
  {
    assert GoodRow(s, w);
    SubmitOrganizationResult(s, w, payout, fee);
    forall o ensures BalanceAt(SubmitPayout(s, w, payout, reported).state, o)
                  == BalanceAt(s, o) + if o.Platform? then Max(0, s.withdrawals[w].fee - fee) else 0 {
      SubmitMoney(s, w, payout, reported, o);
    }
    SubmitFrame(s, w, payout, reported);
  }

  /** A user or the platform pays what the provider took: the difference moves, and the posted lines follow. */
  lemma PlainSubmission(s: State, w: nat, payout: Option<nat>, reported: Option<nat>, fee: int)
    requires Sound(s) && SubmitPayout(s, w, payout, reported).outcome.Done? && !s.withdrawals[w].wallet.Organization?
    requires Took(s.withdrawals[w], reported, fee)
    ensures var t := SubmitPayout(s, w, payout, reported).state;
            var row := s.withdrawals[w];
            && t == s.(wallets := t.wallets, clearing := s.clearing + fee - row.fee, withdrawals := t.withdrawals,
                       entries := t.entries)
            && t.withdrawals == s.withdrawals[w := row.(payout := payout, fee := fee, submitting := false)]
            && (forall o :: BalanceAt(t, o) == BalanceAt(s, o) - if o == row.wallet then fee - row.fee else 0)
            && (forall o :: HeldBy(t, o) == HeldBy(s, o))
  {
    assert GoodRow(s, w);
    forall o ensures BalanceAt(SubmitPayout(s, w, payout, reported).state, o)
                  == BalanceAt(s, o) - if o == s.withdrawals[w].wallet then fee - s.withdrawals[w].fee else 0 {
      SubmitMoney(s, w, payout, reported, o);
    }
    SubmitFrame(s, w, payout, reported);
  }

  /** Both lines of the withdrawal's entry then have its amount and the provider's fee; no other entry changes. */
  lemma PlainSubmissionReposts(s: State, w: nat, payout: Option<nat>, reported: Option<nat>, fee: int, k: nat)
    requires Sound(s) && SubmitPayout(s, w, payout, reported).outcome.Done? && !s.withdrawals[w].wallet.Organization?
    requires Took(s.withdrawals[w], reported, fee) && k < |s.entries|
    ensures var t, row := SubmitPayout(s, w, payout, reported).state, s.withdrawals[w];
            && |t.entries| == |s.entries|
            && t.entries[k]
               == if row.entry == Some(k) && fee != row.fee
                  then s.entries[k].(lines := [Line(BankClearing, Debit, row.amount + fee, Plain),
                                               Line(WalletAccount(row.wallet), Credit, row.amount + fee, Plain)])
                  else s.entries[k]
  {
    assert GoodRow(s, w) && GoodEntry(s, s.entries[k]);
  }

  // ---------- Ends ----------

  /** A failed submission refunds exactly a row that is PROCESSING without a payout, and always ends the call. */
  lemma CompensatedExactly(s: State, w: nat)
    requires Sound(s)
    ensures var r := CompensateWithdrawal(s, w);
            if w >= |s.withdrawals| || !s.withdrawals[w].submitting then r == Result(s, Refused)
            else
              var row := s.withdrawals[w].(submitting := false);
              if s.withdrawals[w].status.Processing? && s.withdrawals[w].payout == None
              then
                && r.outcome.Refunded?
                && r.state == s.(wallets := r.state.wallets, clearing := s.clearing - row.amount - row.fee,
                                 withdrawals := s.withdrawals[w := row.(status := PayoutStatus.Failed)],
                                 entries := r.state.entries)
                && EntriesReversed(s, r.state, row.entry)
                && (forall o :: BalanceAt(r.state, o) == BalanceAt(s, o)
                                  + if o == row.wallet then row.amount + row.fee else 0)
                && (forall o :: HeldBy(r.state, o) == HeldBy(s, o))
              else r == Result(s.(withdrawals := s.withdrawals[w := row]), Unchanged)
  {
    if w < |s.withdrawals| && s.withdrawals[w].submitting {
      assert GoodRow(s, w);
      forall o { CompensateMoney(s, w, o); }
    }
  }

  /** Only the entry with this identifier changes, and only by being reversed. */
  predicate EntriesReversed(s: State, t: State, e: Option<nat>) {
    && |t.entries| == |s.entries|
    && forall k :: 0 <= k < |s.entries| ==>
         t.entries[k] == if e == Some(k) then s.entries[k].(status := Reversed) else s.entries[k]
  }

  lemma RejectedExactly(s: State, w: nat)
    requires Sound(s)
    ensures var r := RejectWithdrawal(s, w);
            if w >= |s.withdrawals| || !s.withdrawals[w].status.Pending? then r == Result(s, Refused)
            else
              var row := s.withdrawals[w];
              && r.outcome.Done?
              && r.state == s.(wallets := r.state.wallets, holds := r.state.holds,
                               withdrawals := s.withdrawals[w := row.(status := PayoutStatus.Failed)])
              && r.state.holds == ReleaseHolds(s.holds, w, row.wallet, None)
              && (forall o :: BalanceAt(r.state, o) == BalanceAt(s, o))
              && (forall o :: HeldBy(r.state, o)
                    == if o == row.wallet then Max(0, HeldBy(s, o) - row.amount - row.fee) else HeldBy(s, o))
  {
    if w < |s.withdrawals| { assert GoodRow(s, w); }
  }

  // ---------- Webhooks ----------

  /** A success completes a PROCESSING withdrawal, a repeated one changes nothing, any other is refused. */
  lemma SucceededExactly(s: State, w: nat)
    ensures var r := CompletePayout(s, w);
            if w < |s.withdrawals| && s.withdrawals[w].status == PayoutStatus.Processing
            then r == Result(s.(withdrawals := s.withdrawals[w := s.withdrawals[w].(status := PayoutStatus.Completed)]),
                             Done)
            else if w < |s.withdrawals| && s.withdrawals[w].status == PayoutStatus.Completed
            then r == Result(s, Unchanged)
            else r == Result(s, Refused)
  {}

  /** A pending notice makes an open withdrawal PROCESSING and leaves an ended one alone. */
  lemma NoticedPendingExactly(s: State, w: nat)
    requires w < |s.withdrawals|
    ensures var r, status := MarkPayoutPending(s, w), s.withdrawals[w].status;
            var ended := status == PayoutStatus.Completed || status == PayoutStatus.Failed;
            && (r.outcome.Unchanged? <==> ended) && (ended ==> r.state == s)
            && (!ended ==>
                  r.state.withdrawals[w] == s.withdrawals[w].(status := PayoutStatus.Processing)
                  && r.state == s.(withdrawals := s.withdrawals[w := r.state.withdrawals[w]]))
  {}

  /** The share an organisation's withdrawal has allocated to the platform. */
  function Allocated(row: Withdrawal): int {
    if row.feeSplit && row.share > 0 then row.share else 0
  }

  /**
    A failed notice ends any other withdrawal and releases its hold; from PROCESSING the cost
    comes back, and whatever the status was, an allocated share goes back.
   */
  lemma FailedExactly(s: State, w: nat)
    requires Sound(s) && w < |s.withdrawals|
    ensures var r, row := FailPayout(s, w), s.withdrawals[w];
            var cost, share := row.amount + row.fee, Allocated(row);
            if row.status.Failed? then r == Result(s, Unchanged)
            else
              && (r.outcome.Refunded? <==> row.status.Processing?)
              && r.state == s.(wallets := r.state.wallets, holds := r.state.holds, entries := r.state.entries,
                               clearing := s.clearing + share - (if row.status.Processing? then cost else 0),
                               withdrawals := s.withdrawals[w := row.(status := PayoutStatus.Failed)])
              && r.state.holds == ReleaseHolds(s.holds, w, row.wallet, Some(false))
  {
    assert GoodRow(s, w);
  }

  lemma FailedMoves(s: State, w: nat, o: Owner)
    requires Sound(s) && w < |s.withdrawals| && !s.withdrawals[w].status.Failed?
    ensures var t, row := FailPayout(s, w).state, s.withdrawals[w];
            var cost := row.amount + row.fee;
            && BalanceAt(t, o) == BalanceAt(s, o) + (if o == row.wallet && row.status.Processing? then cost else 0)
                                  - (if o.Platform? then Allocated(row) else 0)
            && HeldBy(t, o) == if o == row.wallet then Max(0, HeldBy(s, o) - cost) else HeldBy(s, o)
  {
    assert GoodRow(s, w);
    FailFrame(s, w);
    FailMoney(s, w, o);
  }

  /** The entry of the withdrawal's share: the recorded one, else the last of its share entries that is posted. */
  predicate IsShareEntry(s: State, w: nat, k: nat)
    requires w < |s.withdrawals| && k < |s.entries|
  {
    if s.withdrawals[w].shareEntry != None then s.withdrawals[w].shareEntry == Some(k)
    else PostedShare(s.entries[k], w) && forall j :: k < j < |s.entries| ==> !PostedShare(s.entries[j], w)
  }

  predicate PostedShare(entry: Entry, w: nat) {
    entry.source == ForFeeShare(w) && entry.status == Posted
  }

  lemma {:induction false} LastShareIsFound(entries: seq<Entry>, w: nat)
    ensures var found := FindPostedShare(entries, w);
            if found.None? then forall k :: 0 <= k < |entries| ==> !PostedShare(entries[k], w)
            else
              PostedShare(entries[found.value], w)
              && forall k :: found.value < k < |entries| ==> !PostedShare(entries[k], w)
  {
    if entries != [] {
      LastShareIsFound(entries[..|entries| - 1], w);
    }
  }

  lemma ShareReverses(s: State, w: nat, k: nat)
    requires w < |s.withdrawals| && k < |s.entries|
    requires forall e :: s.withdrawals[w].shareEntry == Some(e) ==> e < |s.entries|
    ensures var t, row := ReverseShare(s, w, s.withdrawals[w]), s.withdrawals[w];
            && |t.entries| == |s.entries|
            && t.entries[k] == if Allocated(row) > 0 && IsShareEntry(s, w, k)
                               then s.entries[k].(status := Reversed) else s.entries[k]
  {
    LastShareIsFound(s.entries, w);
  }

  lemma OwnReversalKeepsShare(s: State, t: State, w: nat, k: nat)
    requires Sound(s) && w < |s.withdrawals| && k < |s.entries|
    requires t.entries == ReverseEntry(s.entries, s.withdrawals[w].entry) && |t.withdrawals| == |s.withdrawals|
    requires t.withdrawals[w].shareEntry == s.withdrawals[w].shareEntry
    ensures |t.entries| == |s.entries| && (IsShareEntry(t, w, k) <==> IsShareEntry(s, w, k))
  {
    assert GoodRow(s, w);
    assert forall j :: 0 <= j < |s.entries| ==> PostedShare(t.entries[j], w) == PostedShare(s.entries[j], w);
  }

  /** Its entry is reversed, and that of an allocated share; no other changes. */
  lemma FailedReverses(s: State, w: nat, k: nat)
    requires Sound(s) && w < |s.withdrawals| && !s.withdrawals[w].status.Failed? && k < |s.entries|
    ensures var t, row := FailPayout(s, w).state, s.withdrawals[w];
            && |t.entries| == |s.entries|
            && t.entries[k] == if row.entry == Some(k) || (Allocated(row) > 0 && IsShareEntry(s, w, k))
                               then s.entries[k].(status := Reversed) else s.entries[k]
  {
    var row := s.withdrawals[w];
    var s1 := s.(entries := ReverseEntry(s.entries, row.entry));
    assert GoodRow(s, w);
    OwnReversalKeepsShare(s, s1, w, k);
    ShareReverses(s1, w, k);
    FailedEntries(s, w);
  }

  lemma FailedEntries(s: State, w: nat)
    requires Sound(s) && w < |s.withdrawals| && !s.withdrawals[w].status.Failed?
    ensures var row := s.withdrawals[w];
            FailPayout(s, w).state.entries
            == ReverseShare(s.(entries := ReverseEntry(s.entries, row.entry)), w, row).entries
  {
    assert GoodRow(s, w);
  }
}
