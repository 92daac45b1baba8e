/**
  Requests that are taken back: by a failed submission, or by a rejection.
 */
module Undo {
  import opened Tables
  import opened Books
  import opened Charges
  import opened Withdrawals
  import opened Invariants
  import opened PayoutProofs
  import opened RefundProofs

  /** Everything but the history rows: money columns, collections, and the rows of other withdrawals. */
  ghost predicate SameBooks(s: State, t: State) {
    && t.wallets == s.wallets && t.clearing == s.clearing && t.settlement == s.settlement
    && t.pendings == s.pendings && t.payments == s.payments && t.dues == s.dues
    && |t.withdrawals| == |s.withdrawals| + 1 && t.withdrawals[..|s.withdrawals|] == s.withdrawals
    && t.withdrawals[|s.withdrawals|].status.Failed?
  }

  lemma AcceptedRequest(policy: FeePolicy, s: State, user: nat, owner: Owner, amount: int)
    requires policy.Valid() && Sound(s) && RequestWithdrawal(policy, s, user, owner, amount).outcome.Done?
    ensures var s1 := EnsureWallet(s, owner);
            var t := RequestWithdrawal(policy, s, user, owner, amount).state;
            && Fee(policy, FixedFee(owner), amount) >= 0
            && t == RequestedState(s1, user, owner, amount, Fee(policy, FixedFee(owner), amount))
            && Sound(t) && GoodRow(t, |s.withdrawals|)
  {
    WalletEnsured(s, owner);
    FeeIsMonotone(policy, FixedFee(owner), amount, amount);
    RequestSound(EnsureWallet(s, owner), user, owner, amount, Fee(policy, FixedFee(owner), amount));
  }

  /** The three written-out states in a row bring every money column back. */
  lemma BackAgain(s: State, user: nat, owner: Owner, amount: int, fee: int, platformText: bool)
    requires owner in s.wallets
    ensures var w := |s.withdrawals|;
            var settled := SettledState(RequestedState(s, user, owner, amount, fee), w, platformText);
            var undone := RefundedState(settled, w, settled.wallets[owner].held, false);
            && undone.clearing == s.clearing && undone.withdrawals[..w] == s.withdrawals
            && undone.wallets == s.wallets[owner := s.wallets[owner].(held := Max(0, s.wallets[owner].held))]
  {
    var w := |s.withdrawals|;
    var settled := SettledState(RequestedState(s, user, owner, amount, fee), w, platformText);
    var undone := RefundedState(settled, w, settled.wallets[owner].held, false);
    assert undone.wallets[owner] == s.wallets[owner].(held := Max(0, s.wallets[owner].held));
  }

  /** The request is settled, and compensated, to the written-out states. */
  lemma SettledAndCompensated(s: State, w: nat, platformText: bool)
    requires Sound(s) && w < |s.withdrawals| && s.withdrawals[w].status.Pending? && s.withdrawals[w].payout.None?
    requires s.withdrawals[w].wallet in s.wallets
    ensures var settled := SettledState(s, w, platformText);
            && SettleWithdrawal(s, w, platformText) == Result(settled, Debited)
            && CompensateWithdrawal(settled, w)
               == Result(RefundedState(settled, w, settled.wallets[s.withdrawals[w].wallet].held, false), Refunded)
  {
    SettleResult(s, w, platformText);
    SettleSound(s, w, platformText);
    CompensateResult(SettledState(s, w, platformText), w);
  }

  /** Request, settle, then a failed submission: the books are as before, and both entries cancel. */
  lemma CompensationUndoes(policy: FeePolicy, s: State, user: nat, owner: Owner, amount: int, platformText: bool)
    requires policy.Valid() && Sound(s)
    requires RequestWithdrawal(policy, s, user, owner, amount).outcome.Done?
    ensures var w := |s.withdrawals|;
            var settled := SettleWithdrawal(RequestWithdrawal(policy, s, user, owner, amount).state, w, platformText);
            var undone := CompensateWithdrawal(settled.state, w);
            && settled.outcome.Debited? && undone.outcome.Refunded?
            && (SameBooks(EnsureWallet(s, owner), undone.state) <==> HeldBy(s, owner) >= 0)
            && |undone.state.entries| == |s.entries| + 1 && s.entries <= undone.state.entries
            && undone.state.entries[|s.entries|].status.Reversed?
  {
    var w := |s.withdrawals|;
    AcceptedRequest(policy, s, user, owner, amount);
    SettledAndCompensated(RequestWithdrawal(policy, s, user, owner, amount).state, w, platformText);
    Compensated(EnsureWallet(s, owner), user, owner, amount, Fee(policy, FixedFee(owner), amount), platformText);
    assert HeldBy(s, owner) == EnsureWallet(s, owner).wallets[owner].held;
  }

  lemma Compensated(s: State, user: nat, owner: Owner, amount: int, fee: int, platformText: bool)
    requires owner in s.wallets
    ensures var w := |s.withdrawals|;
            var settled := SettledState(RequestedState(s, user, owner, amount, fee), w, platformText);
            var undone := RefundedState(settled, w, settled.wallets[owner].held, false);
            && (SameBooks(s, undone) <==> s.wallets[owner].held >= 0)
            && |undone.entries| == |s.entries| + 1 && s.entries <= undone.entries
            && undone.entries[|s.entries|].status.Reversed?
  {
    BackAgain(s, user, owner, amount, fee, platformText);
    assert s.wallets[owner := s.wallets[owner]] == s.wallets;
  }

  /** Request, then reject: the books are as before and nothing was posted. */
  lemma RejectionUndoes(policy: FeePolicy, s: State, user: nat, owner: Owner, amount: int)
    requires policy.Valid() && Sound(s)
    requires RequestWithdrawal(policy, s, user, owner, amount).outcome.Done?
    ensures var rejected := RejectWithdrawal(RequestWithdrawal(policy, s, user, owner, amount).state, |s.withdrawals|);
            && rejected.outcome.Done? && rejected.state.entries == s.entries
            && (SameBooks(EnsureWallet(s, owner), rejected.state) <==> HeldBy(s, owner) >= 0)
  {
    var w := |s.withdrawals|;
    AcceptedRequest(policy, s, user, owner, amount);
    var rejected := RejectWithdrawal(RequestWithdrawal(policy, s, user, owner, amount).state, w).state;
    var before := EnsureWallet(s, owner);
    assert rejected.wallets[owner] == before.wallets[owner].(held := Max(0, before.wallets[owner].held));
    assert rejected.wallets == before.wallets[owner := rejected.wallets[owner]];
    assert rejected.withdrawals[..w] == s.withdrawals;
  }

  /** Once a provider payout is recorded, compensation only ends the submitting call. */
  lemma CompensationStopsAtPayout(s: State, w: nat)
    requires w < |s.withdrawals| && s.withdrawals[w].payout.Some?
    ensures var t := CompensateWithdrawal(s, w).state;
            && t == s.(withdrawals := t.withdrawals)
            && t.withdrawals == s.withdrawals[w := s.withdrawals[w].(submitting := false)]
  {
    assert s.withdrawals[w := s.withdrawals[w]] == s.withdrawals;
  }
}
