/**
  The reconciliation report recomputes each account from the posted lines of a date range,
  debits minus credits, and compares with the balance of today. A collection raises the
  wallet's account on its credit line, a payout lowers it on its credit line, so the
  report's own sign fits only one of the two.
 */
module Reconciliation {
  import opened Tables
  import opened Books
  import opened Charges
  import opened Invariants
  import opened Steps
  import opened Runs

  /** What the report adds up for an account, over the entries dated within its range. */
  function Reported(entries: seq<Entry>, within: seq<bool>, account: Account): int
    requires |within| == |entries|
  {
    if entries == [] then 0
    else
      var last := |entries| - 1;
      Reported(entries[..last], within[..last], account) + if within[last] then NetOn(account)(entries[last]) else 0
  }

  function Outside(within: seq<bool>): seq<bool> {
    seq(|within|, e requires 0 <= e < |within| => !within[e])
  }

  /** `isReconciled` of one account. */
  predicate Reconciles(s: State, within: seq<bool>, account: Account)
    requires HasAccount(s, account) && |within| == |s.entries|
  {
    AccountBalance(s, account) == Reported(s.entries, within, account)
  }

  /** What Bachs collections credited to an account so far. */
  function Collected(s: State, account: Account): int {
    Sum(s.entries, CollectedOn(account))
  }

  lemma {:induction false} RangesSplit(entries: seq<Entry>, within: seq<bool>, account: Account)
    requires |within| == |entries|
    ensures Reported(entries, within, account) + Reported(entries, Outside(within), account)
         == Sum(entries, NetOn(account))
  {
    if entries != [] {
      var last := |entries| - 1;
      RangesSplit(entries[..last], within[..last], account);
      assert Outside(within)[..last] == Outside(within[..last]);
    }
  }

  /**
    After any run in the provider's order, for any date range: what the report misses is
    what the entries outside the range add up to, and for a wallet twice what Bachs ever
    paid into it; the account reconciles exactly when the two cancel.
   */
  lemma ReconcilesExactly(policy: FeePolicy, events: seq<Event>, within: seq<bool>, account: Account)
    requires policy.Valid() && Along(policy, EMPTY, events, Orderly)
    requires HasAccount(Run(policy, EMPTY, events), account) && |within| == |Run(policy, EMPTY, events).entries|
    ensures
      var t := Run(policy, EMPTY, events);
      var missed := Reported(t.entries, Outside(within), account)
                    + if account.WalletAccount? then 2 * Collected(t, account) else 0;
      && AccountBalance(t, account) - Reported(t.entries, within, account) == missed
      && (Reconciles(t, within, account) <==> missed == 0)
  {
    EmptyIsFine();
    RunSettles(policy, EMPTY, events);
    var t := Run(policy, EMPTY, events);
    assert LedgerOf(t, account) == AccountBalance(t, account);
    RangesSplit(t.entries, within, account);
  }

  lemma {:induction false} NothingOutside(entries: seq<Entry>, within: seq<bool>, account: Account)
    requires |within| == |entries| && forall e :: 0 <= e < |within| ==> within[e]
    ensures Reported(entries, Outside(within), account) == 0
  {
    if entries != [] {
      var last := |entries| - 1;
      NothingOutside(entries[..last], within[..last], account);
      assert Outside(within)[..last] == Outside(within[..last]);
    }
  }

  /** Over the whole journal an account reconciles exactly when it is no wallet, or one Bachs never paid into. */
  lemma WholeJournalReconcilesExactly(policy: FeePolicy, events: seq<Event>, within: seq<bool>, account: Account)
    requires policy.Valid() && Along(policy, EMPTY, events, Orderly)
    requires HasAccount(Run(policy, EMPTY, events), account) && |within| == |Run(policy, EMPTY, events).entries|
    requires forall e :: 0 <= e < |within| ==> within[e]
    ensures
      var t := Run(policy, EMPTY, events);
      Reconciles(t, within, account) <==> !account.WalletAccount? || Collected(t, account) == 0
  {
    ReconcilesExactly(policy, events, within, account);
    NothingOutside(Run(policy, EMPTY, events).entries, within, account);
  }
}
