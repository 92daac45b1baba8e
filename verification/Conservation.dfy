/**
  Where money comes from, with no condition on the order of events: wallets and account
  1100 together always hold exactly what the recorded payments brought in. They hold what
  account 1200 says Bachs collected, and every entry of a collection balances, exactly as
  long as no payment is completed for other terms than its row's.
 */
module Conservation {
  import opened Tables
  import opened Books
  import opened Charges
  import W = Withdrawals
  import C = Collections
  import opened Invariants
  import opened PayoutProofs
  import opened RefundProofs
  import opened CollectionProofs
  import opened Steps

  /** The step credits a pending payment whose expected settlement is not its amount and fee. */
  predicate Mismatches(s: State, event: Event) {
    && event.Collection? && event.collection.Complete? && C.Step(s, event.collection).outcome.Credited?
    && event.collection.p < |s.pendings| && !GoodTerms(s.pendings[event.collection.p])
  }

  predicate Matched(s: State, event: Event) {
    !Mismatches(s, event)
  }

  // ---------- Payouts leave collections alone ----------

  /** The tables, and the account, that only collections write. */
  function CollectionTables(s: State): (seq<PendingPayment>, seq<Payment>, map<nat, Assignment>, int) {
    (s.pendings, s.payments, s.dues, s.settlement)
  }

  predicate PayoutAccounts(s: State, lines: seq<Line>) {
    forall line :: line in lines ==> HasAccount(s, line.account) && !line.account.BachsSettlement?
  }

  lemma {:induction false} LinesKeepCollections(s: State, lines: seq<Line>)
    ensures PayoutAccounts(s, lines) ==> CollectionTables(ApplyLines(s, lines)) == CollectionTables(s)
  {
    if lines != [] && PayoutAccounts(s, lines) {
      LinesKeepCollections(s, lines[..|lines| - 1]);
    }
  }

  lemma SettleKeepsCollections(s: State, w: nat, platformText: bool)
    ensures CollectionTables(W.SettleWithdrawal(s, w, platformText).state) == CollectionTables(s)
  {
    if w < |s.withdrawals| {
      LinesKeepCollections(s, PayoutLines(s.withdrawals[w].wallet, s.withdrawals[w].Cost()));
    }
  }

  lemma SubmitKeepsCollections(s: State, w: nat, payout: Option<nat>, reported: Option<nat>)
    ensures CollectionTables(W.SubmitPayout(s, w, payout, reported).state) == CollectionTables(s)
  {
    if w < |s.withdrawals| && s.withdrawals[w].wallet.Organization? {
      var providerFee := W.ProviderFee(s.withdrawals[w], reported);
      LinesKeepCollections(EnsureWallet(s, Platform), ShareLines(Max(0, s.withdrawals[w].fee - providerFee)));
    }
  }

  lemma PayoutKeepsCollections(policy: FeePolicy, s: State, event: W.Event)
    ensures CollectionTables(W.Step(policy, s, event).state) == CollectionTables(s)
  {
    match event
    case Settle(w) => SettleKeepsCollections(s, w, false);
    case ApprovePlatform(w, _, _) => SettleKeepsCollections(s, w, true);
    case Submit(w, payout, reported) => SubmitKeepsCollections(s, w, payout, reported);
    case _ =>
  }

  /** The entries of collections keep their lines, and none is added. */
  ghost predicate SameCollections(s: State, t: State) {
    && |s.entries| <= |t.entries|
    && (forall e :: 0 <= e < |s.entries| ==>
          && t.entries[e].source == s.entries[e].source
          && (s.entries[e].source.ForPayment? ==> t.entries[e].lines == s.entries[e].lines))
    && (forall e :: |s.entries| <= e < |t.entries| ==> !t.entries[e].source.ForPayment?)
  }

  lemma SubmitKeepsEntries(s: State, w: nat, payout: Option<nat>, reported: Option<nat>)
    requires Sound(s)
    ensures SameCollections(s, W.SubmitPayout(s, w, payout, reported).state)
  {
    if w < |s.withdrawals| && W.SubmitPayout(s, w, payout, reported).outcome.Done? {
      assert GoodRow(s, w);
      var providerFee := W.ProviderFee(s.withdrawals[w], reported);
      if s.withdrawals[w].wallet.Organization? {
        SubmitOrganizationResult(s, w, payout, providerFee);
      } else {
        SubmitPlainEntries(s, w, payout, providerFee);
      }
    }
  }

  lemma ShareReversalKeepsEntries(s: State, w: nat, row: Withdrawal)
    ensures SameCollections(s, W.ReverseShare(s, w, row))
  {}

  lemma ReversalKeepsEntries(s: State, w: nat, row: Withdrawal)
    ensures SameCollections(s, W.ReverseShare(s.(entries := W.ReverseEntry(s.entries, row.entry)), w, row))
  {
    ShareReversalKeepsEntries(s.(entries := W.ReverseEntry(s.entries, row.entry)), w, row);
  }

  lemma RefundKeepsEntries(s: State, w: nat, row: Withdrawal)
    requires row.wallet in s.wallets
    ensures SameCollections(s, W.Refund(s, w, row))
  {
    ReversalKeepsEntries(Adjust(Move(s, row.wallet, row.Cost()), BankClearing, -row.Cost()), w, row);
  }

  lemma RefundsKeepEntries(s: State, w: nat)
    requires w < |s.withdrawals| && s.withdrawals[w].wallet in s.wallets
    ensures SameCollections(s, W.CompensateWithdrawal(s, w).state) && SameCollections(s, W.FailPayout(s, w).state)
  {
    var row := s.withdrawals[w];
    var ended, failed := row.(submitting := false), row.(status := PayoutStatus.Failed);
    RefundKeepsEntries(s.(withdrawals := s.withdrawals[w := ended.(status := PayoutStatus.Failed)]), w, ended);
    var s1 := s.(withdrawals := s.withdrawals[w := failed],
                 holds := W.ReleaseHolds(s.holds, w, row.wallet, Some(false)),
                 wallets := s.wallets[row.wallet := s.wallets[row.wallet].(held := ReleasedTwice(s, w))]);
    RefundKeepsEntries(s1, w, row);
    ReversalKeepsEntries(s1, w, row);
  }

  lemma PayoutKeepsEntries(policy: FeePolicy, s: State, event: W.Event)
    requires Sound(s)
    ensures SameCollections(s, W.Step(policy, s, event).state)
  {
    match event
    case Settle(w) => if w < |s.withdrawals| && s.withdrawals[w].status.Pending? { SettleResult(s, w, false); }
    case ApprovePlatform(w, _, _) =>
      if w < |s.withdrawals| && s.withdrawals[w].status.Pending? { SettleResult(s, w, true); }
    case Submit(w, payout, reported) => SubmitKeepsEntries(s, w, payout, reported);
    case Compensate(w) => if w < |s.withdrawals| { assert GoodRow(s, w); RefundsKeepEntries(s, w); }
    case PayoutFailed(w) => if w < |s.withdrawals| { assert GoodRow(s, w); RefundsKeepEntries(s, w); }
    case _ =>
  }

  // ---------- Every step ----------

  /** What a completion takes from the total worth: what Bachs owes beyond what the wallets received. */
  function Drift(s: State, event: Event): int {
    if event.Collection? && event.collection.Complete? && C.Step(s, event.collection).outcome.Credited?
       && event.collection.p < |s.pendings|
    then s.pendings[event.collection.p].Expected() - Brought(PaymentOf(s.pendings[event.collection.p], 0))
    else 0
  }

  function PaymentOf(row: PendingPayment, charge: nat): Payment {
    Payment(row.reference, row.organization, row.amount, row.ServiceFee(), charge)
  }

  /** Only a credited completion adds a payment: that of its row, whose reference had none. */
  lemma CompletionRecords(s: State, event: C.Event)
    ensures var r := C.Step(s, event);
            if event.Complete? && r.outcome.Credited?
            then
              && event.p < |s.pendings| && !C.AlreadyPaid(s, s.pendings[event.p].reference)
              && r.state.payments == s.payments + [PaymentOf(s.pendings[event.p], event.charge)]
            else r.state.payments == s.payments
  {}

  lemma CreditSurplus(s: State, event: C.Event)
    requires event.Complete? && C.Step(s, event).outcome.Credited?
    ensures Surplus(C.Step(s, event).state) == Surplus(s)
    ensures Worth(C.Step(s, event).state) == Worth(s) - Drift(s, Collection(event))
  {
    CompletionRecords(s, event);
    CreditWorth(s, event.p, event.charge, event.amount);
    SumAppend(s.payments, PaymentOf(s.pendings[event.p], event.charge), Brought);
  }

  /** In any order, no step changes what the wallets hold beyond the recorded payments. */
  lemma StepKeepsSurplus(policy: FeePolicy, s: State, event: Event)
    requires policy.Valid() && Sound(s)
    ensures Surplus(Step(policy, s, event).state) == Surplus(s)
    ensures Worth(Step(policy, s, event).state) == Worth(s) - Drift(s, event)
  {
    match event
    case Payout(payout) =>
      StepKeepsSound(policy, s, event);
      PayoutKeepsCollections(policy, s, payout);
      SameWorthSameSurplus(s, Step(policy, s, event).state);
    case Collection(collection) =>
      if collection.Complete? && C.Step(s, collection).outcome.Credited? {
        CreditSurplus(s, collection);
      } else {
        QuietCollection(s, collection);
      }
  }

  lemma SameWorthSameSurplus(s: State, t: State)
    requires Worth(t) == Worth(s) && CollectionTables(t) == CollectionTables(s)
    ensures Surplus(t) == Surplus(s)
  {}

  lemma QuietCollection(s: State, event: C.Event)
    requires !(event.Complete? && C.Step(s, event).outcome.Credited?)
    ensures var t := C.Step(s, event).state;
            && t.wallets == s.wallets && t.clearing == s.clearing && t.settlement == s.settlement
            && t.payments == s.payments && t.entries == s.entries
  {}

  /** A step conserves the total worth exactly when it credits no payment on other terms. */
  lemma StepConservesExactly(policy: FeePolicy, s: State, event: Event)
    requires policy.Valid() && Sound(s)
    ensures Worth(Step(policy, s, event).state) == Worth(s) <==> Matched(s, event)
  {
    StepKeepsSurplus(policy, s, event);
  }

  /** The entries of collections all balance after a step exactly when they did and it credits none on other terms. */
  lemma StepBalancesExactly(policy: FeePolicy, s: State, event: Event)
    requires Sound(s)
    ensures CollectionsBalance(Step(policy, s, event).state) <==> CollectionsBalance(s) && Matched(s, event)
  {
    var t := Step(policy, s, event).state;
    match event
    case Payout(payout) =>
      PayoutKeepsEntries(policy, s, payout);
    case Collection(collection) =>
      if collection.Complete? && C.Step(s, collection).outcome.Credited? {
        CompletionConservesExactly(s, collection.p, collection.lookup, collection.charge, collection.amount);
        assert t.entries[..|s.entries|] == s.entries;
      } else {
        QuietCollection(s, collection);
      }
  }

  /** A step whose checkouts are for their rows' own amounts keeps the terms, so that it matches. */
  lemma StepKeepsTerms(policy: FeePolicy, s: State, event: Event)
    requires Sound(s) && TermsAgree(s) && SameTerms(s, event)
    ensures TermsAgree(Step(policy, s, event).state) && Matched(s, event)
  {
    match event
    case Payout(payout) => PayoutKeepsCollections(policy, s, payout);
    case Collection(collection) => CollectionKeepsTerms(s, collection);
  }

  /** Entries of payouts and shares always balance. */
  lemma EntriesBalance(s: State)
    requires Sound(s)
    ensures (forall e :: 0 <= e < |s.entries| ==> Balances(s.entries[e].lines)) <==> CollectionsBalance(s)
  {
    forall e | 0 <= e < |s.entries| && !s.entries[e].source.ForPayment? ensures Balances(s.entries[e].lines) {
      var entry := s.entries[e];
      assert GoodEntry(s, entry);
      assert entry.lines == [entry.lines[0], entry.lines[1]];
      PairFigures(entry.lines[0], entry.lines[1]);
    }
  }
}
