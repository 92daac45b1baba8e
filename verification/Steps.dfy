/**
  One step of the money engine, payouts and collections together: what every step
  keeps, and the caller-checkable conditions under which it keeps the finer layers.
 */
module Steps {
  import opened Tables
  import opened Books
  import opened Charges
  import W = Withdrawals
  import C = Collections
  import opened Invariants
  import opened PayoutProofs
  import opened RefundProofs
  import opened CollectionProofs

  datatype Event = Payout(payout: W.Event) | Collection(collection: C.Event)

  function Step(policy: FeePolicy, s: State, event: Event): Result {
    match event
    case Payout(payout) => W.Step(policy, s, payout)
    case Collection(collection) => C.Step(s, collection)
  }

  // ---------- Conditions ----------

  /** A reused pending payment is attached to a checkout of its own amount. */
  predicate SameTerms(s: State, event: Event) {
    event.Collection? ==> SameAmount(s, event.collection)
  }

  /** The submission leaves every balance as it is. */
  predicate MovesNoFee(row: Withdrawal, reported: Option<nat>) {
    if row.wallet.Organization? then W.ProviderFee(row, reported) >= row.fee
        else W.ProviderFee(row, reported) == row.fee
  }

  /**
    Provider events meet rows in the order the provider's life cycle has: a submission that
    is accepted after its row was refunded moves no fee, no completed payout fails, and none
    is pending before it was approved.
   */
  predicate Orderly(s: State, event: Event) {
    && (event.Payout? && event.payout.Submit? && event.payout.w < |s.withdrawals| ==>
          var row := s.withdrawals[event.payout.w];
          row.submitting && row.status.Failed? && !W.PayoutTaken(s, event.payout.w, event.payout.payout) ==>
            MovesNoFee(row, event.payout.reported))
    && (event.Payout? && event.payout.PayoutFailed? && event.payout.w < |s.withdrawals| ==>
          !s.withdrawals[event.payout.w].status.Completed?)
    && (event.Payout? && event.payout.PayoutPending? && event.payout.w < |s.withdrawals| ==>
          !s.withdrawals[event.payout.w].status.Pending?)
  }

  /**
    No event releases what others still hold, or leaves a reserve behind: the failed-payout
    webhook, which releases a debited withdrawal's hold again, meets a wallet that holds
    nothing, and the pending-payout webhook no PENDING withdrawal.
   */
  predicate KeepsReserves(s: State, event: Event) {
    && (event.Payout? && event.payout.PayoutFailed? && event.payout.w < |s.withdrawals|
        && s.withdrawals[event.payout.w].Paid() ==>
          HeldBy(s, s.withdrawals[event.payout.w].wallet) == 0)
    && (event.Payout? && event.payout.PayoutPending? && event.payout.w < |s.withdrawals| ==>
          !s.withdrawals[event.payout.w].status.Pending?)
  }

  // ---------- Soundness and worth: every payout event ----------

  lemma RequestKeeps(policy: FeePolicy, s: State, user: nat, owner: Owner, amount: int)
    requires policy.Valid() && Sound(s)
    ensures var t := W.RequestWithdrawal(policy, s, user, owner, amount).state;
            && Sound(t) && Worth(t) == Worth(s)
            && (Settled(s) ==> Settled(t)) && (Reserved(s) ==> Reserved(t))
  {
    WalletEnsured(s, owner);
    var r := W.RequestWithdrawal(policy, s, user, owner, amount);
    if r.outcome.Done? {
      var s1 := EnsureWallet(s, owner);
      var fee := Fee(policy, W.FixedFee(owner), amount);
      FeeIsMonotone(policy, W.FixedFee(owner), amount, amount);
      assert r.state == RequestedState(s1, user, owner, amount, fee);
      RequestSound(s1, user, owner, amount, fee);
      if Settled(s) { RequestSettled(s1, user, owner, amount, fee); }
      if Reserved(s) { RequestReserved(s1, user, owner, amount, fee); }
    }
  }

  lemma SettleKeeps(s: State, w: nat, platformText: bool)
    requires Sound(s)
    ensures var t := W.SettleWithdrawal(s, w, platformText).state;
            && Sound(t) && Worth(t) == Worth(s)
            && (Settled(s) ==> Settled(t)) && (Reserved(s) ==> Reserved(t))
  {
    if w < |s.withdrawals| && s.withdrawals[w].status.Pending? {
      SettleResult(s, w, platformText);
      SettleSound(s, w, platformText);
      if Settled(s) { SettleSettled(s, w, platformText); }
      if Reserved(s) { SettleReserved(s, w, platformText); }
    }
  }

  lemma ProviderFeeIsNatural(s: State, w: nat, reported: Option<nat>)
    requires Sound(s) && w < |s.withdrawals|
    ensures W.ProviderFee(s.withdrawals[w], reported) >= 0
  {
    assert GoodRow(s, w);
  }

  lemma SubmitSound(s: State, w: nat, payout: Option<nat>, reported: Option<nat>)
    requires Sound(s)
    ensures var t := W.SubmitPayout(s, w, payout, reported).state;
            Sound(t) && Worth(t) == Worth(s)
  {
    var r := W.SubmitPayout(s, w, payout, reported);
    if w < |s.withdrawals| && s.withdrawals[w].submitting && r.outcome.Done? {
      ProviderFeeIsNatural(s, w, reported);
      assert GoodRow(s, w);
      var providerFee := W.ProviderFee(s.withdrawals[w], reported);
      if s.withdrawals[w].wallet.Organization? {
        SubmitOrganizationResult(s, w, payout, providerFee);
        if s.withdrawals[w].fee > providerFee {
          WalletEnsured(s, Platform);
          SharedSound(EnsureWallet(s, Platform), w, payout, providerFee);
        } else {
          UnsharedKeeps(s, w, payout, providerFee);
        }
      } else {
        SubmitPlainSound(s, w, payout, providerFee);
      }
    }
  }

  /** A submission with a new payout id is never refused. */
  lemma SubmissionAccepted(s: State, w: nat, payout: Option<nat>, reported: Option<nat>)
    requires Sound(s) && w < |s.withdrawals| && s.withdrawals[w].submitting
    ensures W.SubmitPayout(s, w, payout, reported).outcome.Done? <==> !W.PayoutTaken(s, w, payout)
  {
    assert GoodRow(s, w);
    if s.withdrawals[w].wallet.Organization? {
      SubmitOrganizationResult(s, w, payout, W.ProviderFee(s.withdrawals[w], reported));
    }
  }

  lemma CompensateSound(s: State, w: nat)
    requires Sound(s)
    ensures var t := W.CompensateWithdrawal(s, w).state;
            Sound(t) && Worth(t) == Worth(s)
  {
    if w < |s.withdrawals| && s.withdrawals[w].submitting {
      assert GoodRow(s, w);
      var row := s.withdrawals[w];
      var held := s.wallets[row.wallet].held;
      assert s.wallets[row.wallet := s.wallets[row.wallet].(held := held)] == s.wallets;
      if row.status.Processing? && row.payout.None? {
        StatusSound(s, w, PayoutStatus.Failed, false, held);
        RefundSound(s.(withdrawals := s.withdrawals[w := row.(status := PayoutStatus.Failed, submitting := false)]),
                    w, row.(submitting := false));
      } else {
        StatusSound(s, w, row.status, false, held);
      }
    }
  }

  lemma RejectSound(s: State, w: nat)
    requires Sound(s)
    ensures var t := W.RejectWithdrawal(s, w).state;
            Sound(t) && Worth(t) == Worth(s)
  {
    if w < |s.withdrawals| && s.withdrawals[w].status.Pending? && s.withdrawals[w].wallet in s.wallets {
      var row := s.withdrawals[w];
      StatusSound(s, w, PayoutStatus.Failed, row.submitting, ReleasedTwice(s, w));
      HoldsSound(s.(withdrawals := s.withdrawals[w := row.(status := PayoutStatus.Failed)],
                    wallets := s.wallets[row.wallet := s.wallets[row.wallet].(held := ReleasedTwice(s, w))]),
                 W.ReleaseHolds(s.holds, w, row.wallet, None));
    }
  }

  lemma WebhookSound(s: State, w: nat, status: PayoutStatus)
    requires Sound(s) && !status.Pending? && w < |s.withdrawals|
    ensures var t := s.(withdrawals := s.withdrawals[w := s.withdrawals[w].(status := status)]);
            Sound(t) && Worth(t) == Worth(s)
  {
    assert GoodRow(s, w);
    var o := s.withdrawals[w].wallet;
    assert s.wallets[o := s.wallets[o].(held := s.wallets[o].held)] == s.wallets;
    StatusSound(s, w, status, s.withdrawals[w].submitting, s.wallets[o].held);
  }

  lemma HoldsSound(s: State, holds: seq<Hold>)
    requires Sound(s)
    ensures Sound(s.(holds := holds)) && Worth(s.(holds := holds)) == Worth(s)
  {
    RowsCarryOver(s, s.(holds := holds));
  }

  lemma FailSound(s: State, w: nat)
    requires Sound(s)
    ensures var t := W.FailPayout(s, w).state;
            Sound(t) && Worth(t) == Worth(s)
  {
    if w < |s.withdrawals| && s.withdrawals[w].wallet in s.wallets && !s.withdrawals[w].status.Failed? {
      assert GoodRow(s, w);
      var row := s.withdrawals[w];
      var wallet := s.wallets[row.wallet].(held := ReleasedTwice(s, w));
      var s1 := s.(withdrawals := s.withdrawals[w := row.(status := PayoutStatus.Failed)],
                   wallets := s.wallets[row.wallet := wallet]);
      StatusSound(s, w, PayoutStatus.Failed, row.submitting, ReleasedTwice(s, w));
      var holds := W.ReleaseHolds(s.holds, w, row.wallet, Some(false));
      HoldsSound(s1, holds);
      var s2 := s1.(holds := holds);
      if row.status.Processing? {
        RefundSound(s2, w, row);
      } else {
        ReversalSound(s2, row.entry);
        ReverseShareSound(s2.(entries := W.ReverseEntry(s2.entries, row.entry)), w, row);
      }
    }
  }

  /** Every step keeps the books sound, whatever order events arrive in; no payout event changes the total worth. */
  lemma StepKeepsSound(policy: FeePolicy, s: State, event: Event)
    requires policy.Valid() && Sound(s)
    ensures Sound(Step(policy, s, event).state)
    ensures event.Payout? ==> Worth(Step(policy, s, event).state) == Worth(s)
  {
    match event
    case Collection(collection) => CollectionKeeps(s, collection);
    case Payout(payout) =>
      match payout {
        case Request(user, owner, amount) => RequestKeeps(policy, s, user, owner, amount);
        case Settle(w) => SettleKeeps(s, w, false);
        case ApprovePlatform(w, admin, allowSelf) => SettleKeeps(s, w, true);
        case Submit(w, id, reported) => SubmitSound(s, w, id, reported);
        case Compensate(w) => CompensateSound(s, w);
        case Reject(w) => RejectSound(s, w);
        case PayoutSucceeded(w) => if w < |s.withdrawals| { WebhookSound(s, w, PayoutStatus.Completed); }
        case PayoutFailed(w) => FailSound(s, w);
        case PayoutPending(w) => if w < |s.withdrawals| { WebhookSound(s, w, PayoutStatus.Processing); }
      }
  }

  // ---------- The settled layer: payout events in the provider's order ----------

  /** A submission that comes too late but moves no fee writes only a row that counts nowhere. */
  lemma LateSubmitSettled(s: State, w: nat, payout: Option<nat>, reported: Option<nat>)
    requires Sound(s) && Settled(s) && w < |s.withdrawals|
    requires s.withdrawals[w].submitting && s.withdrawals[w].status.Failed? && MovesNoFee(s.withdrawals[w], reported)
    ensures Settled(W.SubmitPayout(s, w, payout, reported).state)
  {
    assert GoodRow(s, w) && SettledRow(s, w);
    var row := s.withdrawals[w];
    var r := W.SubmitPayout(s, w, payout, reported);
    if r.outcome.Done? {
      if row.wallet.Organization? {
        SubmitOrganizationResult(s, w, payout, W.ProviderFee(row, reported));
      }
      FailedRowFree(s, w, r.state.withdrawals[w]);
    }
  }

  lemma SubmitSettled(s: State, w: nat, payout: Option<nat>, reported: Option<nat>)
    requires Sound(s) && Settled(s)
    requires (w < |s.withdrawals| && s.withdrawals[w].submitting && s.withdrawals[w].status.Failed?
              && !W.PayoutTaken(s, w, payout)) ==> MovesNoFee(s.withdrawals[w], reported)
    ensures Settled(W.SubmitPayout(s, w, payout, reported).state)
  {
    var r := W.SubmitPayout(s, w, payout, reported);
    if w < |s.withdrawals| && s.withdrawals[w].submitting && s.withdrawals[w].status.Failed? {
      if !W.PayoutTaken(s, w, payout) { LateSubmitSettled(s, w, payout, reported); }
    } else if w < |s.withdrawals| && s.withdrawals[w].submitting && r.outcome.Done? {
      ProviderFeeIsNatural(s, w, reported);
      assert GoodRow(s, w) && SettledRow(s, w);
      var providerFee := W.ProviderFee(s.withdrawals[w], reported);
      if s.withdrawals[w].wallet.Organization? {
        SubmitOrganizationResult(s, w, payout, providerFee);
        if s.withdrawals[w].fee > providerFee {
          var s1 := EnsureWallet(s, Platform);
          WalletEnsured(s, Platform);
          SharedRows(s1, w, payout, providerFee);
          SharedFigures(s1, w, payout, providerFee);
          SharedJournal(s1, w, payout, providerFee);
        } else {
          UnsharedKeeps(s, w, payout, providerFee);
        }
      } else {
        SubmitPlainResult(s, w, payout, providerFee);
        RepricedRows(s, w, payout, providerFee);
        RepricedFigures(s, w, payout, providerFee);
        RepricedJournal(s, w, payout, providerFee);
      }
    }
  }

  /** Moving a row between statuses that count alike, with free choice of hold columns. */
  lemma StatusSettled(s: State, w: nat, status: PayoutStatus, submitting: bool, held: int)
    requires Sound(s) && Settled(s) && w < |s.withdrawals| && (submitting ==> s.withdrawals[w].submitting)
    requires if s.withdrawals[w].Paid() then status.Processing? || status.Completed? else status.Failed?
    ensures s.withdrawals[w].wallet in s.wallets
    ensures var o := s.withdrawals[w].wallet;
            Settled(s.(withdrawals := s.withdrawals[w := s.withdrawals[w].(status := status, submitting := submitting)],
                       wallets := s.wallets[o := s.wallets[o].(held := held)]))
  {
    assert GoodRow(s, w) && SettledRow(s, w);
    var o := s.withdrawals[w].wallet;
    var t := s.(withdrawals := s.withdrawals[w := s.withdrawals[w].(status := status, submitting := submitting)],
                wallets := s.wallets[o := s.wallets[o].(held := held)]);
    RowChanged(s.withdrawals, w, t.withdrawals[w]);
    SettledByRow(s, t, w);
    assert forall a :: LedgerOf(t, a) == LedgerOf(s, a);
  }

  lemma CompensateSettled(s: State, w: nat)
    requires Sound(s) && Settled(s)
    ensures Settled(W.CompensateWithdrawal(s, w).state)
  {
    if w < |s.withdrawals| && s.withdrawals[w].submitting {
      assert GoodRow(s, w) && SettledRow(s, w);
      var row := s.withdrawals[w];
      var held := s.wallets[row.wallet].held;
      assert s.wallets[row.wallet := s.wallets[row.wallet].(held := held)] == s.wallets;
      if row.status.Processing? && row.payout.None? {
        CompensateResult(s, w);
        RefundedSettled(s, w, held, false);
      } else {
        StatusSettled(s, w, row.status, false, held);
      }
    }
  }

  lemma RejectSettled(s: State, w: nat)
    requires Sound(s) && Settled(s)
    ensures Settled(W.RejectWithdrawal(s, w).state)
  {
    if w < |s.withdrawals| && s.withdrawals[w].status.Pending? && s.withdrawals[w].wallet in s.wallets {
      var row := s.withdrawals[w];
      StatusSettled(s, w, PayoutStatus.Failed, row.submitting, ReleasedTwice(s, w));
      HoldsFree(s.(withdrawals := s.withdrawals[w := row.(status := PayoutStatus.Failed)],
                   wallets := s.wallets[row.wallet := s.wallets[row.wallet].(held := ReleasedTwice(s, w))]),
                W.ReleaseHolds(s.holds, w, row.wallet, None));
    }
  }

  lemma FailProcessingSettled(s: State, w: nat)
    requires Sound(s) && Settled(s) && w < |s.withdrawals| && s.withdrawals[w].status.Processing?
    ensures Settled(W.FailPayout(s, w).state)
  {
    assert GoodRow(s, w) && SettledRow(s, w);
    var row := s.withdrawals[w];
    var holds := W.ReleaseHolds(s.holds, w, row.wallet, Some(false));
    if Shares(row) {
      var s1 := UnshareState(s, w);
      UnshareRows(s, w);
      UnshareFigures(s, w);
      UnshareJournal(s, w);
      var back := RefundedState(s1, w, ReleasedTwice(s, w), false);
      FailSharedResult(s, w);
      assert PaidRow(s1, w);
      RefundedSettled(s1, w, ReleasedTwice(s, w), false);
      FailedRowFree(back, w, row.(status := PayoutStatus.Failed));
      HoldsFree(back.(withdrawals := back.withdrawals[w := row.(status := PayoutStatus.Failed)]), holds);
    } else {
      FailUnsharedResult(s, w);
      RefundedSettled(s, w, ReleasedTwice(s, w), row.submitting);
      HoldsFree(RefundedState(s, w, ReleasedTwice(s, w), row.submitting), holds);
    }
  }

  lemma FailPendingSettled(s: State, w: nat)
    requires Sound(s) && Settled(s) && w < |s.withdrawals| && s.withdrawals[w].status.Pending?
    ensures Settled(W.FailPayout(s, w).state)
  {
    assert GoodRow(s, w) && SettledRow(s, w);
    var row := s.withdrawals[w];
    StatusSettled(s, w, PayoutStatus.Failed, row.submitting, ReleasedTwice(s, w));
    HoldsFree(s.(withdrawals := s.withdrawals[w := row.(status := PayoutStatus.Failed)],
                 wallets := s.wallets[row.wallet := s.wallets[row.wallet].(held := ReleasedTwice(s, w))]),
              W.ReleaseHolds(s.holds, w, row.wallet, Some(false)));
  }

  lemma PaidStatusSettled(s: State, w: nat, status: PayoutStatus)
    requires Sound(s) && Settled(s) && w < |s.withdrawals| && s.withdrawals[w].Paid()
        && (status.Processing? || status.Completed?)
    ensures Settled(s.(withdrawals := s.withdrawals[w := s.withdrawals[w].(status := status)]))
  {
    assert GoodRow(s, w);
    var o := s.withdrawals[w].wallet;
    assert s.wallets[o := s.wallets[o].(held := s.wallets[o].held)] == s.wallets;
    StatusSettled(s, w, status, s.withdrawals[w].submitting, s.wallets[o].held);
  }

  lemma WebhookSettled(policy: FeePolicy, s: State, event: W.Event)
    requires Sound(s) && Settled(s) && Orderly(s, Payout(event))
    requires event.PayoutSucceeded? || event.PayoutFailed? || event.PayoutPending?
    ensures Settled(W.Step(policy, s, event).state)
  {
    var w := event.w;
    if w < |s.withdrawals| {
      assert GoodRow(s, w);
      if s.withdrawals[w].status.Processing? {
        match event
        case PayoutSucceeded(_) => PaidStatusSettled(s, w, PayoutStatus.Completed);
        case PayoutFailed(_) => FailProcessingSettled(s, w);
        case PayoutPending(_) => PaidStatusSettled(s, w, PayoutStatus.Processing);
      } else if event.PayoutFailed? && s.withdrawals[w].status.Pending? {
        FailPendingSettled(s, w);
      }
    }
  }

  /** Account 1100, the earnings report and the journal follow every step taken in order. */
  lemma StepKeepsSettled(policy: FeePolicy, s: State, event: Event)
    requires policy.Valid() && Sound(s) && Settled(s) && Orderly(s, event)
    ensures Settled(Step(policy, s, event).state)
  {
    match event
    case Collection(collection) => CollectionKeeps(s, collection);
    case Payout(payout) =>
      match payout {
        case Request(user, owner, amount) => RequestKeeps(policy, s, user, owner, amount);
        case Settle(w) => SettleKeeps(s, w, false);
        case ApprovePlatform(w, admin, allowSelf) => SettleKeeps(s, w, true);
        case Submit(w, id, reported) => SubmitSettled(s, w, id, reported);
        case Compensate(w) => CompensateSettled(s, w);
        case Reject(w) => RejectSettled(s, w);
        case _ => WebhookSettled(policy, s, payout);
      }
  }

  // ---------- The reserved layer ----------

  /** What a submission does to the spendable money of each wallet. */
  function SubmitSlack(row: Withdrawal, reported: Option<nat>, o: Owner): int {
    var difference := W.ProviderFee(row, reported) - row.fee;
    if row.wallet.Organization? then (if o.Platform? then Max(0, -difference) else 0)
    else if o == row.wallet then -difference else 0
  }

  lemma SubmitOrganizationFrame(s: State, w: nat, payout: Option<nat>, providerFee: int)
    requires w < |s.withdrawals| && !s.withdrawals[w].feeSplit
    ensures var t := W.SubmitOrganizationPayout(s, w, payout, providerFee).state;
            && |t.withdrawals| == |s.withdrawals| && t.withdrawals == s.withdrawals[w := t.withdrawals[w]]
            && t.withdrawals[w].status == s.withdrawals[w].status
            && (forall o :: HeldBy(t, o) == HeldBy(s, o))
            && (forall o :: Slack(t, o) == Slack(s, o) +
                 if o.Platform? then Max(0, s.withdrawals[w].fee - providerFee) else 0)
  {
    WalletEnsured(s, Platform);
    SubmitOrganizationResult(s, w, payout, providerFee);
  }

  lemma SubmitPlainFrame(s: State, w: nat, payout: Option<nat>, providerFee: int)
    requires w < |s.withdrawals| && s.withdrawals[w].wallet in s.wallets
    ensures var t := W.SubmitPlainPayout(s, w, payout, providerFee).state;
            var row := s.withdrawals[w];
            && |t.withdrawals| == |s.withdrawals| && t.withdrawals == s.withdrawals[w := t.withdrawals[w]]
            && t.withdrawals[w].status == row.status
            && (forall o :: HeldBy(t, o) == HeldBy(s, o))
            && (forall o :: Slack(t, o) == Slack(s, o) - if o == row.wallet then providerFee - row.fee else 0)
  {
    Moved(s, s.withdrawals[w].wallet, s.withdrawals[w].fee - providerFee);
  }

  lemma SubmitFrame(s: State, w: nat, payout: Option<nat>, reported: Option<nat>)
    requires Sound(s) && w < |s.withdrawals| && s.withdrawals[w].submitting
    ensures var t := W.SubmitPayout(s, w, payout, reported).state;
            && |t.withdrawals| == |s.withdrawals| && t.withdrawals == s.withdrawals[w := t.withdrawals[w]]
            && t.withdrawals[w].status == s.withdrawals[w].status
            && (forall o :: HeldBy(t, o) == HeldBy(s, o))
            && (t == s || forall o :: Slack(t, o) == Slack(s, o) + SubmitSlack(s.withdrawals[w], reported, o))
  {
    assert GoodRow(s, w);
    var row := s.withdrawals[w];
    if row.wallet.Organization? {
      SubmitOrganizationFrame(s, w, payout, W.ProviderFee(row, reported));
    } else {
      SubmitPlainFrame(s, w, payout, W.ProviderFee(row, reported));
    }
  }

  lemma ReverseShareFrame(s: State, w: nat, row: Withdrawal)
    ensures var t := W.ReverseShare(s, w, row);
            && t.withdrawals == s.withdrawals
            && (forall o :: HeldBy(t, o) == HeldBy(s, o))
            && (forall o :: Slack(t, o) == Slack(s, o) -
                 if o.Platform? && Shares(row) && Platform in s.wallets then row.share else 0)
  {
    if Shares(row) && Platform in s.wallets {
      Moved(s, Platform, -row.share);
      assert W.ReverseShare(s, w, row).wallets == Move(s, Platform, -row.share).wallets;
    }
  }

  lemma RefundFrame(s: State, w: nat, row: Withdrawal)
    requires row.wallet in s.wallets
    ensures var t := W.Refund(s, w, row);
            && t.withdrawals == s.withdrawals
            && (forall o :: HeldBy(t, o) == HeldBy(s, o))
            && (forall o :: Slack(t, o) == Slack(s, o) + (if o == row.wallet then row.Cost() else 0)
                                         - if o.Platform? && Shares(row) && Platform in s.wallets then row.share else 0)
  {
    Moved(s, row.wallet, row.Cost());
    var s1 := Adjust(Move(s, row.wallet, row.Cost()), BankClearing, -row.Cost());
    ReverseShareFrame(s1.(entries := W.ReverseEntry(s1.entries, row.entry)), w, row);
  }

  /** A failed payout reported by the provider: what happens to holds and spendable money. */
  lemma FailFrame(s: State, w: nat)
    requires w < |s.withdrawals| && s.withdrawals[w].wallet in s.wallets && !s.withdrawals[w].status.Failed?
    ensures var t := W.FailPayout(s, w).state;
            var row := s.withdrawals[w];
            && |t.withdrawals| == |s.withdrawals| && t.withdrawals == s.withdrawals[w := t.withdrawals[w]]
            && t.withdrawals[w] == row.(status := PayoutStatus.Failed)
            && (forall o :: HeldBy(t, o) == if o == row.wallet then ReleasedTwice(s, w) else HeldBy(s, o))
            && (forall o :: Slack(t, o) == Slack(s, o)
                 + (if o == row.wallet then HeldBy(s, o) - ReleasedTwice(s, w)
                     + (if row.status.Processing? then row.Cost() else 0) else 0)
                 - if o.Platform? && Shares(row) && Platform in s.wallets then row.share else 0)
  {
    var row := s.withdrawals[w];
    var wallet := s.wallets[row.wallet];
    var s1 := s.(withdrawals := s.withdrawals[w := row.(status := PayoutStatus.Failed)],
                 holds := W.ReleaseHolds(s.holds, w, row.wallet, Some(false)),
                 wallets := s.wallets[row.wallet := wallet.(held := ReleasedTwice(s, w))]);
    if row.status.Processing? {
      RefundFrame(s1, w, row);
    } else {
      ReverseShareFrame(s1.(entries := W.ReverseEntry(s1.entries, row.entry)), w, row);
    }
  }

  lemma PayoutReserved(policy: FeePolicy, s: State, event: W.Event)
    requires policy.Valid() && Sound(s) && Reserved(s) && KeepsReserves(s, Payout(event))
    requires !event.Request? && !event.Settle? && !event.ApprovePlatform? && event.w < |s.withdrawals|
    ensures Reserved(W.Step(policy, s, event).state)
  {
    var t := W.Step(policy, s, event).state;
    var w := event.w;
    assert GoodRow(s, w);
    var row := s.withdrawals[w];
    if t != s {
      if row.status.Pending? {
        ReserveCovers(s, w);
      }
      match event {
        case Submit(_, id, reported) => SubmitFrame(s, w, id, reported);
        case Compensate(_) =>
          if row.status.Processing? && row.payout.None? {
            RefundFrame(s.(withdrawals := s.withdrawals[w := row.(status := PayoutStatus.Failed, submitting := false)]),
                        w, row.(submitting := false));
          }
        case PayoutFailed(_) => FailFrame(s, w);
        case _ =>
      }
      ReservedByRow(s, t, w);
    }
  }

  /** Held balances follow pending withdrawals through every step that releases no hold of others. */
  lemma StepKeepsReserved(policy: FeePolicy, s: State, event: Event)
    requires policy.Valid() && Sound(s) && Reserved(s) && KeepsReserves(s, event)
    ensures Reserved(Step(policy, s, event).state)
  {
    match event
    case Collection(collection) => CollectionKeeps(s, collection);
    case Payout(payout) =>
      match payout {
        case Request(user, owner, amount) => RequestKeeps(policy, s, user, owner, amount);
        case Settle(w) => SettleKeeps(s, w, false);
        case ApprovePlatform(w, admin, allowSelf) => SettleKeeps(s, w, true);
        case _ => if payout.w < |s.withdrawals| { PayoutReserved(policy, s, payout); }
      }
  }
}
