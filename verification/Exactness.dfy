/**
  Where the code does not keep an invariant: the exact condition under which it
  does, decided from the state before the step, and concrete failing runs.
 */
module Exactness {
  import opened Tables
  import opened Books
  import opened Charges
  import W = Withdrawals
  import C = Collections
  import opened Invariants
  import opened PayoutProofs
  import opened RefundProofs
  import opened CollectionProofs
  import opened Steps
  import opened Runs

  // ---------- Late payout webhooks ----------

  /** A failed-payout event keeps the books exactly when the payout was not already completed. */
  lemma FailedPayoutSettlesExactly(s: State, w: nat)
    requires Sound(s) && Settled(s) && w < |s.withdrawals|
    ensures Settled(W.FailPayout(s, w).state) <==> !s.withdrawals[w].status.Completed?
  {
    assert GoodRow(s, w) && SettledRow(s, w);
    var row := s.withdrawals[w];
    var t := W.FailPayout(s, w).state;
    if row.status.Completed? {
      FailFrame(s, w);
      RowChanged(s.withdrawals, w, t.withdrawals[w]);
      assert t.clearing == s.clearing + if Shares(row) then row.share else 0;
      assert !TransitAgrees(t);
    } else {
      WebhookSettled(FeePolicy(false, 0.0, 0, 0, 0), s, W.PayoutFailed(w));
    }
  }

  /** A pending-payout event keeps the books exactly when the withdrawal was already settled. */
  lemma PendingPayoutSettlesExactly(s: State, w: nat)
    requires Sound(s) && Settled(s) && w < |s.withdrawals|
    ensures Settled(W.MarkPayoutPending(s, w).state) <==> !s.withdrawals[w].status.Pending?
  {
    assert SettledRow(s, w);
    if s.withdrawals[w].status.Pending? {
      assert !SettledRow(W.MarkPayoutPending(s, w).state, w);
    } else {
      WebhookSettled(FeePolicy(false, 0.0, 0, 0, 0), s, W.PayoutPending(w));
    }
  }

  /** A failed-payout event for a debited withdrawal keeps the reserves exactly when nothing is held. */
  lemma FailedPayoutReservesExactly(s: State, w: nat)
    requires Sound(s) && Reserved(s) && w < |s.withdrawals| && s.withdrawals[w].Paid()
    ensures Reserved(W.FailPayout(s, w).state) <==> HeldBy(s, s.withdrawals[w].wallet) == 0
  {
    assert GoodRow(s, w);
    var o := s.withdrawals[w].wallet;
    var t := W.FailPayout(s, w).state;
    FailFrame(s, w);
    ReservedIsNatural(s);
    if HeldBy(s, o) == 0 {
      ReservedByRow(s, t, w);
    } else {
      SumUpdate(s.withdrawals, w, t.withdrawals[w], ReservedFor(o));
      assert HeldBy(s, o) == Sum(s.withdrawals, ReservedFor(o));
      assert HeldBy(t, o) < HeldBy(s, o);
      assert Sum(t.withdrawals, ReservedFor(o)) == HeldBy(s, o);
    }
  }

  /** A pending-payout event keeps the reserves exactly when the withdrawal was already settled. */
  lemma PendingPayoutReservesExactly(s: State, w: nat)
    requires Sound(s) && Reserved(s) && w < |s.withdrawals|
    ensures Reserved(W.MarkPayoutPending(s, w).state) <==> !s.withdrawals[w].status.Pending?
  {
    assert GoodRow(s, w);
    var o := s.withdrawals[w].wallet;
    var t := W.MarkPayoutPending(s, w).state;
    SumUpdate(s.withdrawals, w, t.withdrawals[w], ReservedFor(o));
    assert HeldBy(t, o) == HeldBy(s, o) == Sum(s.withdrawals, ReservedFor(o));
    if !s.withdrawals[w].status.Pending? {
      ReservedByRow(s, t, w);
    }
  }

  /** A failed payout leaves every wallet solvent exactly when the platform can give its share back. */
  lemma FailedPayoutSolventExactly(s: State, w: nat)
    requires Sound(s) && Settled(s) && Solvent(s) && w < |s.withdrawals| && !s.withdrawals[w].status.Failed?
    ensures Solvent(W.FailPayout(s, w).state)
       <==> (Shares(s.withdrawals[w]) ==> s.withdrawals[w].share <= Slack(s, Platform))
  {
    assert GoodRow(s, w) && SettledRow(s, w);
    var row := s.withdrawals[w];
    var t := W.FailPayout(s, w).state;
    FailFrame(s, w);
    forall o ensures 0 <= HeldBy(t, o) && (Slack(t, o) >= 0 || (o.Platform? && Shares(row))) {
      assert 0 <= HeldBy(s, o) && 0 <= Slack(s, o);
    }
    assert Shares(row) ==> Slack(t, Platform) == Slack(s, Platform) - row.share;
  }

  /** A submission that ends after its withdrawal already failed keeps the books exactly when it moves no fee. */
  lemma LateSubmissionSettlesExactly(s: State, w: nat, payout: Option<nat>, reported: Option<nat>)
    requires Sound(s) && Settled(s) && w < |s.withdrawals|
    requires s.withdrawals[w].submitting && s.withdrawals[w].status.Failed?
    requires W.SubmitPayout(s, w, payout, reported).outcome.Done?
    ensures Settled(W.SubmitPayout(s, w, payout, reported).state) <==> MovesNoFee(s.withdrawals[w], reported)
  {
    if MovesNoFee(s.withdrawals[w], reported) {
      LateSubmitSettled(s, w, payout, reported);
    } else {
      LateSubmissionShiftsTransit(s, w, payout, reported);
    }
  }

  lemma LateSubmissionShiftsTransit(s: State, w: nat, payout: Option<nat>, reported: Option<nat>)
    requires Sound(s) && Settled(s) && w < |s.withdrawals|
    requires s.withdrawals[w].submitting && s.withdrawals[w].status.Failed? && !MovesNoFee(s.withdrawals[w], reported)
    requires W.SubmitPayout(s, w, payout, reported).outcome.Done?
    ensures !TransitAgrees(W.SubmitPayout(s, w, payout, reported).state)
  {
    assert GoodRow(s, w);
    var row := s.withdrawals[w];
    var providerFee := W.ProviderFee(row, reported);
    SubmitFrame(s, w, payout, reported);
    var t := W.SubmitPayout(s, w, payout, reported).state;
    RowChanged(s.withdrawals, w, t.withdrawals[w]);
    if row.wallet.Organization? {
      SubmitOrganizationResult(s, w, payout, providerFee);
    }
  }

  /** A provider fee above the quoted one leaves the wallet solvent exactly when the excess is spendable. */
  lemma SubmissionSolventExactly(s: State, w: nat, payout: Option<nat>, reported: Option<nat>)
    requires Sound(s) && Solvent(s) && w < |s.withdrawals| && s.withdrawals[w].submitting
    requires W.SubmitPayout(s, w, payout, reported).outcome.Done?
    ensures var row := s.withdrawals[w];
            (Solvent(W.SubmitPayout(s, w, payout, reported).state)
             <==> row.wallet.Organization? || W.ProviderFee(row, reported) - row.fee <= Slack(s, row.wallet))
  {
    var row := s.withdrawals[w];
    var t := W.SubmitPayout(s, w, payout, reported).state;
    SubmitFrame(s, w, payout, reported);
    if t != s {
      assert Slack(t, row.wallet) == Slack(s, row.wallet) + SubmitSlack(row, reported, row.wallet);
      forall o ensures HeldBy(t, o) >= 0 { assert HeldBy(s, o) >= 0; }
      if row.wallet.Organization? || W.ProviderFee(row, reported) - row.fee <= Slack(s, row.wallet) {
        forall o ensures Slack(t, o) >= 0 { assert Slack(s, o) >= 0; }
      }
    }
  }

  // ---------- Every event, and whole runs ----------

  /** A step keeps account 1100, the earnings report and the journal in agreement exactly when it comes in order. */
  lemma StepSettlesExactly(policy: FeePolicy, s: State, event: Event)
    requires policy.Valid() && Sound(s) && Settled(s)
    ensures Settled(Step(policy, s, event).state) <==> Orderly(s, event)
  {
    if Orderly(s, event) {
      StepKeepsSettled(policy, s, event);
    } else {
      match event.payout
      case Submit(w, id, reported) =>
        SubmissionAccepted(s, w, id, reported);
        LateSubmissionShiftsTransit(s, w, id, reported);
      case PayoutFailed(w) => FailedPayoutSettlesExactly(s, w);
      case PayoutPending(w) => PendingPayoutSettlesExactly(s, w);
      case _ =>
    }
  }

  /** A step keeps held balances equal to the pending withdrawals exactly when it releases no hold of others. */
  lemma StepReservesExactly(policy: FeePolicy, s: State, event: Event)
    requires policy.Valid() && Sound(s) && Reserved(s)
    ensures Reserved(Step(policy, s, event).state) <==> KeepsReserves(s, event)
  {
    if KeepsReserves(s, event) {
      StepKeepsReserved(policy, s, event);
    } else if event.payout.PayoutFailed? {
      FailedPayoutReservesExactly(s, event.payout.w);
    } else {
      PendingPayoutReservesExactly(s, event.payout.w);
    }
  }

  lemma HeldStaysNatural(policy: FeePolicy, s: State, event: Event)
    requires policy.Valid() && Sound(s) && Reserved(s)
    ensures forall o :: HeldBy(Step(policy, s, event).state, o) >= 0
  {
    var t := Step(policy, s, event).state;
    if KeepsReserves(s, event) {
      StepKeepsSound(policy, s, event);
      StepKeepsReserved(policy, s, event);
      ReservedIsNatural(t);
    } else {
      var w := event.payout.w;
      assert GoodRow(s, w);
      ReservedIsNatural(s);
      if event.payout.PayoutFailed? {
        FailFrame(s, w);
      } else {
        assert forall o :: HeldBy(t, o) == HeldBy(s, o);
      }
    }
  }

  /** A step leaves every wallet solvent exactly when the fee or share it takes is spendable. */
  lemma StepSolventExactly(policy: FeePolicy, s: State, event: Event)
    requires policy.Valid() && Sound(s) && Settled(s) && Reserved(s) && Solvent(s)
    ensures Solvent(Step(policy, s, event).state) <==> Affordable(s, event)
  {
    if Affordable(s, event) {
      HeldStaysNatural(policy, s, event);
      match event
      case Payout(payout) => PayoutSolvent(policy, s, payout);
      case Collection(collection) => CollectionSolvent(s, collection);
    } else if event.payout.Submit? {
      SubmissionAccepted(s, event.payout.w, event.payout.payout, event.payout.reported);
      SubmissionSolventExactly(s, event.payout.w, event.payout.payout, event.payout.reported);
    } else {
      FailedPayoutSolventExactly(s, event.payout.w);
    }
  }

  /** Over a run from an empty database the settled layer holds all along exactly when the run is in order. */
  lemma SettlesExactly(policy: FeePolicy, events: seq<Event>)
    requires policy.Valid()
    ensures Always(policy, EMPTY, events, Settled) <==> Along(policy, EMPTY, events, Orderly)
  {
    EmptyIsFine();
    forall t, e | Sound(t) && Settled(t) ensures Settled(Step(policy, t, e).state) <==> Orderly(t, e) {
      StepSettlesExactly(policy, t, e);
    }
    AlwaysExactly(policy, EMPTY, events, Settled, Orderly);
  }

  /** And the reserves hold all along exactly when no event releases what others hold. */
  lemma ReservesExactly(policy: FeePolicy, events: seq<Event>)
    requires policy.Valid()
    ensures Always(policy, EMPTY, events, Reserved) <==> Along(policy, EMPTY, events, KeepsReserves)
  {
    EmptyIsFine();
    forall t, e | Sound(t) && Reserved(t) ensures Reserved(Step(policy, t, e).state) <==> KeepsReserves(t, e) {
      StepReservesExactly(policy, t, e);
    }
    AlwaysExactly(policy, EMPTY, events, Reserved, KeepsReserves);
  }

  ghost predicate Fine(s: State) {
    Settled(s) && Reserved(s) && Solvent(s)
  }

  predicate InOrderAndCovered(s: State, event: Event) {
    Orderly(s, event) && KeepsReserves(s, event) && Affordable(s, event)
  }

  /** All layers and solvency hold all along exactly under the three conditions together. */
  lemma FineExactly(policy: FeePolicy, events: seq<Event>)
    requires policy.Valid()
    ensures Always(policy, EMPTY, events, Fine) <==> Along(policy, EMPTY, events, InOrderAndCovered)
  {
    EmptyIsFine();
    forall t, e | Sound(t) && Fine(t) ensures Fine(Step(policy, t, e).state) <==> InOrderAndCovered(t, e) {
      StepSettlesExactly(policy, t, e);
      StepReservesExactly(policy, t, e);
      StepSolventExactly(policy, t, e);
    }
    AlwaysExactly(policy, EMPTY, events, Fine, InOrderAndCovered);
  }

  // ---------- Reuse with another amount ----------

  /** Attaching a checkout keeps every row's terms exactly when its amount is the row's own. */
  lemma AttachTermsExactly(s: State, p: nat, amount: int, fee: nat, session: nat, read: Meta)
    requires TermsAgree(s) && amount >= C.MINIMUM_CHECKOUT
    requires C.AttachCheckout(s, p, amount, fee, session, read).outcome.Done?
    ensures TermsAgree(C.AttachCheckout(s, p, amount, fee, session, read).state) <==> amount == s.pendings[p].amount
  {
    var t := C.AttachCheckout(s, p, amount, fee, session, read).state;
    AttachKeepsTerms(s.pendings[p], amount, fee, session, read);
    if amount != s.pendings[p].amount {
      assert !GoodTerms(t.pendings[p]);
    }
  }

  /** Two calls of one user for one organisation, the second for another amount, then one payment. */
  function ReuseRun(first: int, second: int, fee: nat): seq<C.Event> {
    [C.Initiate(1, 7, None, first, 100, fee, 0, C.Unreachable),
     C.Initiate(1, 7, None, second, 101, fee, 1, C.Unreachable),
     C.Attach(0, second, fee, 5, Meta(Some(fee), Some(first + fee), 0)),
     C.Complete(0, C.Lookup(Some(5), None, None), 9, second + fee)]
  }

  /** The payer is charged for the second amount, the organisation receives the first. */
  lemma ReuseLosesMoney(first: int, second: int, fee: nat)
    requires C.MINIMUM_CHECKOUT <= first && C.MINIMUM_CHECKOUT <= second && second + fee <= C.MAX_SAFE_INTEGER
    ensures var events := ReuseRun(first, second, fee);
            var s1 := C.Step(EMPTY, events[0]).state;
            var r2 := C.Step(s1, events[1]);
            var s3 := C.Step(r2.state, events[2]).state;
            var r4 := C.Step(s3, events[3]);
            && r2.outcome.Unchanged? && r4.outcome.Credited?
            && r4.state.settlement == second + fee
            && Organization(7) in r4.state.wallets && r4.state.wallets[Organization(7)].balance == first
            && Worth(r4.state) == Worth(EMPTY) + first - second
            && |r4.state.entries| == 1 && r4.state.entries[0].balanced
            && (Balances(r4.state.entries[0].lines) <==> first == second)
  {
    var events := ReuseRun(first, second, fee);
    var s1 := C.Step(EMPTY, events[0]).state;
    var row := C.NewPending(1, 7, None, first, 100, fee, 0);
    assert s1.pendings == [row];
    assert C.FindReusable([row], 1, 7, None) == Some(0);
    var s2 := C.Step(s1, events[1]).state;
    assert s2 == s1;
    var s3 := C.Step(s2, events[2]).state;
    assert s3.pendings[0].Expected() == second + fee;
    var r4 := C.Step(s3, events[3]);
    assert r4.outcome.Credited?;
    CompletionConservesExactly(s3, 0, C.Lookup(Some(5), None, None), 9, second + fee);
    CreditWorth(s3, 0, 9, second + fee);
  }
}
