/**
  Runs from an empty database that the services admit: one that submits as it should, and
  one for each condition of `Exactness` that breaks an invariant at its last event. An
  organisation collects 10,000 naira and withdraws half of it.
 */
module FailingRuns {
  import opened Tables
  import opened Books
  import opened Charges
  import W = Withdrawals
  import C = Collections
  import opened Invariants
  import opened PayoutProofs
  import opened CollectionProofs
  import opened Steps
  import opened Runs
  import opened Balances
  import opened Replays
  import opened Exactness
  import opened Holds
  import opened Reconciliation

  /** The runs go the same way under every configuration. */
  type ValidPolicy = policy: FeePolicy | policy.Valid() witness FeePolicy(false, 0.0, 0, 0, 0)

  const ORGANIZATION := Organization(7)

  const INITIATE := Collection(C.Initiate(1, 7, None, 1_000_000, 100, 10_000, 0, C.Unreachable))
  const COMPLETE := Collection(C.Complete(0, C.Lookup(None, Some(0), None), 1, 1_010_000))
  const REQUEST := Payout(W.Request(2, ORGANIZATION, 500_000))
  const SETTLE := Payout(W.Settle(0))
  const SUBMIT := Payout(W.Submit(0, Some(1), Some(5_000)))

  /** The state after the events, starting from nothing. */
  function After(policy: ValidPolicy, events: seq<Event>): State {
    Run(policy, EMPTY, events)
  }

  lemma AfterOneMore(policy: ValidPolicy, events: seq<Event>, event: Event)
    ensures After(policy, events + [event]) == Step(policy, After(policy, events), event).state
  {
    assert (events + [event])[..|events|] == events;
  }

  ghost predicate Good(s: State) {
    Sound(s) && Settled(s) && Reserved(s)
  }

  ghost predicate InOrder(policy: ValidPolicy, events: seq<Event>) {
    Along(policy, EMPTY, events, Orderly) && Along(policy, EMPTY, events, KeepsReserves)
  }

  /** A run in order leaves everything in agreement, so each run below was fine until its last event. */
  lemma StaysGood(policy: ValidPolicy, events: seq<Event>)
    requires InOrder(policy, events)
    ensures Good(After(policy, events))
  {
    EmptyIsFine();
    RunSettles(policy, EMPTY, events);
    RunReserves(policy, EMPTY, events);
  }

  lemma StaysInOrder(policy: ValidPolicy, events: seq<Event>, event: Event)
    requires InOrder(policy, events) && Orderly(After(policy, events), event)
    requires KeepsReserves(After(policy, events), event)
    ensures InOrder(policy, events + [event])
  {
    assert (events + [event])[..|events|] == events;
  }

  predicate Shows(s: State, rows: seq<Withdrawal>, wallets: map<Owner, Wallet>) {
    s.withdrawals == rows && s.wallets == wallets
  }

  function Wallets(organization: int, held: nat, platform: int): map<Owner, Wallet> {
    map[ORGANIZATION := Wallet(organization, held, organization, true),
        Platform := Wallet(platform, 0, platform, true)]
  }

  const ASKED := W.NewWithdrawal(2, ORGANIZATION, 500_000, 10_000)
  const PAID := ASKED.(status := PayoutStatus.Processing, entry := Some(1), submitting := true)

  // ---------- The common beginning ----------

  const FUNDED := [INITIATE] + [COMPLETE]

  lemma Initiated(policy: ValidPolicy)
    ensures InOrder(policy, [INITIATE])
    ensures After(policy, [INITIATE]) == EMPTY.(pendings := [C.NewPending(1, 7, None, 1_000_000, 100, 10_000, 0)])
  {
    assert [INITIATE] == [] + [INITIATE];
    AfterOneMore(policy, [], INITIATE);
    StaysInOrder(policy, [], INITIATE);
  }

  lemma Credited(policy: ValidPolicy)
    ensures var s := After(policy, [INITIATE]);
            After(policy, FUNDED) == C.CreditPayment(s, 0, 1, 1_010_000) && s.pendings != []
  {
    Initiated(policy);
    AfterOneMore(policy, [INITIATE], COMPLETE);
    FirstCompletes(After(policy, [INITIATE]));
  }

  lemma FirstCompletes(s: State)
    requires s == EMPTY.(pendings := [C.NewPending(1, 7, None, 1_000_000, 100, 10_000, 0)])
    ensures C.Step(s, COMPLETE.collection) == Result(C.CreditPayment(s, 0, 1, 1_010_000), Outcome.Credited)
  {
    assert !C.AlreadyPaid(s, 100) && !C.ChargeUsed(s, 1);
  }

  lemma Funded(policy: ValidPolicy)
    ensures InOrder(policy, FUNDED) && Shows(After(policy, FUNDED), [], Wallets(1_000_000, 0, 10_000))
    ensures |After(policy, FUNDED).entries| == 1
  {
    Initiated(policy);
    Credited(policy);
    StaysInOrder(policy, [INITIATE], COMPLETE);
    FirstCredit(After(policy, [INITIATE]));
  }

  /** The first collection opens both wallets. */
  lemma FirstCredit(s: State)
    requires s.wallets == map[] && s.pendings == [C.NewPending(1, 7, None, 1_000_000, 100, 10_000, 0)]
    ensures C.CreditPayment(s, 0, 1, 1_010_000).wallets == Wallets(1_000_000, 0, 10_000)
  {}

  const REQUESTED := FUNDED + [REQUEST]

  lemma Requested(policy: ValidPolicy)
    ensures InOrder(policy, REQUESTED)
    ensures Shows(After(policy, REQUESTED), [ASKED], Wallets(1_000_000, 510_000, 10_000))
    ensures |After(policy, REQUESTED).entries| == 1
  {
    Funded(policy);
    AfterOneMore(policy, FUNDED, REQUEST);
    RequestStaysInOrder(policy, REQUEST);
    RequestWritten(policy, After(policy, FUNDED), 2, ORGANIZATION, 500_000, 10_000);
  }

  lemma RequestStaysInOrder(policy: ValidPolicy, request: Event)
    requires request.Payout? && request.payout.Request?
    ensures InOrder(policy, FUNDED + [request])
  {
    Funded(policy);
    StaysInOrder(policy, FUNDED, request);
  }

  /** A request within what is available. */
  lemma RequestWritten(policy: FeePolicy, s: State, user: nat, owner: Owner, amount: int, fee: nat)
    requires owner in s.wallets && amount >= MINIMUM_WITHDRAWAL
    requires fee == Fee(policy, W.FixedFee(owner), amount)
    requires RequestAccepted(policy, W.FixedFee(owner), s.wallets[owner].balance, s.wallets[owner].held, amount)
    ensures Shows(Step(policy, s, Payout(W.Request(user, owner, amount))).state,
                  s.withdrawals + [W.NewWithdrawal(user, owner, amount, fee)],
                  s.wallets[owner := s.wallets[owner].(held := s.wallets[owner].held + amount + fee)])
    ensures Step(policy, s, Payout(W.Request(user, owner, amount))).state.entries == s.entries
  {}

  const SETTLED := REQUESTED + [SETTLE]

  lemma SettlementWritten(policy: FeePolicy, s: State)
    requires Sound(s) && Shows(s, [ASKED], Wallets(1_000_000, 510_000, 10_000)) && |s.entries| == 1
    ensures Shows(Step(policy, s, SETTLE).state, [PAID], Wallets(490_000, 0, 10_000))
    ensures |Step(policy, s, SETTLE).state.entries| == 2
  {
    SettleResult(s, 0, false);
  }

  lemma SettledRun(policy: ValidPolicy)
    ensures InOrder(policy, SETTLED) && Shows(After(policy, SETTLED), [PAID], Wallets(490_000, 0, 10_000))
    ensures |After(policy, SETTLED).entries| == 2
  {
    Requested(policy);
    StaysGood(policy, REQUESTED);
    SettlementWritten(policy, After(policy, REQUESTED));
    AfterOneMore(policy, REQUESTED, SETTLE);
    StaysInOrder(policy, REQUESTED, SETTLE);
  }

  const SUBMITTED := SETTLED + [SUBMIT]

  const SPLIT := SplitRow(PAID, Some(1), 5_000).(shareEntry := Some(2))

  lemma Submitted(policy: ValidPolicy)
    ensures InOrder(policy, SUBMITTED) && Shows(After(policy, SUBMITTED), [SPLIT], Wallets(490_000, 0, 15_000))
  {
    SettledRun(policy);
    AfterOneMore(policy, SETTLED, SUBMIT);
    StaysInOrder(policy, SETTLED, SUBMIT);
    ShareWritten(After(policy, SETTLED));
  }

  /** Half of the fee goes to the provider, the rest to the platform. */
  lemma ShareWritten(s: State)
    requires Shows(s, [PAID], Wallets(490_000, 0, 10_000)) && |s.entries| == 2
    ensures Shows(W.SubmitPayout(s, 0, Some(1), Some(5_000)).state, [SPLIT], Wallets(490_000, 0, 15_000))
  {
    SubmitOrganizationResult(s, 0, Some(1), 5_000);
  }

  const UNREPORTED := Payout(W.Submit(0, Some(1), None))

  /** When the provider's answer names no fee, the quoted one is taken and the rest of the fee shared. */
  lemma QuotedFeeIsShared(policy: ValidPolicy)
    ensures Shows(After(policy, SETTLED + [UNREPORTED]), [SPLIT], Wallets(490_000, 0, 15_000))
    ensures SPLIT.providerFee == Some(5_000) && SPLIT.share == 5_000
  {
    SettledRun(policy);
    AfterOneMore(policy, SETTLED, UNREPORTED);
    UnreportedWritten(After(policy, SETTLED));
  }

  lemma UnreportedWritten(s: State)
    requires Shows(s, [PAID], Wallets(490_000, 0, 10_000)) && |s.entries| == 2
    ensures Shows(W.SubmitPayout(s, 0, Some(1), None).state, [SPLIT], Wallets(490_000, 0, 15_000))
  {
    SubmitOrganizationResult(s, 0, Some(1), 5_000);
  }

  // ---------- Webhooks out of order ----------

  const PAID_OUT := SUBMITTED + [Payout(W.PayoutSucceeded(0))]

  lemma PaidOut(policy: ValidPolicy)
    ensures InOrder(policy, PAID_OUT)
    ensures After(policy, PAID_OUT).withdrawals == [SPLIT.(status := PayoutStatus.Completed)]
  {
    Submitted(policy);
    AfterOneMore(policy, SUBMITTED, Payout(W.PayoutSucceeded(0)));
    StaysInOrder(policy, SUBMITTED, Payout(W.PayoutSucceeded(0)));
  }

  const FAILURE := Payout(W.PayoutFailed(0))

  lemma LateFailure(policy: ValidPolicy, s: State)
    requires Good(s) && s.withdrawals == [SPLIT.(status := PayoutStatus.Completed)]
    ensures !Settled(Step(policy, s, FAILURE).state) && Sound(Step(policy, s, FAILURE).state)
  {
    FailedPayoutSettlesExactly(s, 0);
    StepKeepsSound(policy, s, FAILURE);
  }

  /** A payout is reported paid and afterwards failed: the share goes back, the cost does not. */
  lemma LateFailureBreaks(policy: ValidPolicy)
    ensures InOrder(policy, PAID_OUT)
    ensures !Settled(After(policy, PAID_OUT + [FAILURE])) && Sound(After(policy, PAID_OUT + [FAILURE]))
  {
    PaidOut(policy);
    StaysGood(policy, PAID_OUT);
    LateFailure(policy, After(policy, PAID_OUT));
    AfterOneMore(policy, PAID_OUT, FAILURE);
  }

  /**
    The handler looks a withdrawal up by the identifier or reference in the notification,
    whatever its status; one about a request that was not approved yet makes it PROCESSING.
   */
  lemma EarlyPendingBreaks(policy: ValidPolicy)
    ensures InOrder(policy, REQUESTED)
    ensures !Settled(After(policy, REQUESTED + [Payout(W.PayoutPending(0))]))
         && !Reserved(After(policy, REQUESTED + [Payout(W.PayoutPending(0))]))
  {
    Requested(policy);
    StaysGood(policy, REQUESTED);
    AfterOneMore(policy, REQUESTED, Payout(W.PayoutPending(0)));
    PendingPayoutSettlesExactly(After(policy, REQUESTED), 0);
    PendingPayoutReservesExactly(After(policy, REQUESTED), 0);
  }

  const REFUNDED := SETTLED + [FAILURE]

  lemma Refunded(policy: ValidPolicy)
    ensures InOrder(policy, REFUNDED)
    ensures After(policy, REFUNDED).withdrawals == [PAID.(status := PayoutStatus.Failed)]
  {
    SettledRun(policy);
    StaysGood(policy, SETTLED);
    AfterOneMore(policy, SETTLED, FAILURE);
    StaysInOrder(policy, SETTLED, FAILURE);
    FailFrame(After(policy, SETTLED), 0);
  }

  /** The failure arrives before the settling call has written its submission, which then still moves a fee. */
  lemma LateSubmissionBreaks(policy: ValidPolicy)
    ensures InOrder(policy, REFUNDED) && !Settled(After(policy, REFUNDED + [SUBMIT]))
  {
    Refunded(policy);
    StaysGood(policy, REFUNDED);
    AfterOneMore(policy, REFUNDED, SUBMIT);
    SubmitOrganizationResult(After(policy, REFUNDED), 0, Some(1), 5_000);
    LateSubmissionSettlesExactly(After(policy, REFUNDED), 0, Some(1), Some(5_000));
  }

  const ANOTHER := Payout(W.Request(2, ORGANIZATION, 100_000))
  const TWO_REQUESTS := SETTLED + [ANOTHER]

  lemma TwoRequested(policy: ValidPolicy)
    ensures InOrder(policy, TWO_REQUESTS)
    ensures Shows(After(policy, TWO_REQUESTS), [PAID, W.NewWithdrawal(2, ORGANIZATION, 100_000, 10_000)],
                  Wallets(490_000, 110_000, 10_000))
  {
    SettledRun(policy);
    AfterOneMore(policy, SETTLED, ANOTHER);
    StaysInOrder(policy, SETTLED, ANOTHER);
    RequestWritten(policy, After(policy, SETTLED), 2, ORGANIZATION, 100_000, 10_000);
  }

  lemma SecondRelease(policy: ValidPolicy, s: State)
    requires Good(s) && Shows(s, [PAID, W.NewWithdrawal(2, ORGANIZATION, 100_000, 10_000)],
                              Wallets(490_000, 110_000, 10_000))
    ensures !Reserved(Step(policy, s, FAILURE).state)
  {
    FailedPayoutReservesExactly(s, 0);
  }

  /** A failed payout releases its hold again while another request still holds money. */
  lemma SecondReleaseBreaks(policy: ValidPolicy)
    ensures InOrder(policy, TWO_REQUESTS)
    ensures !Reserved(After(policy, TWO_REQUESTS + [FAILURE]))
  {
    TwoRequested(policy);
    StaysGood(policy, TWO_REQUESTS);
    SecondRelease(policy, After(policy, TWO_REQUESTS));
    AfterOneMore(policy, TWO_REQUESTS, FAILURE);
  }

  // ---------- Fees that are not covered ----------

  const DRAIN := Payout(W.Request(9, Platform, 10_000))
  const DRAINED := SUBMITTED + [DRAIN]
  const DRAINED_WALLETS := Wallets(490_000, 0, 15_000)[Platform := Wallet(15_000, 15_000, 15_000, true)]

  lemma Drained(policy: ValidPolicy)
    ensures InOrder(policy, DRAINED)
    ensures Shows(After(policy, DRAINED),
                  [SPLIT, W.NewWithdrawal(9, Platform, 10_000, 5_000)],
                  DRAINED_WALLETS)
  {
    Submitted(policy);
    AfterOneMore(policy, SUBMITTED, DRAIN);
    StaysInOrder(policy, SUBMITTED, DRAIN);
    RequestWritten(policy, After(policy, SUBMITTED), 9, Platform, 10_000, 5_000);
  }

  /** The platform asks for all it has, shares included, before a payout fails and takes its share back. */
  lemma ShareTakenBackBreaks(policy: ValidPolicy)
    ensures Solvent(After(policy, DRAINED)) && !Solvent(After(policy, DRAINED + [FAILURE]))
  {
    Drained(policy);
    StaysGood(policy, DRAINED);
    AfterOneMore(policy, DRAINED, FAILURE);
    ShareTaken(policy, After(policy, DRAINED));
  }

  lemma ShareTaken(policy: ValidPolicy, s: State)
    requires Good(s) && Shows(s, [SPLIT, W.NewWithdrawal(9, Platform, 10_000, 5_000)], DRAINED_WALLETS)
    ensures Solvent(s) && !Solvent(Step(policy, s, FAILURE).state)
  {
    FailedPayoutSolventExactly(s, 0);
    assert Slack(s, Platform) == 0;
  }

  const PLATFORM_REQUEST := Payout(W.Request(9, Platform, 5_000))
  const PLATFORM_REQUESTED := FUNDED + [PLATFORM_REQUEST]
  const APPROVE := Payout(W.ApprovePlatform(0, 8, false))
  const APPROVED := PLATFORM_REQUESTED + [APPROVE]

  lemma PlatformRequested(policy: ValidPolicy)
    ensures InOrder(policy, PLATFORM_REQUESTED)
    ensures Shows(After(policy, PLATFORM_REQUESTED),
                  [PLATFORM_ASKED],
                  Wallets(1_000_000, 0, 10_000)[Platform := Wallet(10_000, 10_000, 10_000, true)])
    ensures |After(policy, PLATFORM_REQUESTED).entries| == 1
  {
    Funded(policy);
    AfterOneMore(policy, FUNDED, PLATFORM_REQUEST);
    RequestStaysInOrder(policy, PLATFORM_REQUEST);
    RequestWritten(policy, After(policy, FUNDED), 9, Platform, 5_000, 5_000);
  }

  const PLATFORM_ASKED := W.NewWithdrawal(9, Platform, 5_000, 5_000)
  const PLATFORM_PAID := PLATFORM_ASKED.(status := PayoutStatus.Processing, entry := Some(1), submitting := true)

  /** Another administrator approves the platform's request. */
  lemma ApprovalWritten(policy: FeePolicy, s: State)
    requires Sound(s) && |s.entries| == 1
    requires Shows(s, [PLATFORM_ASKED], Wallets(1_000_000, 0, 10_000)[Platform := Wallet(10_000, 10_000, 10_000, true)])
    ensures Shows(Step(policy, s, APPROVE).state, [PLATFORM_PAID], Wallets(1_000_000, 0, 0))
  {
    SettleResult(s, 0, true);
  }

  lemma Approved(policy: ValidPolicy)
    ensures InOrder(policy, APPROVED) && Shows(After(policy, APPROVED), [PLATFORM_PAID], Wallets(1_000_000, 0, 0))
  {
    PlatformRequested(policy);
    StaysGood(policy, PLATFORM_REQUESTED);
    AfterOneMore(policy, PLATFORM_REQUESTED, APPROVE);
    StaysInOrder(policy, PLATFORM_REQUESTED, APPROVE);
    ApprovalWritten(policy, After(policy, PLATFORM_REQUESTED));
  }

  /** The provider charges more than was quoted, and the wallet has nothing left. */
  lemma HigherFeeBreaks(policy: ValidPolicy)
    ensures Solvent(After(policy, APPROVED))
    ensures !Solvent(After(policy, APPROVED + [Payout(W.Submit(0, Some(1), Some(6_000)))]))
  {
    Approved(policy);
    StaysGood(policy, APPROVED);
    AfterOneMore(policy, APPROVED, Payout(W.Submit(0, Some(1), Some(6_000))));
    SubmissionSolventExactly(After(policy, APPROVED), 0, Some(1), Some(6_000));
  }

  // ---------- Holds and reports ----------

  /** The users' route settles a platform withdrawal and leaves its hold ACTIVE. */
  lemma WrongRouteBreaks(policy: ValidPolicy)
    ensures var s := After(policy, PLATFORM_REQUESTED + [SETTLE]);
            Reserved(s) && !HoldsFollow(s)
  {
    PlatformRequested(policy);
    AfterOneMore(policy, PLATFORM_REQUESTED, SETTLE);
    StaysInOrder(policy, PLATFORM_REQUESTED, SETTLE);
    StaysGood(policy, PLATFORM_REQUESTED);
    StaysGood(policy, PLATFORM_REQUESTED + [SETTLE]);
    assert HoldsFollow(After(policy, PLATFORM_REQUESTED)) by {
      Funded(policy);
      StaysGood(policy, FUNDED);
      AfterOneMore(policy, FUNDED, PLATFORM_REQUEST);
      FundedHolds(policy);
      StepFollows(policy, After(policy, FUNDED), PLATFORM_REQUEST);
    }
    SettleFollowsExactly(After(policy, PLATFORM_REQUESTED), 0, false);
  }

  lemma FundedHolds(policy: ValidPolicy)
    ensures After(policy, FUNDED).holds == []
  {
    Initiated(policy);
    Credited(policy);
  }

  /** One collection, and the reconciliation report of its day is off by twice its amount. */
  lemma FirstCollectionUnreconciled(policy: ValidPolicy)
    ensures ORGANIZATION in After(policy, FUNDED).wallets && |After(policy, FUNDED).entries| == 1
    ensures var s, account := After(policy, FUNDED), WalletAccount(ORGANIZATION);
            && !Reconciles(s, [true], account)
            && AccountBalance(s, account) - Reported(s.entries, [true], account) == 2_000_000
  {
    Funded(policy);
    Initiated(policy);
    Credited(policy);
    var account := WalletAccount(ORGANIZATION);
    var entry := Entry(ForPayment(100), CollectionLines(7, 1_010_000, 1_000_000, 10_000), Posted, true);
    assert After(policy, FUNDED).entries == [entry];
    assert Reported([entry], [true], account) == NetOn(account)(entry);
    CollectionSums(7, 1_010_000, 1_000_000, 10_000, SignedOn(account));
  }

  // ---------- A refund without a debit ----------

  const EARLY := REQUESTED + [Payout(W.PayoutPending(0))]
  const UNDEBITED := EARLY + [FAILURE]

  lemma EarlyNoticed(policy: ValidPolicy)
    ensures Shows(After(policy, EARLY), [ASKED.(status := PayoutStatus.Processing)],
                  Wallets(1_000_000, 510_000, 10_000))
    ensures EarlyCount(policy, EMPTY, EARLY, 0) == 1
    ensures After(policy, EARLY).clearing == 0
  {
    Requested(policy);
    StaysGood(policy, REQUESTED);
    assert After(policy, REQUESTED).clearing == Sum([ASKED], InTransit) == 0;
    AfterOneMore(policy, REQUESTED, Payout(W.PayoutPending(0)));
    assert EARLY[..|EARLY| - 1] == REQUESTED;
    MovedAtMostOnce(policy, EMPTY, EARLY, 0);
  }

  /** A request that was never debited gets its cost paid into the wallet, out of account 1100. */
  lemma RefundedWithoutDebit(policy: ValidPolicy)
    ensures DebitCount(policy, EMPTY, UNDEBITED, 0) == 0 && RefundCount(policy, EMPTY, UNDEBITED, 0) == 1
    ensures BalanceAt(After(policy, UNDEBITED), ORGANIZATION) == 1_510_000
    ensures After(policy, UNDEBITED).clearing == -510_000
  {
    EarlyNoticed(policy);
    AfterOneMore(policy, EARLY, FAILURE);
    assert UNDEBITED[..|UNDEBITED| - 1] == EARLY;
    FailFrame(After(policy, EARLY), 0);
    BalanceSplits(After(policy, UNDEBITED), ORGANIZATION);
    MovedAtMostOnce(policy, EMPTY, UNDEBITED, 0);
  }
}
