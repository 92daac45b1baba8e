/**
  Withdrawal charges and the largest amount a wallet can pay out. Amounts are
  integer kobo; the percentage fee is computed over the reals and rounded half up.
 */
module Charges {
  import opened Tables

  const ORGANIZATION_WITHDRAWAL_FEE := 10_000
  const BACHS_PAYOUT_FEE := 5_000
  const MINIMUM_WITHDRAWAL := 100

  /** The `fees.withdrawal` configuration; a zero bound means the bound is absent. */
  datatype FeePolicy = FeePolicy(enabled: bool, percentage: real, minFee: nat, maxFee: nat, flatFee: nat) {
    ghost predicate Valid() {
      percentage >= 0.0
    }
  }

  function Round(x: real): int {
    (x + 0.5).Floor
  }

  function Bounded(policy: FeePolicy, raw: int): int {
    var raised := if policy.minFee != 0 && raw < policy.minFee then policy.minFee else raw;
    if policy.maxFee != 0 && raised > policy.maxFee then policy.maxFee else raised
  }

  function UserFee(policy: FeePolicy, amount: int): int {
    if !policy.enabled then 0
    else Bounded(policy, Round(amount as real * (policy.percentage / 100.0))) + policy.flatFee
  }

  /** The fee charged on `amount`: a fixed one, or the configured policy. */
  function Fee(policy: FeePolicy, fixedFee: Option<nat>, amount: int): int {
    match fixedFee
    case Some(fee) => fee
    case None => UserFee(policy, amount)
  }

  /** Amount and fee fit what is available. */
  predicate Fits(policy: FeePolicy, fixedFee: Option<nat>, available: int, amount: int) {
    amount + Fee(policy, fixedFee, amount) <= available
  }

  /** The test inside the request transactions, on the locked wallet row. */
  predicate RequestAccepted(policy: FeePolicy, fixedFee: Option<nat>, balance: int, held: int, amount: int) {
    !(balance - held < amount + Fee(policy, fixedFee, amount))
  }

  lemma FeeIsMonotone(policy: FeePolicy, fixedFee: Option<nat>, a: int, b: int)
    requires policy.Valid() && 0 <= a <= b
    ensures 0 <= Fee(policy, fixedFee, a) <= Fee(policy, fixedFee, b)
  {
    var rate := policy.percentage / 100.0;
    assert rate >= 0.0;
    ProductIsMonotone(0.0, a as real, rate);
    ProductIsMonotone(a as real, b as real, rate);
    RoundIsMonotone(0.0, a as real * rate);
    RoundIsMonotone(a as real * rate, b as real * rate);
  }

  lemma ProductIsMonotone(x: real, y: real, rate: real)
    requires x <= y && rate >= 0.0
    ensures x * rate <= y * rate
  {
    assert (y - x) * rate >= 0.0;
  }

  lemma RoundIsMonotone(x: real, y: real)
    requires x <= y
    ensures Round(x) <= Round(y)
  {}

  // ---------- What the fee is ----------

  /** `k` is the integer nearest to the percentage of the amount, a half rounded up. */
  ghost predicate NearestFee(policy: FeePolicy, amount: int, k: int) {
    k as real - 0.5 <= amount as real * policy.percentage / 100.0 < k as real + 0.5
  }

  lemma OneNearestFee(policy: FeePolicy, amount: int)
    ensures exists k :: NearestFee(policy, amount, k)
    ensures forall k, l :: NearestFee(policy, amount, k) && NearestFee(policy, amount, l) ==> k == l
  {
    var x := amount as real * policy.percentage / 100.0;
    assert NearestFee(policy, amount, (x + 0.5).Floor);
  }

  /** Without a configured fee a user pays none. */
  lemma DisabledIsFree(policy: FeePolicy, amount: int)
    requires !policy.enabled
    ensures Fee(policy, None, amount) == 0
  {}

  /**
    With one, the nearest percentage is raised to the least fee, if one is set, then cut to the
    greatest, if one is set, and the flat fee comes on top.
   */
  lemma EnabledFeeExactly(policy: FeePolicy, amount: int, k: int)
    requires policy.enabled && NearestFee(policy, amount, k)
    ensures var charged := Fee(policy, None, amount) - policy.flatFee;
            && (policy.maxFee != 0 ==> charged <= policy.maxFee)
            && (policy.minFee != 0 && (policy.maxFee == 0 || policy.minFee <= policy.maxFee) ==>
                  charged >= policy.minFee)
            && (charged == k
                || (policy.minFee != 0 && k < charged == policy.minFee)
                || (policy.maxFee != 0 && charged == policy.maxFee && (k > charged || policy.minFee > charged)))
            && (0 < policy.maxFee < policy.minFee && k < policy.minFee ==> charged == policy.maxFee)
  {
    assert amount as real * (policy.percentage / 100.0) == amount as real * policy.percentage / 100.0;
  }

  /** `best` is the greatest amount that fits, or 0 when no positive amount does. */
  ghost predicate IsMaximum(policy: FeePolicy, fixedFee: Option<nat>, available: int, best: int) {
    && best >= 0
    && (best > 0 ==> Fits(policy, fixedFee, available, best))
    && forall amount :: amount > best ==> !Fits(policy, fixedFee, available, amount)
  }

  method CalculateMaximumWithdrawal(policy: FeePolicy, available: int, fixedFee: Option<nat>) returns (best: int)
    requires policy.Valid()
    ensures IsMaximum(policy, fixedFee, available, best)
  {
    if available <= 0 {
      forall amount | amount > 0 ensures !Fits(policy, fixedFee, available, amount) {
        FeeIsMonotone(policy, fixedFee, amount, amount);
      }
      return 0;
    }
    if fixedFee.Some? {
      return Max(0, available - fixedFee.value);
    }
    var low, high := 0, available;
    forall amount | amount > high ensures !Fits(policy, fixedFee, available, amount) {
      FeeIsMonotone(policy, fixedFee, amount, amount);
    }
    while low < high
      invariant 0 <= low <= high
      invariant low > 0 ==> Fits(policy, fixedFee, available, low)
      invariant forall amount :: amount > high ==> !Fits(policy, fixedFee, available, amount)
    {
      var candidate := (low + high + 1) / 2;
      if candidate + UserFee(policy, candidate) <= available {
        low := candidate;
      } else {
        forall amount | amount >= candidate ensures !Fits(policy, fixedFee, available, amount) {
          FeeIsMonotone(policy, fixedFee, candidate, amount);
        }
        high := candidate - 1;
      }
    }
    return low;
  }

  datatype Quote = Quote(available: int, fee: int, totalDebit: int, maxWithdrawable: int, canWithdraw: bool)

  /**
    The quote shown before a request. With an amount, `canWithdraw` says exactly whether
    the request step accepts it; without one, whether it accepts any amount at all.
   */
  method GetWithdrawalQuote(policy: FeePolicy, fixedFee: Option<nat>, balance: int, held: int, amount: Option<int>)
      returns (quote: Quote)
    requires policy.Valid()
    ensures IsMaximum(policy, fixedFee, Max(0, balance - held), quote.maxWithdrawable)
    ensures amount.Some? ==>
              (quote.canWithdraw
               <==> && amount.value >= MINIMUM_WITHDRAWAL
                    && RequestAccepted(policy, fixedFee, balance, held, amount.value))
    ensures amount.None? ==>
              (quote.canWithdraw
               <==> exists a :: a >= MINIMUM_WITHDRAWAL && RequestAccepted(policy, fixedFee, balance, held, a))
    ensures quote.totalDebit
         == if amount.Some? && amount.value != 0 then amount.value + Fee(policy, fixedFee, amount.value) else 0
  {
    var available := Max(0, balance - held);
    var maxWithdrawable := CalculateMaximumWithdrawal(policy, available, fixedFee);
    forall a | a >= MINIMUM_WITHDRAWAL
      ensures Fits(policy, fixedFee, available, a) <==> RequestAccepted(policy, fixedFee, balance, held, a)
    {
      FeeIsMonotone(policy, fixedFee, a, a);
    }
    var asked := amount.Some? && amount.value != 0;
    var fee := if asked then Fee(policy, fixedFee, amount.value) else 0;
    var totalDebit := if asked then amount.value + fee else 0;
    var canWithdraw := if amount.Some?
                       then amount.value >= MINIMUM_WITHDRAWAL && totalDebit <= available
                       else maxWithdrawable >= MINIMUM_WITHDRAWAL;
    assert maxWithdrawable >= MINIMUM_WITHDRAWAL ==> RequestAccepted(policy, fixedFee, balance, held, maxWithdrawable);
    return Quote(available, fee, totalDebit, maxWithdrawable, canWithdraw);
  }
}
