/**
  The sliding-window rate limiter over a Redis sorted set whose key expires. Times are
  milliseconds since 1970 and not negative; calls for one key are taken one at a time,
  the clock never steps back, and the random suffix makes every member distinct.
 */
module RateLimiter {
  import opened Tables

  const EXPIRY_MARGIN_SECONDS := 10

  /** The clock never stepped back. */
  predicate Ordered(times: seq<int>) {
    |times| <= 1 || (Ordered(times[..|times| - 1]) && times[|times| - 2] <= times[|times| - 1])
  }

  predicate UpTo(scores: seq<int>, bound: int) {
    scores == [] || (UpTo(scores[..|scores| - 1], bound) && scores[|scores| - 1] <= bound)
  }

  /** What is left of a sorted set after removing all scores up to `cutoff`. */
  function After(scores: seq<int>, cutoff: int): seq<int> {
    if scores == [] then []
    else
      var last := |scores| - 1;
      After(scores[..last], cutoff) + if scores[last] > cutoff then [scores[last]] else []
  }

  // ---------- The limiter as a rule about the history of requests ----------

  /** How many earlier requests, allowed or not, came after `cutoff`. */
  function Recent(times: seq<int>, cutoff: int): nat {
    if times == [] then 0
    else
      var last := |times| - 1;
      Recent(times[..last], cutoff) + if times[last] > cutoff then 1 else 0
  }

  predicate Allowed(times: seq<int>, i: nat, limit: nat, window: nat)
    requires i < |times|
  {
    Recent(times[..i], times[i] - window) < limit
  }

  /** Allowed requests among the first `n` with a time in `(from, to]`. */
  function AllowedWithin(times: seq<int>, n: nat, limit: nat, window: nat, from: int, to: int): nat
    requires n <= |times|
  {
    if n == 0 then 0
    else
      AllowedWithin(times, n - 1, limit, window, from, to)
      + if Allowed(times, n - 1, limit, window) && from < times[n - 1] <= to then 1 else 0
  }

  lemma {:induction false} AllowedAreRecent(times: seq<int>, n: nat, limit: nat,
                                            window: nat, from: int, to: int, cutoff: int)
    requires n <= |times| && cutoff <= from
    ensures AllowedWithin(times, n, limit, window, from, to) <= Recent(times[..n], cutoff)
  {
    if n > 0 {
      AllowedAreRecent(times, n - 1, limit, window, from, to, cutoff);
      assert times[..n][..n - 1] == times[..n - 1];
    }
  }

  /** No window of the limiter's length ever holds more than `limit` allowed requests. */
  lemma {:induction false} WindowIsBounded(times: seq<int>, n: nat, limit: nat, window: nat, t: int)
    requires n <= |times|
    ensures AllowedWithin(times, n, limit, window, t - window, t) <= limit
  {
    if n > 0 {
      WindowIsBounded(times, n - 1, limit, window, t);
      if Allowed(times, n - 1, limit, window) && t - window < times[n - 1] <= t {
        AllowedAreRecent(times, n - 1, limit, window, t - window, t, times[n - 1] - window);
      }
    }
  }

  // ---------- The sorted set remembers enough of the history ----------

  /** The set's scores after the requests at `times`. */
  function Scores(times: seq<int>, window: nat): seq<int> {
    if times == [] then []
    else
      var last := |times| - 1;
      After(Scores(times[..last], window), times[last] - window) + [times[last]]
  }

  lemma {:induction false} AfterAfter(scores: seq<int>, a: int, b: int)
    requires a <= b
    ensures After(After(scores, a), b) == After(scores, b)
  {
    if scores != [] {
      var last := |scores| - 1;
      AfterAfter(scores[..last], a, b);
      var kept := After(scores[..last], a);
      if scores[last] > a {
        assert (kept + [scores[last]])[..|kept|] == kept;
      } else {
        assert kept + [] == kept;
      }
    }
  }

  lemma AfterAppend(scores: seq<int>, score: int, cutoff: int)
    ensures After(scores + [score], cutoff) == After(scores, cutoff) + if score > cutoff then [score] else []
  {
    assert (scores + [score])[..|scores|] == scores;
  }

  predicate NotBefore(times: seq<int>, now: int) {
    Ordered(times) && (times != [] ==> times[|times| - 1] <= now)
  }

  /** Trimming loses nothing: what is left counts every recent request of the whole history. */
  lemma {:induction false} TrimmingIsSafe(times: seq<int>, window: nat, now: int)
    requires NotBefore(times, now)
    ensures |After(Scores(times, window), now - window)| == Recent(times, now - window)
  {
    if times != [] {
      EarlierNotBefore(times, now);
      TrimmingIsSafe(times[..|times| - 1], window, now);
      OneMoreTime(times[..|times| - 1], times[|times| - 1], window, now);
      assert times[..|times| - 1] + [times[|times| - 1]] == times;
    }
  }

  lemma EarlierNotBefore(times: seq<int>, now: int)
    requires times != [] && NotBefore(times, now)
    ensures NotBefore(times[..|times| - 1], now) && times[|times| - 1] <= now
  {}

  lemma OneMoreTime(earlier: seq<int>, latest: int, window: nat, now: int)
    requires latest <= now
    ensures |After(Scores(earlier + [latest], window), now - window)|
         == |After(Scores(earlier, window), now - window)| + if latest > now - window then 1 else 0
    ensures Recent(earlier + [latest], now - window)
         == Recent(earlier, now - window) + if latest > now - window then 1 else 0
  {
    ScoresAppend(earlier, latest, window);
    TrimmingStep(Scores(earlier, window), latest, window, now);
    RecentAppend(earlier, latest, now - window);
  }

  lemma ScoresAppend(earlier: seq<int>, latest: int, window: nat)
    ensures Scores(earlier + [latest], window) == After(Scores(earlier, window), latest - window) + [latest]
  {
    assert (earlier + [latest])[..|earlier|] == earlier;
  }

  lemma RecentAppend(earlier: seq<int>, latest: int, cutoff: int)
    ensures Recent(earlier + [latest], cutoff) == Recent(earlier, cutoff) + if latest > cutoff then 1 else 0
  {
    assert (earlier + [latest])[..|earlier|] == earlier;
  }

  lemma TrimmingStep(scores: seq<int>, latest: int, window: nat, now: int)
    requires latest <= now
    ensures |After(After(scores, latest - window) + [latest], now - window)|
         == |After(scores, now - window)| + if latest > now - window then 1 else 0
  {
    AfterAppend(After(scores, latest - window), latest, now - window);
    AfterAfter(scores, latest - window, now - window);
  }

  lemma {:induction false} NothingAfter(scores: seq<int>, cutoff: int)
    requires UpTo(scores, cutoff)
    ensures After(scores, cutoff) == []
  {
    if scores != [] {
      NothingAfter(scores[..|scores| - 1], cutoff);
    }
  }

  lemma {:induction false} ScoresComeFrom(times: seq<int>, window: nat)
    requires Ordered(times)
    ensures times != [] ==> UpTo(Scores(times, window), times[|times| - 1])
  {
    if times != [] {
      var last := |times| - 1;
      var scores := Scores(times[..last], window);
      ScoresComeFrom(times[..last], window);
      if last > 0 {
        UpToHigher(scores, times[last - 1], times[last]);
      }
      AfterKeeps(scores, times[last] - window, times[last]);
      UpToAppend(After(scores, times[last] - window), times[last], times[last]);
    }
  }

  lemma {:induction false} UpToHigher(scores: seq<int>, a: int, b: int)
    requires UpTo(scores, a) && a <= b
    ensures UpTo(scores, b)
  {
    if scores != [] {
      UpToHigher(scores[..|scores| - 1], a, b);
    }
  }

  lemma UpToAppend(scores: seq<int>, score: int, bound: int)
    requires UpTo(scores, bound) && score <= bound
    ensures UpTo(scores + [score], bound)
  {
    assert (scores + [score])[..|scores|] == scores;
  }

  lemma {:induction false} AfterKeeps(scores: seq<int>, cutoff: int, bound: int)
    requires UpTo(scores, bound)
    ensures UpTo(After(scores, cutoff), bound)
  {
    if scores != [] {
      var last := |scores| - 1;
      AfterKeeps(scores[..last], cutoff, bound);
      UpToAppend(After(scores[..last], cutoff), scores[last], bound);
      assert After(scores[..last], cutoff) + [] == After(scores[..last], cutoff);
    }
  }

  /** What Redis returns at `now` for a key that expires at `expiresAt`. */
  function Live(scores: seq<int>, expiresAt: int, now: int): seq<int> {
    if now >= expiresAt then [] else scores
  }

  /** Expiring the key at any time from one window after its last request never changes an answer. */
  lemma ExpiryIsSafe(times: seq<int>, window: nat, expiresAt: int, now: int)
    requires times != [] && Ordered(times) && expiresAt >= times[|times| - 1] + window
    ensures After(Live(Scores(times, window), expiresAt, now), now - window)
         == After(Scores(times, window), now - window)
  {
    if now >= expiresAt {
      ScoresComeFrom(times, window);
      UpToHigher(Scores(times, window), times[|times| - 1], now - window);
      NothingAfter(Scores(times, window), now - window);
    }
  }

  /** A stored set and expiry that stand for a history of requests. */
  predicate Follows(scores: seq<int>, expiresAt: int, history: seq<int>, window: nat) {
    && Ordered(history) && scores == Scores(history, window)
    && (history != [] ==> expiresAt == history[|history| - 1] + window + EXPIRY_MARGIN_SECONDS * 1000)
  }

  /** What one call finds in the set: Redis drops an expired key, the call drops old scores. */
  function Kept(scores: seq<int>, expiresAt: int, window: nat, now: int): seq<int> {
    After(Live(scores, expiresAt, now), now - window)
  }

  lemma CallFollows(scores: seq<int>, expiresAt: int, history: seq<int>, window: nat, now: int)
    requires Follows(scores, expiresAt, history, window) && NotBefore(history, now)
    ensures |Kept(scores, expiresAt, window, now)| == Recent(history, now - window)
    ensures Follows(Kept(scores, expiresAt, window, now) + [now],
                    now + window + EXPIRY_MARGIN_SECONDS * 1000, history + [now], window)
  {
    if history != [] {
      ExpiryIsSafe(history, window, expiresAt, now);
    }
    TrimmingIsSafe(history, window, now);
    assert (history + [now])[..|history|] == history;
  }

  // ---------- The service ----------

  class Limiter {
    const limit: nat
    const window: nat
    var scores: seq<int>
    var expiresAt: int
    ghost var history: seq<int>

    ghost predicate Valid()
      reads this
    {
      Follows(scores, expiresAt, history, window)
    }

    constructor (limit: nat, windowSeconds: nat)
      ensures Valid() && history == [] && this.limit == limit && window == windowSeconds * 1000
    {
      this.limit, this.window := limit, windowSeconds * 1000;
      scores, expiresAt, history := [], 0, [];
    }

    method RemoveUpTo(cutoff: int)
      modifies this`scores
      ensures scores == After(old(scores), cutoff)
    {
      var kept := [];
      for i := 0 to |scores|
        invariant scores == old(scores) && kept == After(scores[..i], cutoff)
      {
        AfterAppend(scores[..i], scores[i], cutoff);
        assert scores[..i] + [scores[i]] == scores[..i + 1];
        if scores[i] > cutoff {
          kept := kept + [scores[i]];
        }
      }
      assert scores[..|scores|] == scores;
      scores := kept;
    }

    /** The commands of one call: trim, count, add, set the expiry. */
    method CountAndAdd(now: int) returns (count: nat)
      modifies this`scores, this`expiresAt
      ensures count == |Kept(old(scores), old(expiresAt), window, now)|
      ensures scores == Kept(old(scores), old(expiresAt), window, now) + [now]
      ensures expiresAt == now + window + EXPIRY_MARGIN_SECONDS * 1000
    {
      if now >= expiresAt {
        scores := [];
      }
      RemoveUpTo(now - window);
      count := |scores|;
      scores := scores + [now];
      expiresAt := now + window + EXPIRY_MARGIN_SECONDS * 1000;
    }

    /** The answer depends on the whole history of requests, as if nothing was trimmed or expired. */
    method RateLimit(now: int) returns (allowed: bool, remaining: nat, resetAt: int)
      requires Valid() && NotBefore(history, now)
      modifies this
      ensures Valid() && history == old(history) + [now]
      ensures allowed <==> Recent(old(history), now - window) < limit
      ensures remaining == Max(0, limit - Recent(old(history), now - window) - 1)
      ensures resetAt == now + window
    {
      CallFollows(scores, expiresAt, history, window, now);
      var count := CountAndAdd(now);
      history := history + [now];
      return count < limit, Max(0, limit - count - 1), now + window;
    }
  }
}
