/**
  The idempotency protocol for one key of one user: any number of callers, each taking
  its Redis commands one at a time, interleaved in any order with the passing of time.
  Times are milliseconds.
 */
module Idempotency {
  import opened Tables

  const LOCK_TTL := 30_000
  const RESPONSE_TTL := 86_400_000
  const RETRY_DELAY := 100

  /** A processor's result; a falsy one (null, false, 0, empty text) reads back as missing. */
  datatype Value = Truthy(content: nat) | Falsy(content: nat)

  datatype Answer = Returned(value: Value) | Conflict | Failed

  /** Where one call of `processWithIdempotency` stands; the phases with `lockedAt` hold the lock. */
  datatype Phase =
    | Arriving
    | Missed(seen: nat)
    | Processing(lockedAt: int)
    | Computed(lockedAt: int, value: Value)
    | Storing(lockedAt: int, value: Value)
    | Throwing(lockedAt: int)
    | Waiting(since: int)
    | Finished(answer: Answer)

  datatype Response = Response(value: Value, at: int)

  /** One execution of the processor: who ran it, and how many responses were stored when the caller looked. */
  datatype Execution = Execution(caller: nat, seen: nat)

  datatype State = State(
    now: int,
    cached: Option<Response>,
    lockedUntil: Option<int>,
    phases: map<nat, Phase>,
    stores: seq<Response>,
    executions: seq<Execution>)

  const INITIAL := State(0, None, None, map[], [], [])

  datatype Action =
    | Tick(milliseconds: nat)
    | Lookup(caller: nat)
    | Acquire(caller: nat)
    | Compute(caller: nat, result: Option<Value>)
    | Store(caller: nat)
    | Release(caller: nat)
    | Retry(caller: nat)

  function PhaseOf(s: State, c: nat): Phase {
    if c in s.phases then s.phases[c] else Arriving
  }

  function At(s: State, c: nat, phase: Phase): State {
    s.(phases := s.phases[c := phase])
  }

  /** `getCachedResponse`: an expired or falsy response is none. */
  function CachedResponse(s: State): Option<Value> {
    if s.cached.Some? && s.now < s.cached.value.at + RESPONSE_TTL && s.cached.value.value.Truthy?
    then Some(s.cached.value.value) else None
  }

  predicate Locked(s: State) {
    s.lockedUntil.Some? && s.now < s.lockedUntil.value
  }

  /** One command of one caller; an action that is not its next one changes nothing. */
  function Next(s: State, action: Action): State {
    match action
    case Tick(milliseconds) => s.(now := s.now + milliseconds)
    case Lookup(c) =>
      if !PhaseOf(s, c).Arriving? then s
      else if CachedResponse(s).Some? then At(s, c, Finished(Returned(CachedResponse(s).value)))
      else At(s, c, Missed(|s.stores|))
    case Acquire(c) =>
      if !PhaseOf(s, c).Missed? then s
      else if Locked(s) then At(s, c, Waiting(s.now))
      else
        At(s, c, Processing(s.now)).(lockedUntil := Some(s.now + LOCK_TTL),
                                     executions := s.executions + [Execution(c, PhaseOf(s, c).seen)])
    case Compute(c, result) =>
      if !PhaseOf(s, c).Processing? then s
      else if result.Some? then At(s, c, Computed(PhaseOf(s, c).lockedAt, result.value))
      else At(s, c, Throwing(PhaseOf(s, c).lockedAt))
    case Store(c) =>
      if !PhaseOf(s, c).Computed? then s
      else
        var response := Response(PhaseOf(s, c).value, s.now);
        At(s, c, Storing(PhaseOf(s, c).lockedAt, response.value)).(
          cached := Some(response), stores := s.stores + [response])
    case Release(c) =>
      if PhaseOf(s, c).Storing? then At(s, c, Finished(Returned(PhaseOf(s, c).value))).(lockedUntil := None)
      else if PhaseOf(s, c).Throwing? then At(s, c, Finished(Failed)).(lockedUntil := None)
      else s
    case Retry(c) =>
      if !PhaseOf(s, c).Waiting? || s.now < PhaseOf(s, c).since + RETRY_DELAY then s
      else At(s, c, Finished(if CachedResponse(s).Some? then Returned(CachedResponse(s).value) else Conflict))
  }

  function Run(actions: seq<Action>): State {
    if actions == [] then INITIAL else Next(Run(actions[..|actions| - 1]), actions[|actions| - 1])
  }

  /**
    A caller that found the lock taken looks once more after its delay: it gets the newest
    response if one is stored, still fresh and not falsy, and is turned away otherwise.
   */
  lemma RetryExactly(s: State, c: nat)
    requires PhaseOf(s, c).Waiting?
    ensures var after := Next(s, Retry(c));
            if s.now < PhaseOf(s, c).since + 100 then after == s
            else
              && after == s.(phases := after.phases) && after.phases == s.phases[c := PhaseOf(after, c)]
              && (PhaseOf(after, c) == Finished(Conflict)
                  || exists v :: PhaseOf(after, c) == Finished(Returned(v)))
              && (forall v :: PhaseOf(after, c) == Finished(Returned(v))
                    <==> v.Truthy? && exists at :: s.cached == Some(Response(v, at)) && s.now < at + 86_400_000)
  {
    var after := Next(s, Retry(c));
    if s.cached.Some? {
      assert s.cached == Some(Response(s.cached.value.value, s.cached.value.at));
    }
  }

  /** What a caller's own commands write: the outcome of its processor, the stored response, the freed lock. */
  lemma CommandsExactly(s: State, c: nat, result: Option<Value>)
    ensures var computed, stored, released := Next(s, Compute(c, result)), Next(s, Store(c)), Next(s, Release(c));
            && (PhaseOf(s, c).Processing? ==>
                  computed == s.(phases := s.phases[c :=
                    match result
                    case Some(value) => Computed(PhaseOf(s, c).lockedAt, value)
                    case None => Throwing(PhaseOf(s, c).lockedAt)]))
            && (PhaseOf(s, c).Computed? ==>
                  && stored.cached == Some(Response(PhaseOf(s, c).value, s.now))
                  && stored == s.(cached := stored.cached, stores := s.stores + [stored.cached.value],
                                  phases := s.phases[c := Storing(PhaseOf(s, c).lockedAt, PhaseOf(s, c).value)]))
            && (PhaseOf(s, c).Storing? ==>
                  released == s.(lockedUntil := None, phases := s.phases[c := Finished(Returned(PhaseOf(s, c).value))]))
            && (PhaseOf(s, c).Throwing? ==>
                  released == s.(lockedUntil := None, phases := s.phases[c := Finished(Failed)]))
  {}

  /** A free lock is taken for 30 seconds; one that is held and has not run out makes the caller wait. */
  lemma AcquireExactly(s: State, c: nat)
    requires PhaseOf(s, c).Missed?
    ensures var after := Next(s, Acquire(c));
            if s.lockedUntil == None || s.now >= s.lockedUntil.value
            then after.lockedUntil == Some(s.now + 30_000) && PhaseOf(after, c) == Processing(s.now)
                 && after.cached == s.cached && after.stores == s.stores
            else after == s.(phases := after.phases) && PhaseOf(after, c) == Waiting(s.now)
  {}

  // ---------- No two processors overlap ----------

  predicate Holding(phase: Phase) {
    phase.Processing? || phase.Computed? || phase.Storing? || phase.Throwing?
  }

  /** Every caller that took the lock still has time left on it. */
  ghost predicate Timely(s: State) {
    forall c :: Holding(PhaseOf(s, c)) ==> s.now < PhaseOf(s, c).lockedAt + LOCK_TTL
  }

  ghost predicate AlwaysTimely(actions: seq<Action>) {
    Timely(Run(actions)) && (actions != [] ==> AlwaysTimely(actions[..|actions| - 1]))
  }

  ghost predicate Exclusive(s: State) {
    && (forall c, d :: Holding(PhaseOf(s, c)) && Holding(PhaseOf(s, d)) ==> c == d)
    && (forall c :: Holding(PhaseOf(s, c)) ==> s.lockedUntil == Some(PhaseOf(s, c).lockedAt + LOCK_TTL))
  }

  function CallerOf(action: Action): Option<nat> {
    if action.Tick? then None else Some(action.caller)
  }

  lemma OthersStay(s: State, action: Action, c: nat)
    requires CallerOf(action) != Some(c)
    ensures PhaseOf(Next(s, action), c) == PhaseOf(s, c)
  {
  }

  /** The action takes the lock while a caller whose lock has run out is still inside. */
  ghost predicate Overtakes(s: State, action: Action) {
    && action.Acquire? && PhaseOf(s, action.caller).Missed?
    && exists c :: Holding(PhaseOf(s, c)) && s.now >= PhaseOf(s, c).lockedAt + LOCK_TTL
  }

  /** No two callers are between taking the lock and releasing it. */
  ghost predicate Alone(s: State) {
    forall c, d :: Holding(PhaseOf(s, c)) && Holding(PhaseOf(s, d)) ==> c == d
  }

  lemma OvertakingOverlaps(s: State, action: Action)
    requires Exclusive(s) && Overtakes(s, action)
    ensures !Alone(Next(s, action))
  {
    var c :| Holding(PhaseOf(s, c)) && s.now >= PhaseOf(s, c).lockedAt + LOCK_TTL;
    OthersStay(s, action, c);
    assert Holding(PhaseOf(Next(s, action), c)) && Holding(PhaseOf(Next(s, action), action.caller));
  }

  /** One command keeps the lock exclusive exactly when it does not overtake an expired holder. */
  lemma StepIsExclusiveExactly(s: State, action: Action)
    requires Exclusive(s)
    ensures Exclusive(Next(s, action)) <==> !Overtakes(s, action)
    ensures Alone(Next(s, action)) <==> !Overtakes(s, action)
  {
    var after := Next(s, action);
    forall c: nat | CallerOf(action) != Some(c)
      ensures PhaseOf(after, c) == PhaseOf(s, c)
    {
      OthersStay(s, action, c);
    }
    if Overtakes(s, action) {
      OvertakingOverlaps(s, action);
    }
  }

  /** Along the whole run. */
  ghost predicate AlwaysAlone(actions: seq<Action>) {
    Alone(Run(actions)) && (actions != [] ==> AlwaysAlone(actions[..|actions| - 1]))
  }

  ghost predicate NeverOvertakes(actions: seq<Action>) {
    actions == []
    || (NeverOvertakes(actions[..|actions| - 1]) && !Overtakes(Run(actions[..|actions| - 1]), actions[|actions| - 1]))
  }

  /** No two callers are ever inside the lock together exactly when none takes it past an expired holder. */
  lemma {:induction false} NeverOverlapExactly(actions: seq<Action>)
    ensures AlwaysAlone(actions) <==> NeverOvertakes(actions)
    ensures NeverOvertakes(actions) ==> Exclusive(Run(actions))
  {
    if actions != [] {
      var before := actions[..|actions| - 1];
      NeverOverlapExactly(before);
      if NeverOvertakes(before) {
        StepIsExclusiveExactly(Run(before), actions[|actions| - 1]);
      }
    }
  }

  /**
    If every caller releases within the lifetime of its lock, no two callers are ever
    between taking the lock and releasing it, and the lock is there for the one that is.
   */
  lemma {:induction false} ProcessorsNeverOverlap(actions: seq<Action>)
    requires AlwaysTimely(actions)
    ensures NeverOvertakes(actions) && AlwaysAlone(actions) && Exclusive(Run(actions))
  {
    if actions != [] {
      ProcessorsNeverOverlap(actions[..|actions| - 1]);
    }
    NeverOverlapExactly(actions);
  }

  /** A release deletes whoever's lock is there: after one late caller two others overlap, both in time. */
  lemma LateReleaseOverlaps(v: Value)
    ensures
      var looked := Next(Next(Next(INITIAL, Lookup(1)), Lookup(2)), Lookup(3));
      var late := Next(Next(Next(looked, Acquire(1)), Compute(1, Some(v))), Tick(LOCK_TTL));
      var s := Next(Next(Next(Next(late, Acquire(2)), Store(1)), Release(1)), Acquire(3));
      && PhaseOf(s, 2) == Processing(LOCK_TTL) && PhaseOf(s, 3) == Processing(LOCK_TTL)
      && PhaseOf(s, 1) == Finished(Returned(v))
  {
  }

  // ---------- What the stored response prevents ----------

  predicate AllTruthy(stores: seq<Response>) {
    stores == [] || (AllTruthy(stores[..|stores| - 1]) && stores[|stores| - 1].value.Truthy?)
  }

  /** The newest response is the cached one, and none is older than the first. */
  predicate Remembers(s: State) {
    && (s.stores == [] ==> s.cached.None?)
    && (s.stores != [] ==>
          && s.cached == Some(s.stores[|s.stores| - 1])
          && s.stores[0].at <= s.stores[|s.stores| - 1].at <= s.now)
  }

  lemma {:induction false} RunRemembers(actions: seq<Action>)
    ensures Remembers(Run(actions))
  {
    if actions != [] {
      RunRemembers(actions[..|actions| - 1]);
    }
  }

  /** For a day after the first response a lookup returns the newest one without running anything. */
  lemma {:induction false} LookupReturnsNewest(actions: seq<Action>, caller: nat)
    requires
      var s := Run(actions);
      && s.stores != [] && s.stores[|s.stores| - 1].value.Truthy? && s.now < s.stores[0].at + RESPONSE_TTL
      && PhaseOf(s, caller).Arriving?
    ensures
      var s, after := Run(actions), Run(actions + [Lookup(caller)]);
      && PhaseOf(after, caller) == Finished(Returned(s.stores[|s.stores| - 1].value))
      && after.executions == s.executions
  {
    RunRemembers(actions);
    assert (actions + [Lookup(caller)])[..|actions|] == actions;
  }

  /** Nobody looked in vain after the first store. */
  ghost predicate LookedEarly(s: State) {
    && (forall c :: PhaseOf(s, c).Missed? ==> PhaseOf(s, c).seen == 0)
    && (forall i :: 0 <= i < |s.executions| ==> s.executions[i].seen == 0)
  }

  lemma MissesEarly(s: State, action: Action, c: nat)
    requires Remembers(s) && AllTruthy(s.stores) && (s.stores != [] ==> s.now < s.stores[0].at + RESPONSE_TTL)
    requires LookedEarly(s)
    ensures PhaseOf(Next(s, action), c).Missed? ==> PhaseOf(Next(s, action), c).seen == 0
  {
    if CallerOf(action) != Some(c) {
      OthersStay(s, action, c);
    }
  }

  lemma StepLooksEarly(s: State, action: Action)
    requires Remembers(s) && AllTruthy(s.stores) && (s.stores != [] ==> s.now < s.stores[0].at + RESPONSE_TTL)
    requires LookedEarly(s)
    ensures LookedEarly(Next(s, action))
  {
    forall c: nat | PhaseOf(Next(s, action), c).Missed?
      ensures PhaseOf(Next(s, action), c).seen == 0
    {
      MissesEarly(s, action, c);
    }
  }

  lemma StepExtends(s: State, action: Action)
    ensures s.stores <= Next(s, action).stores && s.now <= Next(s, action).now
    ensures AllTruthy(Next(s, action).stores) ==> AllTruthy(s.stores)
  {
    if action.Store? && PhaseOf(s, action.caller).Computed? {
      assert Next(s, action).stores[..|s.stores|] == s.stores;
    }
  }

  /**
    While results are truthy and the first response is less than a day old, every
    execution belongs to a caller whose lookup came before the first store.
   */
  lemma {:induction false} RepeatsLookedBeforeStore(actions: seq<Action>)
    requires AllTruthy(Run(actions).stores)
    requires Run(actions).stores != [] ==> Run(actions).now < Run(actions).stores[0].at + RESPONSE_TTL
    ensures LookedEarly(Run(actions))
  {
    if actions != [] {
      var before := Run(actions[..|actions| - 1]);
      StepExtends(before, actions[|actions| - 1]);
      RepeatsLookedBeforeStore(actions[..|actions| - 1]);
      RunRemembers(actions[..|actions| - 1]);
      StepLooksEarly(before, actions[|actions| - 1]);
    }
  }

  /** Two callers that both look before either stores run the processor twice, one after the other. */
  lemma EarlyLookupRunsAgain(v: Value, w: Value)
    ensures
      var looked := Next(Next(INITIAL, Lookup(1)), Lookup(2));
      var once := Next(Next(Next(Next(looked, Acquire(1)), Compute(1, Some(v))), Store(1)), Release(1));
      var s := Next(Next(Next(Next(once, Acquire(2)), Compute(2, Some(w))), Store(2)), Release(2));
      && s.executions == [Execution(1, 0), Execution(2, 0)]
      && PhaseOf(s, 1) == Finished(Returned(v)) && PhaseOf(s, 2) == Finished(Returned(w))
  {
  }

  // ---------- Callers and answers ----------

  /** A call before it runs the processor, or one that never does. */
  predicate MayStillRun(phase: Phase) {
    phase.Arriving? || phase.Missed?
  }

  ghost predicate RunsOnce(s: State) {
    && (forall i :: 0 <= i < |s.executions| ==> !MayStillRun(PhaseOf(s, s.executions[i].caller)))
    && (forall i, j :: 0 <= i < j < |s.executions| ==> s.executions[i].caller != s.executions[j].caller)
  }

  /** Every call runs its processor at most once, whatever the timing. */
  lemma {:induction false} EachCallerRunsOnce(actions: seq<Action>)
    ensures RunsOnce(Run(actions))
  {
    if actions != [] {
      EachCallerRunsOnce(actions[..|actions| - 1]);
    }
  }

  predicate WasStored(s: State, v: Value) {
    exists i :: 0 <= i < |s.stores| && s.stores[i].value == v
  }

  ghost predicate AnswersStored(s: State) {
    forall c ::
      && (PhaseOf(s, c).Storing? ==> WasStored(s, PhaseOf(s, c).value))
      && (PhaseOf(s, c).Finished? && PhaseOf(s, c).answer.Returned? ==> WasStored(s, PhaseOf(s, c).answer.value))
  }

  lemma StillStored(s: State, action: Action, v: Value)
    requires WasStored(s, v)
    ensures WasStored(Next(s, action), v)
  {
    var i :| 0 <= i < |s.stores| && s.stores[i].value == v;
    StepExtends(s, action);
    assert Next(s, action).stores[i].value == v;
  }

  /** Every value a caller is given was computed by some processor and stored. */
  lemma {:induction false} AnswersWereStored(actions: seq<Action>)
    ensures AnswersStored(Run(actions))
  {
    if actions != [] {
      var before, action := Run(actions[..|actions| - 1]), actions[|actions| - 1];
      AnswersWereStored(actions[..|actions| - 1]);
      RunRemembers(actions[..|actions| - 1]);
      AnswersStayStored(before, action);
    }
  }

  lemma AnswersStayStored(s: State, action: Action)
    requires Remembers(s) && AnswersStored(s)
    ensures AnswersStored(Next(s, action))
  {
    var after := Next(s, action);
    forall v | WasStored(s, v)
      ensures WasStored(after, v)
    {
      StillStored(s, action, v);
    }
    if CachedResponse(s).Some? {
      assert s.stores[|s.stores| - 1].value == CachedResponse(s).value;
      assert WasStored(s, CachedResponse(s).value);
    }
    if action.Store? && PhaseOf(s, action.caller).Computed? {
      assert after.stores[|s.stores|].value == PhaseOf(s, action.caller).value;
    }
    forall c: nat | CallerOf(action) != Some(c)
      ensures PhaseOf(after, c) == PhaseOf(s, c)
    {
      OthersStay(s, action, c);
    }
  }

  // ---------- One protocol for each user and key ----------

  function CacheKey(user: string, key: string): string {
    "idempotency:" + user + ":" + key
  }

  function LockKey(user: string, key: string): string {
    "idempotency:lock:" + CacheKey(user, key)
  }

  lemma FirstColon(user: string, rest: string)
    requires ':' !in user
    ensures var text := user + ":" + rest;
            && text[|user|] == ':' && text[..|user|] == user && text[|user| + 1..] == rest
            && forall i :: 0 <= i < |user| ==> text[i] != ':'
  {
    var text := user + ":" + rest;
    assert forall i :: 0 <= i < |user| ==> text[i] == user[i];
  }

  /** A text splits at its first colon in one way. */
  lemma SplitsOnce(user1: string, rest1: string, user2: string, rest2: string)
    requires ':' !in user1 && ':' !in user2
    ensures user1 + ":" + rest1 == user2 + ":" + rest2 <==> user1 == user2 && rest1 == rest2
  {
    FirstColon(user1, rest1);
    FirstColon(user2, rest2);
  }

  lemma Stripped(prefix: string, a: string, b: string)
    ensures prefix + a == prefix + b <==> a == b
  {
    assert (prefix + a)[|prefix|..] == a && (prefix + b)[|prefix|..] == b;
  }

  lemma CacheKeysDiffer(user1: string, key1: string, user2: string, key2: string)
    requires ':' !in user1 && ':' !in user2
    ensures CacheKey(user1, key1) == CacheKey(user2, key2) <==> user1 == user2 && key1 == key2
  {
    SplitsOnce(user1, key1, user2, key2);
    Stripped("idempotency:", user1 + ":" + key1, user2 + ":" + key2);
    assert CacheKey(user1, key1) == "idempotency:" + (user1 + ":" + key1);
    assert CacheKey(user2, key2) == "idempotency:" + (user2 + ":" + key2);
  }

  /** While user names hold no colon, two requests share a Redis entry only if one user is called "lock". */
  lemma EntriesAreSeparate(user1: string, key1: string, user2: string, key2: string)
    requires ':' !in user1 && ':' !in user2
    ensures CacheKey(user1, key1) == CacheKey(user2, key2) <==> user1 == user2 && key1 == key2
    ensures LockKey(user1, key1) == LockKey(user2, key2) <==> user1 == user2 && key1 == key2
    ensures CacheKey(user1, key1) == LockKey(user2, key2) <==> user1 == "lock" && key1 == CacheKey(user2, key2)
  {
    CacheKeysDiffer(user1, key1, user2, key2);
    Stripped("idempotency:lock:", CacheKey(user1, key1), CacheKey(user2, key2));
    CacheKeysDiffer(user1, key1, "lock", CacheKey(user2, key2));
    assert LockKey(user2, key2) == CacheKey("lock", CacheKey(user2, key2)) by {
      assert "idempotency:lock:" == "idempotency:" + "lock" + ":";
    }
  }
}
