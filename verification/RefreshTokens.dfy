/**
  Sessions and the rotation of their refresh tokens. Times are whole seconds, as in the
  issue time of a signed token; each request is one step, except login, which creates
  its session under a placeholder hash and stores the real hash later.
 */
module RefreshTokens {
  import opened Tables

  const TOKEN_LIFETIME := 2_592_000
  const USER_SESSION_LIFETIME := 2_592_000
  const ADMIN_SESSION_LIFETIME := 86_400

  datatype Client = User | OrganizationAdmin | PlatformAdmin

  /** A signed token is its payload: two tokens with the same payload are the same text. */
  datatype Token = Token(user: nat, session: nat, client: Client, issuedAt: int)

  datatype Hash = Placeholder | HashOf(token: Token)

  /** `active` stands for the flag and the revocation time, which are always written together. */
  datatype Session = Session(user: nat, client: Client, active: bool, expiresAt: int, lastUsedAt: int, hash: Hash)

  /** One accepted refresh: the token, and the session and application it was accepted for. */
  datatype Acceptance = Acceptance(token: Token, session: nat, scope: Client)

  /** A session's identifier is its position. */
  datatype State = State(sessions: seq<Session>, accepted: seq<Acceptance>)

  const EMPTY := State([], [])

  /** The refresh cookie of a request: absent, not signed by this service, or one of its tokens. */
  datatype Cookie = Absent | Unsigned | Signed(token: Token)

  // ---------- Finding a session ----------

  /** The payload, when the signature is good and the token has not expired. */
  function Verified(cookie: Cookie, now: int): Option<Token> {
    if cookie.Signed? && now < cookie.token.issuedAt + TOKEN_LIFETIME then Some(cookie.token) else None
  }

  predicate Live(session: Session, user: nat, scope: Client, now: int) {
    session.user == user && session.active && now < session.expiresAt && session.client == scope
  }

  /** Inserts `k` into a list of sessions ordered by last use, newest first. */
  function Insert(sessions: seq<Session>, order: seq<nat>, k: nat): seq<nat>
    requires k < |sessions| && forall i :: 0 <= i < |order| ==> order[i] < |sessions|
  {
    if order == [] || sessions[order[0]].lastUsedAt <= sessions[k].lastUsedAt then [k] + order
    else [order[0]] + Insert(sessions, order[1..], k)
  }

  lemma {:induction false} InsertHas(sessions: seq<Session>, order: seq<nat>, k: nat)
    requires k < |sessions| && forall i :: 0 <= i < |order| ==> order[i] < |sessions|
    ensures forall j :: j in Insert(sessions, order, k) <==> j == k || j in order
  {
    if order != [] && sessions[order[0]].lastUsedAt > sessions[k].lastUsedAt {
      InsertHas(sessions, order[1..], k);
      assert order == [order[0]] + order[1..];
    }
  }

  /** The live sessions of a user among the first `n`, by last use, newest first. */
  function Candidates(sessions: seq<Session>, n: nat, user: nat, scope: Client, now: int): (order: seq<nat>)
    requires n <= |sessions|
    ensures forall i :: 0 <= i < |order| ==> order[i] < |sessions| && Live(sessions[order[i]], user, scope, now)
  {
    if n == 0 then []
    else
      var order := Candidates(sessions, n - 1, user, scope, now);
      InsertHas(sessions, order, n - 1);
      if Live(sessions[n - 1], user, scope, now)
      then
        var r := Insert(sessions, order, n - 1);
        assert forall i :: 0 <= i < |r| ==> r[i] in r;
        r
      else order
  }

  function FirstMatch(sessions: seq<Session>, order: seq<nat>, token: Token): (r: Option<nat>)
    requires forall i :: 0 <= i < |order| ==> order[i] < |sessions|
    ensures r.Some? ==> r.value in order && sessions[r.value].hash == HashOf(token)
    ensures r.None? ==> forall k :: k in order ==> sessions[k].hash != HashOf(token)
  {
    if order == [] then None
    else if sessions[order[0]].hash == HashOf(token) then Some(order[0])
    else FirstMatch(sessions, order[1..], token)
  }

  /** The token's own session if it is live, else one whose hash fits, else the one used last. */
  function Target(sessions: seq<Session>, token: Token, scope: Client, now: int): (r: Option<nat>)
    ensures r.Some? ==> r.value < |sessions| && Live(sessions[r.value], token.user, scope, now)
  {
    if token.session < |sessions| && Live(sessions[token.session], token.user, scope, now) then Some(token.session)
    else
      var order := Candidates(sessions, |sessions|, token.user, scope, now);
      var fit := FirstMatch(sessions, order, token);
      if fit.Some? then fit else if order != [] then Some(order[0]) else None
  }

  function Scope(expected: Option<Client>): Client {
    if expected.Some? then expected.value else User
  }

  // ---------- Requests ----------

  function SessionLifetime(client: Client): int {
    if client.User? then USER_SESSION_LIFETIME else ADMIN_SESSION_LIFETIME
  }

  /** Hashes are unique in the table, so a placeholder of an unfinished login makes the next login fail. */
  function BeginLogin(s: State, user: nat, client: Client, now: int): State {
    if exists k :: 0 <= k < |s.sessions| && s.sessions[k].hash.Placeholder? then s
    else s.(sessions := s.sessions + [Session(user, client, true, now + SessionLifetime(client), now, Placeholder)])
  }

  function FinishLogin(s: State, k: nat, now: int): State {
    if k >= |s.sessions| || !s.sessions[k].hash.Placeholder? then s
    else s.(sessions := s.sessions[k :=
        s.sessions[k].(hash := HashOf(Minted(s.sessions[k], k, s.sessions[k].client, now)))])
  }

  function Minted(session: Session, k: nat, client: Client, now: int): Token {
    Token(session.user, k, client, now)
  }

  /** The session that refreshes for this cookie. */
  function Check(s: State, cookie: Cookie, expected: Option<Client>, now: int): (r: Option<nat>)
    ensures r.Some? ==> Verified(cookie, now).Some? && r.value < |s.sessions|
  {
    var token := Verified(cookie, now);
    if token.None? || (expected.Some? && token.value.client != expected.value) then None
    else
      var k := Target(s.sessions, token.value, Scope(expected), now);
      if k.None? || s.sessions[k.value].hash != HashOf(token.value) then None else k
  }

  function Rotate(s: State, k: nat, token: Token, scope: Client, now: int): State
    requires k < |s.sessions|
  {
    var minted := Minted(s.sessions[k], k, token.client, now);
    State(s.sessions[k := s.sessions[k].(hash := HashOf(minted), lastUsedAt := now)],
          s.accepted + [Acceptance(token, k, scope)])
  }

  function Refresh(s: State, cookie: Cookie, expected: Option<Client>, now: int): State {
    var k := Check(s, cookie, expected, now);
    if k.None? then s else Rotate(s, k.value, cookie.token, Scope(expected), now)
  }

  function Revoked(session: Session): Session {
    session.(active := false)
  }

  predicate Fits(session: Session, user: Option<nat>, client: Option<Client>) {
    session.active && (user.Some? ==> session.user == user.value) && (client.Some? ==> session.client == client.value)
  }

  /** The fitting session used last, among the first `n`. */
  function Newest(sessions: seq<Session>, n: nat, user: Option<nat>, client: Option<Client>): (r: Option<nat>)
    requires n <= |sessions|
    ensures r.Some? ==> r.value < n && Fits(sessions[r.value], user, client)
  {
    if n == 0 then None
    else
      var earlier := Newest(sessions, n - 1, user, client);
      if !Fits(sessions[n - 1], user, client) then earlier
      else if earlier.Some? && sessions[earlier.value].lastUsedAt > sessions[n - 1].lastUsedAt then earlier
      else Some(n - 1)
  }

  /** Whose sessions a logout may touch: the payload of a token that does not verify names no user. */
  function Caller(cookie: Cookie, now: int): Option<nat> {
    var token := Verified(cookie, now);
    if token.None? then None else Some(token.value.user)
  }

  function Logout(s: State, cookie: Cookie, expected: Option<Client>, caller: Option<Client>, now: int): State {
    if cookie.Absent? || (expected.Some? && caller.Some? && caller != expected) then s
    else
      var token := Verified(cookie, now);
      if token.Some? && token.value.session < |s.sessions|
          && Fits(s.sessions[token.value.session], Some(token.value.user), expected)
      then Revoke(s, token.value.session)
      else
        var k := Newest(s.sessions, |s.sessions|, Caller(cookie, now), expected);
        if k.None? then s else Revoke(s, k.value)
  }

  function Revoke(s: State, k: nat): State
    requires k < |s.sessions|
  {
    s.(sessions := s.sessions[k := Revoked(s.sessions[k])])
  }

  function RevokeAll(s: State, user: Option<nat>): State {
    s.(sessions := seq(|s.sessions|, k requires 0 <= k < |s.sessions| =>
      if Fits(s.sessions[k], user, None) then Revoked(s.sessions[k]) else s.sessions[k]))
  }

  function LogoutAll(s: State, cookie: Cookie, now: int): State {
    if cookie.Absent? then s else RevokeAll(s, Caller(cookie, now))
  }

  function RevokeSession(s: State, user: nat, k: nat): State {
    if k < |s.sessions| && Fits(s.sessions[k], Some(user), None) then Revoke(s, k) else s
  }

  datatype Event =
    | LoginBegins(user: nat, client: Client, now: int)
    | LoginFinishes(k: nat, now: int)
    | Refreshes(cookie: Cookie, expected: Option<Client>, now: int)
    | LogsOut(cookie: Cookie, expected: Option<Client>, caller: Option<Client>, now: int)
    | LogsOutAll(cookie: Cookie, now: int)
    | Revokes(user: nat, k: nat)
    | ResetsPassword(user: nat)

  function Step(s: State, event: Event): State {
    match event
    case LoginBegins(user, client, now) => BeginLogin(s, user, client, now)
    case LoginFinishes(k, now) => FinishLogin(s, k, now)
    case Refreshes(cookie, expected, now) => Refresh(s, cookie, expected, now)
    case LogsOut(cookie, expected, caller, now) => Logout(s, cookie, expected, caller, now)
    case LogsOutAll(cookie, now) => LogoutAll(s, cookie, now)
    case Revokes(user, k) => RevokeSession(s, user, k)
    case ResetsPassword(user) => RevokeAll(s, Some(user))
  }

  function Run(s: State, events: seq<Event>): State {
    if events == [] then s else Step(Run(s, events[..|events| - 1]), events[|events| - 1])
  }

  // ---------- A token fits its own session only ----------

  predicate BoundTo(session: Session, k: nat) {
    session.hash.HashOf? ==> session.hash.token == Minted(session, k, session.client, session.hash.token.issuedAt)
  }

  predicate Bound(s: State) {
    && (forall k :: 0 <= k < |s.sessions| ==> BoundTo(s.sessions[k], k))
    && (forall i :: 0 <= i < |s.accepted| ==> WellPlaced(s, s.accepted[i]))
  }

  /** Accepted for the session and the application the token was minted for. */
  predicate WellPlaced(s: State, a: Acceptance) {
    && a.session == a.token.session < |s.sessions|
    && a.scope == a.token.client == s.sessions[a.session].client
    && a.token.user == s.sessions[a.session].user
  }

  /** Exactly when a refresh is accepted; the search over other sessions never accepts anything. */
  lemma RefreshExact(s: State, cookie: Cookie, expected: Option<Client>, now: int)
    requires Bound(s)
    ensures Check(s, cookie, expected, now)
         == (if Accepts(s, cookie, expected, now) then Some(cookie.token.session) else None)
  {
    var token := Verified(cookie, now);
    if token.Some? {
      var k := Target(s.sessions, token.value, Scope(expected), now);
      if k.Some? && s.sessions[k.value].hash == HashOf(token.value) {
        assert BoundTo(s.sessions[k.value], k.value);
      }
    }
  }

  predicate Accepts(s: State, cookie: Cookie, expected: Option<Client>, now: int) {
    && Verified(cookie, now).Some?
    && cookie.token.client == Scope(expected)
    && cookie.token.session < |s.sessions|
    && Live(s.sessions[cookie.token.session], cookie.token.user, cookie.token.client, now)
    && s.sessions[cookie.token.session].hash == HashOf(cookie.token)
  }

  /** One step rewrites sessions in place, keeping who they belong to, and may add one acceptance. */
  lemma StepShape(s: State, event: Event)
    requires Bound(s)
    ensures
      var after := Step(s, event);
      && |s.sessions| <= |after.sessions| && s.accepted <= after.accepted && |after.accepted| <= |s.accepted| + 1
      && (forall k :: 0 <= k < |s.sessions| ==>
            && after.sessions[k].user == s.sessions[k].user && after.sessions[k].client == s.sessions[k].client
            && (after.sessions[k].active ==> s.sessions[k].active))
      && (after.accepted != s.accepted ==>
            && event.Refreshes? && Accepts(s, event.cookie, event.expected, event.now)
            && after == Rotate(s, event.cookie.token.session, event.cookie.token, event.cookie.token.client, event.now))
  {
    if event.Refreshes? {
      RefreshExact(s, event.cookie, event.expected, event.now);
    }
  }

  lemma StepHashes(s: State, event: Event)
    requires Bound(s)
    ensures
      var after := Step(s, event);
      forall k :: 0 <= k < |after.sessions| ==>
        BoundTo(after.sessions[k], k) &&
        (k < |s.sessions| && s.sessions[k].hash.HashOf? && after.accepted == s.accepted ==>
           after.sessions[k].hash == s.sessions[k].hash)
  {
    var after := Step(s, event);
    assert forall k :: 0 <= k < |s.sessions| ==> BoundTo(s.sessions[k], k);
    if event.Refreshes? {
      RefreshExact(s, event.cookie, event.expected, event.now);
    }
  }

  lemma StepKeepsBound(s: State, event: Event)
    requires Bound(s)
    ensures Bound(Step(s, event))
  {
    var after := Step(s, event);
    StepShape(s, event);
    StepHashes(s, event);
    forall i | 0 <= i < |after.accepted|
      ensures WellPlaced(after, after.accepted[i])
    {
      if i < |s.accepted| {
        assert after.accepted[i] == s.accepted[i] && WellPlaced(s, s.accepted[i]);
      }
    }
  }

  lemma {:induction false} RunStaysBound(s: State, events: seq<Event>)
    requires Bound(s)
    ensures Bound(Run(s, events))
  {
    if events != [] {
      RunStaysBound(s, events[..|events| - 1]);
      StepKeepsBound(Run(s, events[..|events| - 1]), events[|events| - 1]);
    }
  }

  /** In any run a token is only ever accepted for the session, the user and the application it was minted for. */
  lemma AcceptedWhereMinted(events: seq<Event>, i: nat)
    requires i < |Run(EMPTY, events).accepted|
    ensures WellPlaced(Run(EMPTY, events), Run(EMPTY, events).accepted[i])
  {
    RunStaysBound(EMPTY, events);
  }

  // ---------- At most once ----------

  /** No accepted refresh happens within the second its token was issued in. */
  predicate Brisk(s: State, event: Event) {
    event.Refreshes? && Check(s, event.cookie, event.expected, event.now).Some? ==>
      event.now > event.cookie.token.issuedAt
  }

  predicate AlwaysBrisk(s: State, events: seq<Event>) {
    events == [] || (AlwaysBrisk(s, events[..|events| - 1])
        && Brisk(Run(s, events[..|events| - 1]), events[|events| - 1]))
  }

  /** Every accepted token is older than the one its session holds now. */
  predicate Outdated(s: State, a: Acceptance) {
    a.session < |s.sessions| && s.sessions[a.session].hash.HashOf?
        && a.token.issuedAt < s.sessions[a.session].hash.token.issuedAt
  }

  predicate AllOutdated(s: State) {
    forall i :: 0 <= i < |s.accepted| ==> Outdated(s, s.accepted[i])
  }

  predicate AcceptedOnce(s: State) {
    forall i, j :: 0 <= i < j < |s.accepted| ==> s.accepted[i].token != s.accepted[j].token
  }

  lemma StepAcceptsOnce(s: State, event: Event)
    requires Bound(s) && AllOutdated(s) && AcceptedOnce(s) && Brisk(s, event)
    ensures AllOutdated(Step(s, event)) && AcceptedOnce(Step(s, event))
  {
    var after := Step(s, event);
    StepShape(s, event);
    StepHashes(s, event);
    if event.Refreshes? {
      RefreshExact(s, event.cookie, event.expected, event.now);
    }
    forall i | 0 <= i < |s.accepted|
      ensures Outdated(after, s.accepted[i])
      ensures after.accepted != s.accepted ==> s.accepted[i].token != after.accepted[|s.accepted|].token
    {
      assert Outdated(s, s.accepted[i]) && WellPlaced(s, s.accepted[i]);
    }
  }

  lemma {:induction false} AcceptedAtMostOnce(events: seq<Event>)
    requires AlwaysBrisk(EMPTY, events)
    ensures AcceptedOnce(Run(EMPTY, events)) && AllOutdated(Run(EMPTY, events))
  {
    if events != [] {
      AcceptedAtMostOnce(events[..|events| - 1]);
      RunStaysBound(EMPTY, events[..|events| - 1]);
      StepAcceptsOnce(Run(EMPTY, events[..|events| - 1]), events[|events| - 1]);
    }
  }

  /**
    A used token is accepted again exactly when it was refreshed within the second it was
    issued in, because the token minted then is the same text, and is otherwise still good.
   */
  lemma ReplayExactly(s: State, cookie: Cookie, expected: Option<Client>, now: int, later: int)
    requires Bound(s) && Check(s, cookie, expected, now).Some?
    ensures Check(Refresh(s, cookie, expected, now), cookie, expected, later).Some?
       <==> && now == cookie.token.issuedAt
            && later < cookie.token.issuedAt + TOKEN_LIFETIME && later < s.sessions[cookie.token.session].expiresAt
  {
    RefreshExact(s, cookie, expected, now);
    StepKeepsBound(s, Refreshes(cookie, expected, now));
    RefreshExact(Refresh(s, cookie, expected, now), cookie, expected, later);
  }

  /** One login, then its token twice within the second it was issued in: both refreshes are accepted. */
  lemma ReplayHappens(user: nat)
    ensures
      var token := Token(user, 0, User, 0);
      var refresh := Refreshes(Signed(token), None, 0);
      var events := [LoginBegins(user, User, 0), LoginFinishes(0, 0), refresh, refresh];
      Run(EMPTY, events).accepted == [Acceptance(token, 0, User), Acceptance(token, 0, User)]
  {
    var token := Token(user, 0, User, 0);
    var refresh := Refreshes(Signed(token), None, 0);
    var events := [LoginBegins(user, User, 0), LoginFinishes(0, 0), refresh, refresh];
    assert events[..3][..2][..1] == [LoginBegins(user, User, 0)];
    assert Run(EMPTY, events[..3][..2][..1]) == BeginLogin(EMPTY, user, User, 0);
    var session := Session(user, User, true, USER_SESSION_LIFETIME, 0, HashOf(token));
    assert Run(EMPTY, events[..3][..2]).sessions == [session];
    assert Run(EMPTY, events[..3]) == State([session], [Acceptance(token, 0, User)]);
  }

  // ---------- Never after revocation ----------

  predicate AcceptedFor(s: State, k: nat, from: nat) {
    exists i :: from <= i < |s.accepted| && s.accepted[i].token.session == k
  }

  /** A session that is not active stays so, and none of its tokens is accepted any more. */
  lemma {:induction false} RevokedStaysRevoked(s: State, events: seq<Event>, k: nat)
    requires Bound(s) && k < |s.sessions| && !s.sessions[k].active
    ensures k < |Run(s, events).sessions| && !Run(s, events).sessions[k].active
    ensures s.accepted <= Run(s, events).accepted
    ensures !AcceptedFor(Run(s, events), k, |s.accepted|)
  {
    if events != [] {
      RevokedStaysRevoked(s, events[..|events| - 1], k);
      RunStaysBound(s, events[..|events| - 1]);
      var before := Run(s, events[..|events| - 1]);
      StepShape(before, events[|events| - 1]);
      forall i | |s.accepted| <= i < |Run(s, events).accepted|
        ensures Run(s, events).accepted[i].token.session != k
      {
        if i < |before.accepted| {
          assert Run(s, events).accepted[i] == before.accepted[i];
        }
      }
    }
  }

  /** What a request takes away for good. */
  predicate Ends(event: Event, session: Session, k: nat) {
    match event
    case LogsOut(cookie, expected, caller, now) =>
      && Verified(cookie, now).Some? && cookie.token.session == k && cookie.token.user == session.user
      && !Ignored(cookie, expected, caller) && (expected.Some? ==> session.client == expected.value)
    case LogsOutAll(cookie, now) => !cookie.Absent?
        && (Caller(cookie, now).Some? ==> Caller(cookie, now).value == session.user)
    case Revokes(user, id) => k == id && user == session.user
    case ResetsPassword(user) => user == session.user
    case _ => false
  }

  /** After a logout with its token, a logout of all devices, a revocation or a password reset nothing accepts it. */
  lemma {:induction false} NeverAfterRevocation(before: seq<Event>, event: Event, later: seq<Event>, k: nat)
    requires k < |Run(EMPTY, before).sessions| && Ends(event, Run(EMPTY, before).sessions[k], k)
    ensures
      var revoked := Step(Run(EMPTY, before), event);
      var final := Run(revoked, later);
      !AcceptedFor(final, k, |revoked.accepted|) && k < |final.sessions| && !final.sessions[k].active
  {
    RunStaysBound(EMPTY, before);
    StepKeepsBound(Run(EMPTY, before), event);
    RevokedStaysRevoked(Step(Run(EMPTY, before), event), later, k);
  }

  // ---------- What each request ends, and what it spares ----------

  /** A new session is the user's, active, under a placeholder, and lives 30 days, or a day for administrators. */
  lemma LoginExactly(s: State, user: nat, client: Client, now: int)
    ensures BeginLogin(s, user, client, now)
         == if forall k :: 0 <= k < |s.sessions| ==> s.sessions[k].hash != Placeholder
            then s.(sessions := s.sessions
                      + [Session(user, client, true, now + (if client == User then 2_592_000 else 86_400), now,
                                 Placeholder)])
            else s
  {}

  /** A finished login gives its session the token of this second, and changes no other. */
  lemma FinishExactly(s: State, k: nat, now: int)
    ensures FinishLogin(s, k, now)
         == if k < |s.sessions| && s.sessions[k].hash == Placeholder
            then s.(sessions := s.sessions[k := s.sessions[k].(
                      hash := HashOf(Token(s.sessions[k].user, k, s.sessions[k].client, now)))])
            else s
  {}

  /** Signed by this service, and not older than 30 days. */
  predicate Good(cookie: Cookie, now: int) {
    cookie.Signed? && now < cookie.token.issuedAt + 2_592_000
  }

  /** The live sessions, */
  lemma {:induction false} CandidatesExactly(sessions: seq<Session>, n: nat, user: nat, scope: Client, now: int)
    requires n <= |sessions|
    ensures forall k: nat ::
              k in Candidates(sessions, n, user, scope, now) <==> k < n && Live(sessions[k], user, scope, now)
  {
    if n > 0 {
      CandidatesExactly(sessions, n - 1, user, scope, now);
      InsertHas(sessions, Candidates(sessions, n - 1, user, scope, now), n - 1);
    }
  }

  /** each used no later than the one before it. */
  lemma {:induction false} CandidatesSorted(sessions: seq<Session>, n: nat, user: nat, scope: Client, now: int)
    requires n <= |sessions|
    ensures Sorted(sessions, Candidates(sessions, n, user, scope, now))
  {
    if n > 0 {
      CandidatesSorted(sessions, n - 1, user, scope, now);
      InsertSorts(sessions, Candidates(sessions, n - 1, user, scope, now), n - 1);
    }
  }

  predicate Sorted(sessions: seq<Session>, order: seq<nat>)
    requires forall i :: 0 <= i < |order| ==> order[i] < |sessions|
  {
    forall i, j :: 0 <= i < j < |order| ==> sessions[order[i]].lastUsedAt >= sessions[order[j]].lastUsedAt
  }

  lemma {:induction false} InsertSorts(sessions: seq<Session>, order: seq<nat>, k: nat)
    requires k < |sessions| && forall i :: 0 <= i < |order| ==> order[i] < |sessions|
    requires Sorted(sessions, order)
    ensures forall i :: 0 <= i < |Insert(sessions, order, k)| ==> Insert(sessions, order, k)[i] < |sessions|
    ensures Sorted(sessions, Insert(sessions, order, k))
  {
    if order != [] && sessions[order[0]].lastUsedAt > sessions[k].lastUsedAt {
      var rest := Insert(sessions, order[1..], k);
      InsertSorts(sessions, order[1..], k);
      InsertHas(sessions, order[1..], k);
      forall j | 0 <= j < |rest| ensures sessions[order[0]].lastUsedAt >= sessions[rest[j]].lastUsedAt {
        assert rest[j] in rest;
      }
    }
  }

  /** A session a token may refresh: the user's, active, not past its time, of this application. */
  predicate Usable(session: Session, token: Token, scope: Client, now: int) {
    session.active && now < session.expiresAt && session.user == token.user && session.client == scope
  }

  /**
    The search for a token's session: its own if that is usable; else the one used last of the
    usable ones that hold the token; else the one used last of the usable ones.
   */
  lemma TargetExactly(sessions: seq<Session>, token: Token, scope: Client, now: int)
    ensures var target := Target(sessions, token, scope, now);
            if token.session < |sessions| && Usable(sessions[token.session], token, scope, now)
            then target == Some(token.session)
            else if forall k :: 0 <= k < |sessions| ==> !Usable(sessions[k], token, scope, now) then target == None
            else
              && target.Some? && target.value < |sessions| && Usable(sessions[target.value], token, scope, now)
              && forall k :: 0 <= k < |sessions| && Usable(sessions[k], token, scope, now) ==>
                   var found := sessions[target.value];
                   if found.hash == HashOf(token)
                   then sessions[k].hash == HashOf(token) ==> sessions[k].lastUsedAt <= found.lastUsedAt
                   else sessions[k].hash != HashOf(token) && sessions[k].lastUsedAt <= found.lastUsedAt
  {
    var order := Candidates(sessions, |sessions|, token.user, scope, now);
    CandidatesExactly(sessions, |sessions|, token.user, scope, now);
    CandidatesSorted(sessions, |sessions|, token.user, scope, now);
    MatchIsFirst(sessions, order, token);
    forall k | 0 <= k < |sessions| && Usable(sessions[k], token, scope, now) ensures k in order {}
    if order != [] { assert order[0] in order; }
  }

  lemma {:induction false} MatchIsFirst(sessions: seq<Session>, order: seq<nat>, token: Token)
    requires (forall i :: 0 <= i < |order| ==> order[i] < |sessions|) && Sorted(sessions, order)
    ensures var found := FirstMatch(sessions, order, token);
            found.Some? ==> forall k :: k in order && sessions[k].hash == HashOf(token) ==>
                              sessions[k].lastUsedAt <= sessions[found.value].lastUsedAt
  {
    if order != [] && sessions[order[0]].hash != HashOf(token) {
      MatchIsFirst(sessions, order[1..], token);
    } else {
      forall k | k in order ensures sessions[k].lastUsedAt <= sessions[order[0]].lastUsedAt {
        var i :| 0 <= i < |order| && order[i] == k;
      }
    }
  }

  /** What a refresh needs, spelled out: the current token of an own session that is active and not past its time. */
  lemma AcceptedExactly(s: State, cookie: Cookie, expected: Option<Client>, now: int)
    requires Bound(s)
    ensures Accepts(s, cookie, expected, now)
       <==> && Good(cookie, now) && cookie.token.client == (if expected == None then User else expected.value)
            && cookie.token.session < |s.sessions|
            && var session := s.sessions[cookie.token.session];
               && session.active && now < session.expiresAt
               && session.user == cookie.token.user && session.client == cookie.token.client
               && session.hash == HashOf(cookie.token)
  {}

  /** A logout with a token that verifies ends the token's own session, if it is active, and no other. */
  lemma LogoutEndsOwn(s: State, cookie: Cookie, expected: Option<Client>, caller: Option<Client>, now: int, j: nat)
    requires Good(cookie, now) && j < |s.sessions|
    requires expected == None || caller == None || caller == expected
    requires var k := cookie.token.session;
             && k < |s.sessions| && s.sessions[k].active && s.sessions[k].user == cookie.token.user
             && (expected.Some? ==> s.sessions[k].client == expected.value)
    ensures var t := Logout(s, cookie, expected, caller, now);
            && t == s.(sessions := t.sessions) && |t.sessions| == |s.sessions|
            && t.sessions[j] == if j == cookie.token.session then s.sessions[j].(active := false) else s.sessions[j]
  {}

  /** Of several sessions a revocation ends the named one, and only for its own user. */
  lemma RevocationEndsExactly(s: State, user: nat, k: nat, j: nat)
    requires j < |s.sessions|
    ensures var t := RevokeSession(s, user, k);
            && t == s.(sessions := t.sessions) && |t.sessions| == |s.sessions|
            && t.sessions[j] == if j == k && s.sessions[j].user == user then s.sessions[j].(active := false)
                                else s.sessions[j]
  {
    assert s.sessions[j].(active := s.sessions[j].active) == s.sessions[j];
  }

  /** A password reset ends every session of its user and none of anybody else. */
  lemma ResetEndsExactly(s: State, user: nat, j: nat)
    requires j < |s.sessions|
    ensures var t := Step(s, ResetsPassword(user));
            && t == s.(sessions := t.sessions) && |t.sessions| == |s.sessions|
            && t.sessions[j] == if s.sessions[j].user == user then s.sessions[j].(active := false) else s.sessions[j]
  {
    assert s.sessions[j].(active := s.sessions[j].active) == s.sessions[j];
  }

  /** So does a logout of all devices with a token that verifies, for the token's user. */
  lemma LogoutAllEndsExactly(s: State, cookie: Cookie, now: int, j: nat)
    requires Good(cookie, now) && j < |s.sessions|
    ensures var t := LogoutAll(s, cookie, now);
            && t == s.(sessions := t.sessions) && |t.sessions| == |s.sessions|
            && t.sessions[j] == if s.sessions[j].user == cookie.token.user then s.sessions[j].(active := false)
                                else s.sessions[j]
  {
    assert s.sessions[j].(active := s.sessions[j].active) == s.sessions[j];
  }

  /** Without a cookie, or for another application than the one asked for, a logout does nothing. */
  lemma LogoutIgnored(s: State, cookie: Cookie, expected: Option<Client>, caller: Option<Client>, now: int)
    requires cookie == Absent || (expected != None && caller != None && caller != expected)
    ensures Logout(s, cookie, expected, caller, now) == s
    ensures cookie == Absent ==> LogoutAll(s, cookie, now) == s
  {}

  /** An accepted refresh gives the session a token of this second and records its use; no other changes. */
  lemma RefreshWrites(s: State, cookie: Cookie, expected: Option<Client>, now: int)
    requires Bound(s)
    ensures var t := Refresh(s, cookie, expected, now);
            if !Accepts(s, cookie, expected, now) then t == s
            else
              var k, token := cookie.token.session, cookie.token;
              && k < |s.sessions|
              && t.sessions == s.sessions[k := s.sessions[k].(
                   hash := HashOf(Token(token.user, k, token.client, now)), lastUsedAt := now)]
  {
    RefreshExact(s, cookie, expected, now);
  }

  /** The session fits and no other that fits was used later. */
  predicate LastUsed(sessions: seq<Session>, n: nat, k: nat, user: Option<nat>, client: Option<Client>)
    requires n <= |sessions|
  {
    && k < n && Fits(sessions[k], user, client)
    && forall j :: 0 <= j < n && Fits(sessions[j], user, client) ==>
         sessions[j].lastUsedAt < sessions[k].lastUsedAt || (sessions[j].lastUsedAt == sessions[k].lastUsedAt && j <= k)
  }

  lemma {:induction false} NewestIsLastUsed(sessions: seq<Session>, n: nat, k: nat,
                                            user: Option<nat>, client: Option<Client>)
    requires n <= |sessions|
    ensures Newest(sessions, n, user, client) == Some(k) <==> LastUsed(sessions, n, k, user, client)
    ensures Newest(sessions, n, user, client).None? ==> forall j :: 0 <= j < n ==> !Fits(sessions[j], user, client)
  {
    if n > 0 {
      var earlier := Newest(sessions, n - 1, user, client);
      NewestIsLastUsed(sessions, n - 1, k, user, client);
      if earlier.Some? {
        NewestIsLastUsed(sessions, n - 1, earlier.value, user, client);
      }
    }
  }

  /** An active session of that user and application, where one is named. */
  predicate Reached(session: Session, user: Option<nat>, client: Option<Client>) {
    session.active && (user == None || user == Some(session.user)) && (client == None || client == Some(session.client))
  }

  /** A logout whose token is not of such a session ends the one used last of all that it reaches, or none. */
  lemma LogoutEndsNewest(s: State, cookie: Cookie, expected: Option<Client>, caller: Option<Client>, now: int)
    requires !Ignored(cookie, expected, caller)
    requires Good(cookie, now) && cookie.token.session < |s.sessions| ==>
               !Reached(s.sessions[cookie.token.session], Some(cookie.token.user), expected)
    ensures var t := Logout(s, cookie, expected, caller, now);
            var user := if Good(cookie, now) then Some(cookie.token.user) else None;
            if forall k :: 0 <= k < |s.sessions| ==> !Reached(s.sessions[k], user, expected) then t == s
            else exists k: nat ::
              && k < |s.sessions| && Reached(s.sessions[k], user, expected)
              && t == s.(sessions := s.sessions[k := s.sessions[k].(active := false)])
              && forall j :: 0 <= j < |s.sessions| && Reached(s.sessions[j], user, expected) ==>
                   s.sessions[j].lastUsedAt <= s.sessions[k].lastUsedAt
  {
    var user := if Good(cookie, now) then Some(cookie.token.user) else None;
    forall k | 0 <= k < |s.sessions|
      ensures Reached(s.sessions[k], user, expected) == Fits(s.sessions[k], user, expected)
    {}
    var newest := Newest(s.sessions, |s.sessions|, user, expected);
    if newest.Some? {
      NewestIsLastUsed(s.sessions, |s.sessions|, newest.value, user, expected);
    } else {
      NewestIsLastUsed(s.sessions, |s.sessions|, 0, user, expected);
    }
  }

  predicate Ignored(cookie: Cookie, expected: Option<Client>, caller: Option<Client>) {
    cookie.Absent? || (expected.Some? && caller.Some? && caller != expected)
  }

  /**
    A logout leaves the sessions of everybody but its caller alone exactly when its token
    verifies, or it is ignored, or theirs is not the session used last of all that fit: a
    cookie that does not verify ends the newest session of anybody.
   */
  lemma LogoutReachesExactly(s: State, cookie: Cookie, expected: Option<Client>,
                             caller: Option<Client>, now: int, user: nat)
    requires Caller(cookie, now) != Some(user)
    ensures (forall k :: 0 <= k < |s.sessions| && s.sessions[k].user == user ==>
               Logout(s, cookie, expected, caller, now).sessions[k] == s.sessions[k])
       <==> || Verified(cookie, now).Some?
            || Ignored(cookie, expected, caller)
            || forall k :: 0 <= k < |s.sessions| && s.sessions[k].user == user ==>
                 !LastUsed(s.sessions, |s.sessions|, k, None, expected)
  {
    if Verified(cookie, now).None? && !Ignored(cookie, expected, caller) {
      var newest := Newest(s.sessions, |s.sessions|, None, expected);
      forall k: nat
        ensures newest == Some(k) <==> LastUsed(s.sessions, |s.sessions|, k, None, expected)
      {
        NewestIsLastUsed(s.sessions, |s.sessions|, k, None, expected);
      }
      if newest.Some? {
        assert Logout(s, cookie, expected, caller, now) == Revoke(s, newest.value);
        assert LastUsed(s.sessions, |s.sessions|, newest.value, None, expected);
      } else {
        assert Logout(s, cookie, expected, caller, now) == s;
      }
    }
  }

  /** After one login, either logout with a cookie that does not verify ends the session. */
  lemma UnverifiedLogoutEnds(user: nat)
    ensures
      var login := [LoginBegins(user, User, 0), LoginFinishes(0, 0)];
      var session := Session(user, User, true, USER_SESSION_LIFETIME, 0, HashOf(Token(user, 0, User, 0)));
      && Run(EMPTY, login).sessions == [session]
      && Run(EMPTY, login + [LogsOut(Unsigned, None, None, 1)]).sessions == [Revoked(session)]
      && Run(EMPTY, login + [LogsOutAll(Unsigned, 1)]).sessions == [Revoked(session)]
  {
    var login := [LoginBegins(user, User, 0), LoginFinishes(0, 0)];
    var s := Run(EMPTY, login);
    assert login[..1] == [LoginBegins(user, User, 0)];
    assert Run(EMPTY, login[..1]) == BeginLogin(EMPTY, user, User, 0);
    assert s.sessions == [Session(user, User, true, USER_SESSION_LIFETIME, 0, HashOf(Token(user, 0, User, 0)))];
    assert (login + [LogsOut(Unsigned, None, None, 1)])[..2] == login;
    assert (login + [LogsOutAll(Unsigned, 1)])[..2] == login;
    NewestIsLastUsed(s.sessions, 1, 0, None, None);
  }

  /** Logging out of all devices spares other users' sessions exactly when the token verifies, or they have none. */
  lemma LogoutAllReachesExactly(s: State, cookie: Cookie, now: int, user: nat)
    requires !cookie.Absent? && Caller(cookie, now) != Some(user)
    ensures (forall k :: 0 <= k < |s.sessions| && s.sessions[k].user == user ==>
               LogoutAll(s, cookie, now).sessions[k] == s.sessions[k])
       <==> || Verified(cookie, now).Some?
            || forall k :: 0 <= k < |s.sessions| && s.sessions[k].user == user ==> !s.sessions[k].active
  {
    var after := LogoutAll(s, cookie, now);
    if Verified(cookie, now).None? {
      assert forall k :: 0 <= k < |s.sessions| && s.sessions[k].active ==> after.sessions[k] != s.sessions[k];
    }
  }
}

/** The requests as the service carries them out, each with the effect of the step of the same name. */
module SessionStore {
  import opened Tables
  import opened RefreshTokens
  import Spec = RefreshTokens

  class AuthService {
    var sessions: seq<Session>
    var accepted: seq<Acceptance>

    function View(): State
      reads this
    {
      State(sessions, accepted)
    }

    constructor ()
      ensures View() == EMPTY
    {
      sessions, accepted := [], [];
    }

    method FindTarget(token: Token, scope: Client, now: int) returns (target: Option<nat>)
      ensures target == Target(sessions, token, scope, now)
    {
      if token.session < |sessions| && Live(sessions[token.session], token.user, scope, now) {
        return Some(token.session);
      }
      var order := Candidates(sessions, |sessions|, token.user, scope, now);
      for i := 0 to |order|
        invariant FirstMatch(sessions, order, token) == FirstMatch(sessions, order[i..], token)
      {
        if sessions[order[i]].hash == HashOf(token) {
          return Some(order[i]);
        }
        assert order[i..][1..] == order[i + 1..];
      }
      assert order[|order|..] == [];
      return if order != [] then Some(order[0]) else None;
    }

    method Login(user: nat, client: Client, now: int) returns (created: Option<nat>)
      modifies this`sessions
      ensures View() == BeginLogin(old(View()), user, client, now)
      ensures created.Some? ==> created.value == |old(sessions)| < |sessions|
      ensures created.None? <==> exists k :: 0 <= k < |old(sessions)| && old(sessions)[k].hash.Placeholder?
    {
      if exists k :: 0 <= k < |sessions| && sessions[k].hash.Placeholder? {
        return None;
      }
      sessions := sessions + [Session(user, client, true, now + SessionLifetime(client), now, Placeholder)];
      return Some(|sessions| - 1);
    }

    method StoreFirstHash(k: nat, now: int) returns (token: Token)
      requires k < |sessions| && sessions[k].hash.Placeholder?
      modifies this`sessions
      ensures View() == FinishLogin(old(View()), k, now)
      ensures sessions[k].hash == HashOf(token)
    {
      token := Minted(sessions[k], k, sessions[k].client, now);
      sessions := sessions[k := sessions[k].(hash := HashOf(token))];
    }

    /** The new token if the refresh is accepted. */
    method Refresh(cookie: Cookie, expected: Option<Client>, now: int) returns (token: Option<Token>)
      modifies this
      ensures View() == Spec.Refresh(old(View()), cookie, expected, now)
      ensures token.Some? <==> Check(old(View()), cookie, expected, now).Some?
      ensures token.Some? ==>
                token.value.session < |sessions| && sessions[token.value.session].hash == HashOf(token.value)
    {
      var payload := Verified(cookie, now);
      if payload.None? || (expected.Some? && payload.value.client != expected.value) {
        return None;
      }
      var target := FindTarget(payload.value, Scope(expected), now);
      if target.None? || sessions[target.value].hash != HashOf(payload.value) {
        return None;
      }
      var k := target.value;
      token := Some(Minted(sessions[k], k, payload.value.client, now));
      sessions := sessions[k := sessions[k].(hash := HashOf(token.value), lastUsedAt := now)];
      accepted := accepted + [Acceptance(payload.value, k, Scope(expected))];
    }

    method Logout(cookie: Cookie, expected: Option<Client>, caller: Option<Client>, now: int)
      modifies this`sessions
      ensures View() == Spec.Logout(old(View()), cookie, expected, caller, now)
    {
      if cookie.Absent? || (expected.Some? && caller.Some? && caller != expected) {
        return;
      }
      var token := Verified(cookie, now);
      var target: Option<nat> := None;
      if token.Some? && token.value.session < |sessions|
          && Fits(sessions[token.value.session], Some(token.value.user), expected) {
        target := Some(token.value.session);
      } else {
        target := Newest(sessions, |sessions|, Caller(cookie, now), expected);
      }
      if target.Some? {
        sessions := sessions[target.value := Revoked(sessions[target.value])];
      }
    }

    method RevokeWhere(user: Option<nat>)
      modifies this`sessions
      ensures View() == RevokeAll(old(View()), user)
    {
      var rows := sessions;
      sessions := seq(|rows|, k requires 0 <= k < |rows| =>
          if Fits(rows[k], user, None) then Revoked(rows[k]) else rows[k]);
    }

    method LogoutAll(cookie: Cookie, now: int)
      modifies this`sessions
      ensures View() == Spec.LogoutAll(old(View()), cookie, now)
    {
      if !cookie.Absent? {
        RevokeWhere(Caller(cookie, now));
      }
    }

    method RevokeSession(user: nat, k: nat) returns (found: bool)
      modifies this`sessions
      ensures View() == Spec.RevokeSession(old(View()), user, k)
      ensures found <==> k < |old(sessions)| && Fits(old(sessions)[k], Some(user), None)
    {
      found := k < |sessions| && Fits(sessions[k], Some(user), None);
      if found {
        sessions := sessions[k := Revoked(sessions[k])];
      }
    }
  }
}
