/**
 The session manager: sessions by token and by identifier, single-use tokens
 that rotate on every resumption, and the memory of used ones.
 */
module Sessions {
  import opened Prelude
  import opened Uuids

  type Token = string

  datatype SessionError = NotFound | Expired | Conflict

  datatype Session<U, D> = Session(id: Uuid, user: U, token: Token, lastSeen: nat, data: D)

  datatype Answer<U, D> = Ok(session: Session<U, D>) | Err(error: SessionError)

  /** Who rotated a token away, and when. */
  datatype UsedToken<U> = UsedToken(id: Uuid, user: U, at: nat)

  datatype Config = Config(sessionTtl: nat, usedTokenTtl: nat)

  datatype Store<U, D> = Store(
    byToken: map<Token, Session<U, D>>,
    byId: map<Uuid, Session<U, D>>,
    used: map<Token, UsedToken<U>>)

  /** `elapsed()` never goes below zero. */
  function Elapsed(now: nat, since: nat): nat {
    if now < since then 0 else now - since
  }

  // What each operation computes

  function Created<U, D>(m: Store<U, D>, s: Session<U, D>): Store<U, D> {
    m.(byToken := m.byToken[s.token := s], byId := m.byId[s.id := s])
  }

  /** Removing all sessions of `ids` that are live, with their tokens and used tokens. */
  function Without<U, D>(m: Store<U, D>, ids: set<Uuid>): Store<U, D> {
    Store(
      m.byToken - (set id | id in ids && id in m.byId :: m.byId[id].token),
      m.byId - ids,
      map t | t in m.used && !(m.used[t].id in ids && m.used[t].id in m.byId) :: m.used[t])
  }

  function OfUser<U(==), D>(m: Store<U, D>, user: U): set<Uuid> {
    set id | id in m.byId && m.byId[id].user == user
  }

  predicate Idle<U, D>(cfg: Config, s: Session<U, D>, now: nat) {
    Elapsed(now, s.lastSeen) >= cfg.sessionTtl
  }

  function IdleOnes<U, D>(cfg: Config, m: Store<U, D>, now: nat): set<Uuid> {
    set id | id in m.byId && Idle(cfg, m.byId[id], now)
  }

  function Unexpired<U>(cfg: Config, used: map<Token, UsedToken<U>>, now: nat): map<Token, UsedToken<U>> {
    map t | t in used && Elapsed(now, used[t].at) < cfg.usedTokenTtl :: used[t]
  }

  function Resumed<U(==), D>(cfg: Config, m: Store<U, D>, token: Token, drawn: Token, now: nat)
    : (Store<U, D>, Answer<U, D>)
  {
    if token in m.used then (Without(m, OfUser(m, m.used[token].user)), Err(Conflict))
    else if token !in m.byToken then (m, Err(NotFound))
    else
      var s := m.byToken[token];
      if Idle(cfg, s, now) then (Without(m, {s.id}), Err(Expired))
      else
        var s' := s.(token := drawn, lastSeen := now);
        (Store((m.byToken - {token})[drawn := s'], m.byId[s.id := s'],
               m.used[token := UsedToken(s.id, s.user, now)]),
         Ok(s'))
  }

  function Validated<U, D>(cfg: Config, m: Store<U, D>, token: Token, now: nat): (Store<U, D>, Answer<U, D>) {
    if token !in m.byToken then (m, Err(NotFound))
    else
      var s := m.byToken[token];
      if Idle(cfg, s, now) then (Without(m, {s.id}), Err(Expired))
      else
        var s' := s.(lastSeen := now);
        (Created(m, s'), Ok(s'))
  }

  function Touched<U, D>(m: Store<U, D>, id: Uuid, now: nat): Store<U, D> {
    if id !in m.byId then m
    else
      var s := m.byId[id].(lastSeen := now);
      m.(byId := m.byId[id := s], byToken := m.byToken[s.token := s])
  }

  function Cleaned<U, D>(cfg: Config, m: Store<U, D>, now: nat): Store<U, D> {
    Without(m.(used := Unexpired(cfg, m.used, now)), IdleOnes(cfg, m, now))
  }

  // The manager as it runs

  class SessionManager<U(==), D> {
    const config: Config
    var sessionsByToken: map<Token, Session<U, D>>
    var sessionsById: map<Uuid, Session<U, D>>
    var usedTokens: map<Token, UsedToken<U>>

    ghost function Model(): Store<U, D>
      reads this
    {
      Store(sessionsByToken, sessionsById, usedTokens)
    }

    constructor (config: Config)
      ensures this.config == config && Model() == Store(map[], map[], map[])
    {
      this.config := config;
      sessionsByToken, sessionsById, usedTokens := map[], map[], map[];
    }

    method CreateSession(user: U, data: D, id: Uuid, token: Token, now: nat) returns (s: Session<U, D>)
      modifies this
      ensures s == Session(id, user, token, now, data) && Model() == Created(old(Model()), s)
    {
      s := Session(id, user, token, now, data);
      sessionsByToken := sessionsByToken[token := s];
      sessionsById := sessionsById[id := s];
    }

    method ResumeSession(token: Token, drawn: Token, now: nat) returns (r: Answer<U, D>)
      modifies this
      ensures (Model(), r) == Resumed(config, old(Model()), token, drawn, now)
    {
      if token in usedTokens {
        TerminateAllForUser(usedTokens[token].user);
        return Err(Conflict);
      }
      if token !in sessionsByToken {
        return Err(NotFound);
      }
      var session := sessionsByToken[token];
      if Elapsed(now, session.lastSeen) >= config.sessionTtl {
        TerminateSession(session.id);
        return Err(Expired);
      }
      var updated := Session(session.id, session.user, drawn, now, session.data);
      usedTokens := usedTokens[token := UsedToken(session.id, session.user, now)];
      sessionsByToken := sessionsByToken - {token};
      sessionsByToken := sessionsByToken[drawn := updated];
      sessionsById := sessionsById[session.id := updated];
      r := Ok(updated);
    }

    method ValidateAndTouch(token: Token, now: nat) returns (r: Answer<U, D>)
      modifies this
      ensures (Model(), r) == Validated(config, old(Model()), token, now)
    {
      if token !in sessionsByToken {
        return Err(NotFound);
      }
      var session := sessionsByToken[token];
      if Elapsed(now, session.lastSeen) >= config.sessionTtl {
        TerminateSession(session.id);
        return Err(Expired);
      }
      var updated := session.(lastSeen := now);
      sessionsById := sessionsById[session.id := updated];
      sessionsByToken := sessionsByToken[session.token := updated];
      r := Ok(updated);
    }

    method UpdateLastSeen(id: Uuid, now: nat)
      modifies this
      ensures Model() == Touched(old(Model()), id, now)
    {
      if id in sessionsById {
        var updated := sessionsById[id].(lastSeen := now);
        sessionsById := sessionsById[id := updated];
        sessionsByToken := sessionsByToken[updated.token := updated];
      }
    }

    method TerminateSession(id: Uuid)
      modifies this
      ensures Model() == Without(old(Model()), {id})
    {
      if id in sessionsById {
        var session := sessionsById[id];
        sessionsById := sessionsById - {id};
        sessionsByToken := sessionsByToken - {session.token};
        usedTokens := map t | t in usedTokens && usedTokens[t].id != id :: usedTokens[t];
        assert (set x | x in {id} && x in old(sessionsById) :: old(sessionsById)[x].token) == {session.token};
      } else {
        WithoutNothing(Model(), {id});
      }
    }

    /** Terminates the collected sessions one by one, in whatever order they come. */
    method TerminateEach(ids: set<Uuid>)
      modifies this
      ensures Model() == Without(old(Model()), ids)
    {
      var left := ids;
      WithoutNothing(Model(), {});
      while left != {}
        invariant left <= ids && Model() == Without(old(Model()), ids - left)
        decreases left
      {
        var id :| id in left;
        WithoutMore(old(Model()), ids - left, id);
        assert ids - (left - {id}) == (ids - left) + {id};
        TerminateSession(id);
        left := left - {id};
      }
      assert ids - left == ids;
    }

    method TerminateAllForUser(user: U)
      modifies this
      ensures Model() == Without(old(Model()), OfUser(old(Model()), user))
    {
      var toRemove := set id | id in sessionsById && sessionsById[id].user == user;
      TerminateEach(toRemove);
    }

    method Cleanup(now: nat)
      modifies this
      ensures Model() == Cleaned(config, old(Model()), now)
    {
      usedTokens := map t | t in usedTokens && Elapsed(now, usedTokens[t].at) < config.usedTokenTtl :: usedTokens[t];
      var toRemove := set id | id in sessionsById && Elapsed(now, sessionsById[id].lastSeen) >= config.sessionTtl;
      assert toRemove == IdleOnes(config, old(Model()), now);
      assert usedTokens == Unexpired(config, old(usedTokens), now);
      TerminateEach(toRemove);
    }
  }

  lemma WithoutNothing<U, D>(m: Store<U, D>, ids: set<Uuid>)
    requires forall id | id in ids :: id !in m.byId
    ensures Without(m, ids) == m
  {
    assert (set id | id in ids && id in m.byId :: m.byId[id].token) == {};
  }

  lemma WithoutMore<U, D>(m: Store<U, D>, ids: set<Uuid>, id: Uuid)
    requires id !in ids
    ensures Without(Without(m, ids), {id}) == Without(m, ids + {id})
  {
    var a, b := Without(Without(m, ids), {id}), Without(m, ids + {id});
    assert a.byId == b.byId;
    assert a.byToken == b.byToken;
    assert a.used == b.used;
  }

  // The three maps agree

  ghost predicate Consistent<U, D>(m: Store<U, D>) {
    (forall id | id in m.byId :: IndexedById(m, id)) &&
    (forall t | t in m.byToken :: IndexedByToken(m, t)) &&
    (forall t | t in m.used :: UsedByLive(m, t))
  }

  ghost predicate IndexedById<U, D>(m: Store<U, D>, id: Uuid)
    requires id in m.byId
  {
    var s := m.byId[id];
    s.id == id && s.token in m.byToken && m.byToken[s.token] == s
  }

  ghost predicate IndexedByToken<U, D>(m: Store<U, D>, t: Token)
    requires t in m.byToken
  {
    var s := m.byToken[t];
    s.token == t && s.id in m.byId && m.byId[s.id] == s
  }

  /** A used token is not active, and its session is live and of the same user. */
  ghost predicate UsedByLive<U, D>(m: Store<U, D>, t: Token)
    requires t in m.used
  {
    t !in m.byToken && m.used[t].id in m.byId && m.byId[m.used[t].id].user == m.used[t].user
  }

  lemma WithoutConsistent<U, D>(m: Store<U, D>, ids: set<Uuid>)
    requires Consistent(m)
    ensures Consistent(Without(m, ids))
    ensures forall t :: t in Without(m, ids).byToken <==> t in m.byToken && m.byToken[t].id !in ids
    ensures forall t :: t in Without(m, ids).used <==> t in m.used && m.used[t].id !in ids
  {
    var m' := Without(m, ids);
    forall t ensures t in m'.byToken <==> t in m.byToken && m.byToken[t].id !in ids {
      if t in m.byToken {
        assert IndexedByToken(m, t);
        if m.byToken[t].id in ids {
          assert m.byId[m.byToken[t].id].token == t;
        }
      }
    }
    forall t ensures t in m'.used <==> t in m.used && m.used[t].id !in ids {
      if t in m.used {
        assert UsedByLive(m, t);
      }
    }
    forall id | id in m'.byId ensures IndexedById(m', id) {
      assert IndexedById(m, id);
    }
    forall t | t in m'.byToken ensures IndexedByToken(m', t) {
      assert IndexedByToken(m, t);
    }
    forall t | t in m'.used ensures UsedByLive(m', t) {
      assert UsedByLive(m, t);
    }
  }

  /** Active tokens and live sessions are equally many. */
  lemma {:induction false} EquallyMany<U, D>(m: Store<U, D>)
    requires Consistent(m)
    ensures |m.byToken| == |m.byId|
    decreases |m.byId|
  {
    if m.byId.Keys == {} {
      assert m.byToken.Keys == {};
    } else {
      var id :| id in m.byId;
      assert IndexedById(m, id);
      var m' := Without(m, {id});
      WithoutConsistent(m, {id});
      assert m.byId.Keys == m'.byId.Keys + {id};
      forall t | t in m.byToken && t != m.byId[id].token ensures t in m'.byToken {
        assert IndexedByToken(m, t);
      }
      assert m.byToken.Keys == m'.byToken.Keys + {m.byId[id].token};
      EquallyMany(m');
    }
  }

  // What the caller is told

  /** The session has not been seen for its whole time to live. */
  predicate Stale<U, D>(cfg: Config, s: Session<U, D>, now: nat) {
    cfg.sessionTtl == 0 || now >= s.lastSeen + cfg.sessionTtl
  }

  /**
   A validation answers with the session, as it is stored afterwards, iff the
   token was active and the session still lives; that it expired iff the token
   was active and the session is gone; otherwise that there is none.
   */
  lemma ValidateAnswers<U, D>(cfg: Config, m: Store<U, D>, token: Token, now: nat)
    requires Consistent(m)
    ensures var (m', r) := Validated(cfg, m, token, now);
            (r.Ok? <==> token in m.byToken && m.byToken[token].id in m'.byId) &&
            (r == Err(Expired) <==> token in m.byToken && m.byToken[token].id !in m'.byId) &&
            (r == Err(NotFound) <==> token !in m.byToken) && (r == Err(NotFound) ==> m' == m) &&
            (r.Ok? ==>
               r.session == m.byToken[token].(lastSeen := now) &&
               token in m'.byToken && m'.byToken[token] == r.session && m'.byId[r.session.id] == r.session)
    ensures Validated(cfg, m, token, now).1 == Err(Expired) <==>
            token in m.byToken && Stale(cfg, m.byToken[token], now)
  {
    if token in m.byToken {
      assert IndexedByToken(m, token);
    }
  }

  /**
   A resumption answers with the session under its new token, as stored
   afterwards, iff the token was active and the session still lives; with a
   conflict iff the token was used up; that it expired iff it was active and
   the session is gone; otherwise that there is none.
   */
  lemma ResumeAnswers<U, D>(cfg: Config, m: Store<U, D>, token: Token, drawn: Token, now: nat)
    requires Consistent(m) && drawn !in m.byToken
    ensures var (m', r) := Resumed(cfg, m, token, drawn, now);
            (r == Err(Conflict) <==> token in m.used) &&
            (r.Ok? <==> token in m.byToken && m.byToken[token].id in m'.byId) &&
            (r == Err(Expired) <==> token in m.byToken && m.byToken[token].id !in m'.byId) &&
            (r == Err(NotFound) <==> token !in m.used && token !in m.byToken) && (r == Err(NotFound) ==> m' == m) &&
            (r.Ok? ==>
               r.session == m.byToken[token].(token := drawn, lastSeen := now) &&
               drawn in m'.byToken && m'.byToken[drawn] == r.session && m'.byId[r.session.id] == r.session &&
               token !in m'.byToken && token in m'.used &&
               m'.used[token] == UsedToken(r.session.id, r.session.user, now))
    ensures Resumed(cfg, m, token, drawn, now).1 == Err(Expired) <==>
            token in m.byToken && Stale(cfg, m.byToken[token], now)
  {
    if token in m.byToken {
      assert IndexedByToken(m, token);
    }
    if token in m.used {
      assert UsedByLive(m, token);
    }
  }

  // Runs

  datatype Op<U, D> =
    | Create(user: U, data: D, id: Uuid, token: Token)
    | Resume(presented: Token, drawn: Token)
    | Validate(presented: Token)
    | Touch(id: Uuid)
    | Terminate(id: Uuid)
    | TerminateUser(user: U)
    | Cleanup

  datatype Timed<U, D> = Timed(now: nat, op: Op<U, D>)

  /** The store, with every token and session identifier issued so far. */
  datatype World<U, D> = World(store: Store<U, D>, tokens: set<Token>, ids: set<Uuid>)

  function Perform<U(==), D>(cfg: Config, m: Store<U, D>, e: Timed<U, D>): Store<U, D> {
    match e.op
    case Create(user, data, id, token) => Created(m, Session(id, user, token, e.now, data))
    case Resume(t, drawn) => Resumed(cfg, m, t, drawn, e.now).0
    case Validate(t) => Validated(cfg, m, t, e.now).0
    case Touch(id) => Touched(m, id, e.now)
    case Terminate(id) => Without(m, {id})
    case TerminateUser(user) => Without(m, OfUser(m, user))
    case Cleanup => Cleaned(cfg, m, e.now)
  }

  function Step<U(==), D>(cfg: Config, w: World<U, D>, e: Timed<U, D>): World<U, D> {
    World(Perform(cfg, w.store, e),
          w.tokens + (if e.op.Create? then {e.op.token} else if e.op.Resume? then {e.op.drawn} else {}),
          w.ids + if e.op.Create? then {e.op.id} else {})
  }

  function Run<U(==), D>(cfg: Config, w: World<U, D>, es: seq<Timed<U, D>>): World<U, D> {
    if es == [] then w else Step(cfg, Run(cfg, w, DropLast(es)), Last(es))
  }

  /** Drawn tokens and identifiers were never issued before. */
  predicate Fresh<U, D>(w: World<U, D>, e: Timed<U, D>) {
    match e.op
    case Create(_, _, id, token) => id !in w.ids && token !in w.tokens
    case Resume(_, drawn) => drawn !in w.tokens
    case _ => true
  }

  predicate FreshRun<U(==), D>(cfg: Config, w: World<U, D>, es: seq<Timed<U, D>>) {
    es == [] || (FreshRun(cfg, w, DropLast(es)) && Fresh(Run(cfg, w, DropLast(es)), Last(es)))
  }

  ghost predicate Valid<U, D>(w: World<U, D>) {
    Consistent(w.store) &&
    w.store.byToken.Keys <= w.tokens && w.store.used.Keys <= w.tokens && w.store.byId.Keys <= w.ids
  }

  lemma StoreSession<U, D>(m: Store<U, D>, s: Session<U, D>)
    requires Consistent(m)
    requires if s.id in m.byId
             then m.byId[s.id].token == s.token && m.byId[s.id].user == s.user
             else s.token !in m.byToken && s.token !in m.used
    ensures Consistent(Created(m, s))
  {
    var m' := Created(m, s);
    forall id | id in m'.byId ensures IndexedById(m', id) {
      if id in m.byId {
        assert IndexedById(m, id);
      }
      if s.id in m.byId {
        assert IndexedById(m, s.id);
      }
    }
    forall t | t in m'.byToken ensures IndexedByToken(m', t) {
      if t != s.token {
        assert IndexedByToken(m, t);
      }
    }
    forall t | t in m'.used ensures UsedByLive(m', t) {
      assert UsedByLive(m, t);
      if s.id in m.byId {
        assert IndexedById(m, s.id);
      }
    }
  }

  lemma RotateConsistent<U, D>(m: Store<U, D>, token: Token, drawn: Token, now: nat)
    requires Consistent(m) && token in m.byToken
    requires drawn !in m.byToken && drawn !in m.used
    ensures var s := m.byToken[token];
            var s' := s.(token := drawn, lastSeen := now);
            Consistent(Store((m.byToken - {token})[drawn := s'], m.byId[s.id := s'],
                             m.used[token := UsedToken(s.id, s.user, now)]))
  {
    var s := m.byToken[token];
    var s' := s.(token := drawn, lastSeen := now);
    var m' := Store((m.byToken - {token})[drawn := s'], m.byId[s.id := s'],
                    m.used[token := UsedToken(s.id, s.user, now)]);
    assert IndexedByToken(m, token);
    forall id | id in m'.byId ensures IndexedById(m', id) {
      assert IndexedById(m, id);
    }
    forall t | t in m'.byToken ensures IndexedByToken(m', t) {
      if t != drawn {
        assert IndexedByToken(m, t);
      }
    }
    forall t | t in m'.used ensures UsedByLive(m', t) {
      if t != token {
        assert UsedByLive(m, t);
      }
    }
  }

  lemma CleanedConsistent<U, D>(cfg: Config, m: Store<U, D>, now: nat)
    requires Consistent(m)
    ensures Consistent(Cleaned(cfg, m, now))
  {
    var m1 := m.(used := Unexpired(cfg, m.used, now));
    forall id | id in m1.byId ensures IndexedById(m1, id) {
      assert IndexedById(m, id);
    }
    forall t | t in m1.byToken ensures IndexedByToken(m1, t) {
      assert IndexedByToken(m, t);
    }
    forall t | t in m1.used ensures UsedByLive(m1, t) {
      assert UsedByLive(m, t);
    }
    WithoutConsistent(m1, IdleOnes(cfg, m, now));
  }

  lemma ResumeValid<U, D>(cfg: Config, w: World<U, D>, e: Timed<U, D>)
    requires Valid(w) && e.op.Resume? && Fresh(w, e)
    ensures Valid(Step(cfg, w, e))
  {
    var m, t := w.store, e.op.presented;
    if t in m.used {
      WithoutConsistent(m, OfUser(m, m.used[t].user));
    } else if t in m.byToken {
      assert IndexedByToken(m, t);
      if Idle(cfg, m.byToken[t], e.now) {
        WithoutConsistent(m, {m.byToken[t].id});
      } else {
        RotateConsistent(m, t, e.op.drawn, e.now);
      }
    }
  }

  lemma StepValid<U, D>(cfg: Config, w: World<U, D>, e: Timed<U, D>)
    requires Valid(w) && Fresh(w, e)
    ensures Valid(Step(cfg, w, e))
  {
    var m := w.store;
    match e.op
    case Create(user, data, id, token) => StoreSession(m, Session(id, user, token, e.now, data));
    case Resume(_, _) => ResumeValid(cfg, w, e);
    case Validate(t) =>
      if t in m.byToken {
        assert IndexedByToken(m, t);
        if Idle(cfg, m.byToken[t], e.now) {
          WithoutConsistent(m, {m.byToken[t].id});
        } else {
          StoreSession(m, m.byToken[t].(lastSeen := e.now));
        }
      }
    case Touch(id) =>
      if id in m.byId {
        assert IndexedById(m, id);
        StoreSession(m, m.byId[id].(lastSeen := e.now));
      }
    case Terminate(id) => WithoutConsistent(m, {id});
    case TerminateUser(user) => WithoutConsistent(m, OfUser(m, user));
    case Cleanup => CleanedConsistent(cfg, m, e.now);
  }

  /** In every reachable state the three maps agree. */
  lemma {:induction false} MapsAgree<U, D>(cfg: Config, w: World<U, D>, es: seq<Timed<U, D>>)
    requires Valid(w) && FreshRun(cfg, w, es)
    ensures Valid(Run(cfg, w, es))
    ensures |Run(cfg, w, es).store.byToken| == |Run(cfg, w, es).store.byId|
  {
    if es != [] {
      MapsAgree(cfg, w, DropLast(es));
      StepValid(cfg, Run(cfg, w, DropLast(es)), Last(es));
    }
    EquallyMany(Run(cfg, w, es).store);
  }

  // A token is single-use

  lemma {:induction false} IssuedGrows<U, D>(cfg: Config, w: World<U, D>, es: seq<Timed<U, D>>)
    ensures w.tokens <= Run(cfg, w, es).tokens && w.ids <= Run(cfg, w, es).ids
  {
    if es != [] {
      IssuedGrows(cfg, w, DropLast(es));
    }
  }

  lemma InactiveStays<U, D>(cfg: Config, w: World<U, D>, e: Timed<U, D>, t: Token)
    requires Valid(w) && Fresh(w, e) && t in w.tokens && t !in w.store.byToken
    ensures t !in Step(cfg, w, e).store.byToken
  {
    match e.op
    case Validate(p) =>
      if p in w.store.byToken {
        assert IndexedByToken(w.store, p);
      }
    case Touch(id) =>
      if id in w.store.byId {
        assert IndexedById(w.store, id);
      }
    case _ =>
  }

  /**
   Once a resumption of `t` has succeeded, no later resumption or validation
   of `t` does, whatever happens in between.
   */
  lemma {:induction false} SingleUse<U, D>(
      cfg: Config, w: World<U, D>, t: Token, drawn: Token, now: nat, es: seq<Timed<U, D>>)
    requires Valid(w) && drawn !in w.tokens && Resumed(cfg, w.store, t, drawn, now).1.Ok?
    requires FreshRun(cfg, Step(cfg, w, Timed(now, Resume(t, drawn))), es)
    ensures var w' := Run(cfg, Step(cfg, w, Timed(now, Resume(t, drawn))), es);
            Valid(w') && t in w'.tokens && t !in w'.store.byToken &&
            forall drawn', now' ::
              Resumed(cfg, w'.store, t, drawn', now').1.Err? && Validated(cfg, w'.store, t, now').1 == Err(NotFound)
  {
    var w1 := Step(cfg, w, Timed(now, Resume(t, drawn)));
    StepValid(cfg, w, Timed(now, Resume(t, drawn)));
    if es != [] {
      SingleUse(cfg, w, t, drawn, now, DropLast(es));
      var w2 := Run(cfg, w1, DropLast(es));
      InactiveStays(cfg, w2, Last(es), t);
      StepValid(cfg, w2, Last(es));
    }
  }

  /** A cleanup at which a token used at `at` has reached its retention age. */
  predicate Forgets<U, D>(cfg: Config, e: Timed<U, D>, at: nat) {
    e.op.Cleanup? && Elapsed(e.now, at) >= cfg.usedTokenTtl
  }

  predicate Remembered<U, D>(cfg: Config, es: seq<Timed<U, D>>, at: nat) {
    forall i | 0 <= i < |es| :: !Forgets(cfg, es[i], at)
  }

  /** The used token `t` is kept, as `u`, exactly while its session lives and it is not forgotten. */
  predicate Tracked<U(==), D>(m: Store<U, D>, t: Token, u: UsedToken<U>, kept: bool) {
    (t in m.used <==> u.id in m.byId && kept) && (t in m.used ==> m.used[t] == u)
  }

  lemma TrackedWithout<U, D>(m: Store<U, D>, ids: set<Uuid>, t: Token, u: UsedToken<U>, kept: bool)
    requires Tracked(m, t, u, kept)
    ensures Tracked(Without(m, ids), t, u, kept)
  {
  }

  lemma TrackedResume<U, D>(
      cfg: Config, m: Store<U, D>, p: Token, drawn: Token, now: nat, t: Token, u: UsedToken<U>, kept: bool)
    requires Consistent(m) && t !in m.byToken && Tracked(m, t, u, kept)
    ensures Tracked(Resumed(cfg, m, p, drawn, now).0, t, u, kept)
  {
    if p in m.used {
      TrackedWithout(m, OfUser(m, m.used[p].user), t, u, kept);
    } else if p in m.byToken {
      assert IndexedByToken(m, p);
      TrackedWithout(m, {m.byToken[p].id}, t, u, kept);
    }
  }

  lemma TrackedValidate<U, D>(
      cfg: Config, m: Store<U, D>, p: Token, now: nat, t: Token, u: UsedToken<U>, kept: bool)
    requires Consistent(m) && Tracked(m, t, u, kept)
    ensures Tracked(Validated(cfg, m, p, now).0, t, u, kept)
  {
    if p in m.byToken {
      assert IndexedByToken(m, p);
      TrackedWithout(m, {m.byToken[p].id}, t, u, kept);
    }
  }

  lemma TrackedCleanup<U, D>(cfg: Config, m: Store<U, D>, now: nat, t: Token, u: UsedToken<U>, kept: bool)
    requires Tracked(m, t, u, kept)
    ensures Tracked(Cleaned(cfg, m, now), t, u, kept && Elapsed(now, u.at) < cfg.usedTokenTtl)
  {
    var m1 := m.(used := Unexpired(cfg, m.used, now));
    TrackedWithout(m1, IdleOnes(cfg, m, now), t, u, kept && Elapsed(now, u.at) < cfg.usedTokenTtl);
  }

  lemma UsedStep<U, D>(cfg: Config, w: World<U, D>, e: Timed<U, D>, t: Token, u: UsedToken<U>, kept: bool)
    requires Valid(w) && Fresh(w, e)
    requires t in w.tokens && t !in w.store.byToken && u.id in w.ids
    requires Tracked(w.store, t, u, kept)
    ensures Tracked(Step(cfg, w, e).store, t, u, kept && !Forgets(cfg, e, u.at))
  {
    var m := w.store;
    match e.op
    case Resume(p, drawn) => TrackedResume(cfg, m, p, drawn, e.now, t, u, kept);
    case Validate(p) => TrackedValidate(cfg, m, p, e.now, t, u, kept);
    case Terminate(id) => TrackedWithout(m, {id}, t, u, kept);
    case TerminateUser(user) => TrackedWithout(m, OfUser(m, user), t, u, kept);
    case Cleanup => TrackedCleanup(cfg, m, e.now, t, u, kept);
    case _ =>
  }

  lemma {:induction false} UsedWhile<U, D>(
      cfg: Config, w: World<U, D>, es: seq<Timed<U, D>>, t: Token, u: UsedToken<U>)
    requires Valid(w) && FreshRun(cfg, w, es)
    requires t in w.store.used && w.store.used[t] == u
    ensures var w' := Run(cfg, w, es);
            Valid(w') && t in w'.tokens && t !in w'.store.byToken && u.id in w'.ids &&
            Tracked(w'.store, t, u, Remembered(cfg, es, u.at))
  {
    if es == [] {
      assert UsedByLive(w.store, t);
    } else {
      UsedWhile(cfg, w, DropLast(es), t, u);
      var w', e := Run(cfg, w, DropLast(es)), Last(es);
      StepValid(cfg, w', e);
      InactiveStays(cfg, w', e, t);
      UsedStep(cfg, w', e, t, u, Remembered(cfg, DropLast(es), u.at));
      assert es == DropLast(es) + [e];
    }
  }

  /**
   Replay detection, exactly: presenting a used token again is a conflict iff
   its session is still live and no cleanup came at or past its retention age;
   otherwise the token is simply unknown.
   */
  lemma ReplayDetected<U, D>(
      cfg: Config, w: World<U, D>, t: Token, drawn: Token, now: nat, es: seq<Timed<U, D>>, drawn': Token, now': nat)
    requires Valid(w) && drawn !in w.tokens && Resumed(cfg, w.store, t, drawn, now).1.Ok?
    requires FreshRun(cfg, Step(cfg, w, Timed(now, Resume(t, drawn))), es)
    ensures var id := Resumed(cfg, w.store, t, drawn, now).1.session.id;
            var m := Run(cfg, Step(cfg, w, Timed(now, Resume(t, drawn))), es).store;
            Resumed(cfg, m, t, drawn', now').1 ==
            if id in m.byId && Remembered(cfg, es, now) then Err(Conflict) else Err(NotFound)
  {
    var w1 := Step(cfg, w, Timed(now, Resume(t, drawn)));
    StepValid(cfg, w, Timed(now, Resume(t, drawn)));
    UsedWhile(cfg, w1, es, t, w1.store.used[t]);
  }

  // Lifetime of a session

  /** Why an operation may end session `id`. */
  predicate Ends<U(==), D>(cfg: Config, m: Store<U, D>, e: Timed<U, D>, id: Uuid)
    requires id in m.byId
  {
    var s := m.byId[id];
    match e.op
    case Terminate(other) => other == id
    case TerminateUser(user) => user == s.user
    case Resume(t, _) =>
      if t in m.used then m.used[t].user == s.user else t == s.token && Stale(cfg, s, e.now)
    case Validate(t) => t == s.token && Stale(cfg, s, e.now)
    case Cleanup => Stale(cfg, s, e.now)
    case _ => false
  }

  /** A session as an operation that does not end it leaves it. */
  function Continued<U, D>(s: Session<U, D>, e: Timed<U, D>): Session<U, D> {
    match e.op
    case Resume(t, drawn) => if t == s.token then s.(token := drawn, lastSeen := e.now) else s
    case Validate(t) => if t == s.token then s.(lastSeen := e.now) else s
    case Touch(id) => if id == s.id then s.(lastSeen := e.now) else s
    case _ => s
  }

  /**
   One step: a live session ends exactly for one of these reasons; otherwise
   only its own token rotates it and only contact with it is a sign of life.
   */
  lemma EndsExactly<U, D>(cfg: Config, w: World<U, D>, e: Timed<U, D>, id: Uuid)
    requires Valid(w) && Fresh(w, e) && id in w.store.byId
    ensures var m' := Step(cfg, w, e).store;
            (id in m'.byId <==> !Ends(cfg, w.store, e, id)) &&
            (id in m'.byId ==> m'.byId[id] == Continued(w.store.byId[id], e))
  {
    assert IndexedById(w.store, id);
    match e.op
    case Resume(t, _) =>
      if t in w.store.byToken {
        assert IndexedByToken(w.store, t);
      }
      if t in w.store.used {
        assert UsedByLive(w.store, t);
      }
    case Validate(t) =>
      if t in w.store.byToken {
        assert IndexedByToken(w.store, t);
      }
    case _ =>
  }

  /** Sessions come into being only by creation, as requested. */
  lemma BeginsExactly<U, D>(cfg: Config, w: World<U, D>, e: Timed<U, D>, id: Uuid)
    requires Valid(w) && Fresh(w, e) && id !in w.store.byId
    ensures var m' := Step(cfg, w, e).store;
            (id in m'.byId <==> e.op.Create? && e.op.id == id) &&
            (id in m'.byId ==> m'.byId[id] == Session(id, e.op.user, e.op.token, e.now, e.op.data))
  {
    match e.op
    case Resume(t, _) =>
      if t in w.store.byToken {
        assert IndexedByToken(w.store, t);
      }
    case Validate(t) =>
      if t in w.store.byToken {
        assert IndexedByToken(w.store, t);
      }
    case _ =>
  }

  /** No prefix of the run ends with an operation that ends `id`. */
  ghost predicate NeverEnded<U, D>(cfg: Config, w: World<U, D>, es: seq<Timed<U, D>>, id: Uuid) {
    es == [] ||
    (NeverEnded(cfg, w, DropLast(es), id) &&
     var m := Run(cfg, w, DropLast(es)).store;
     id in m.byId && !Ends(cfg, m, Last(es), id))
  }

  /** Over any run a session's user and data never change, and it leaves only for a stated reason. */
  lemma {:induction false} Lifetime<U, D>(cfg: Config, w: World<U, D>, es: seq<Timed<U, D>>, id: Uuid)
    requires Valid(w) && FreshRun(cfg, w, es) && id in w.store.byId
    ensures var m := Run(cfg, w, es).store;
            (id in m.byId <==> NeverEnded(cfg, w, es, id)) &&
            (id in m.byId ==> m.byId[id].user == w.store.byId[id].user && m.byId[id].data == w.store.byId[id].data)
  {
    if es != [] {
      Lifetime(cfg, w, DropLast(es), id);
      MapsAgree(cfg, w, DropLast(es));
      IssuedGrows(cfg, w, DropLast(es));
      var w' := Run(cfg, w, DropLast(es));
      if id in w'.store.byId {
        EndsExactly(cfg, w', Last(es), id);
      } else {
        BeginsExactly(cfg, w', Last(es), id);
      }
    }
  }

  // What a conflict and a cleanup remove

  lemma WithoutUser<U, D>(m: Store<U, D>, user: U)
    requires Consistent(m)
    ensures var m' := Without(m, OfUser(m, user));
            (forall t :: t in m'.byToken <==> t in m.byToken && m.byToken[t].user != user) &&
            (forall id :: id in m'.byId <==> id in m.byId && m.byId[id].user != user) &&
            (forall t :: t in m'.used <==> t in m.used && m.used[t].user != user)
  {
    WithoutConsistent(m, OfUser(m, user));
    forall t | t in m.byToken ensures m.byToken[t].id in OfUser(m, user) <==> m.byToken[t].user == user {
      assert IndexedByToken(m, t);
    }
    forall t | t in m.used ensures m.used[t].id in OfUser(m, user) <==> m.used[t].user == user {
      assert UsedByLive(m, t);
    }
  }

  /** A conflict removes everything of that user and nothing of anyone else. */
  lemma ConflictRemovesUser<U, D>(cfg: Config, m: Store<U, D>, t: Token, drawn: Token, now: nat)
    requires Consistent(m) && t in m.used
    ensures var user := m.used[t].user;
            var (m', r) := Resumed(cfg, m, t, drawn, now);
            r == Err(Conflict) &&
            m' == Store(map x | x in m.byToken && m.byToken[x].user != user :: m.byToken[x],
                        map id | id in m.byId && m.byId[id].user != user :: m.byId[id],
                        map x | x in m.used && m.used[x].user != user :: m.used[x])
  {
    OnlyOthers(m, m.used[t].user);
  }

  lemma OnlyOtherTokens<U, D>(m: Store<U, D>, user: U)
    requires Consistent(m)
    ensures Without(m, OfUser(m, user)).byToken ==
            map x | x in m.byToken && m.byToken[x].user != user :: m.byToken[x]
  {
    WithoutUser(m, user);
  }

  lemma OnlyOtherUsed<U, D>(m: Store<U, D>, user: U)
    requires Consistent(m)
    ensures Without(m, OfUser(m, user)).used == map x | x in m.used && m.used[x].user != user :: m.used[x]
  {
    WithoutUser(m, user);
  }

  lemma OnlyOthers<U, D>(m: Store<U, D>, user: U)
    requires Consistent(m)
    ensures Without(m, OfUser(m, user)) ==
            Store(map x | x in m.byToken && m.byToken[x].user != user :: m.byToken[x],
                  map id | id in m.byId && m.byId[id].user != user :: m.byId[id],
                  map x | x in m.used && m.used[x].user != user :: m.used[x])
  {
    OnlyOtherTokens(m, user);
    OnlyOtherUsed(m, user);
    assert Without(m, OfUser(m, user)).byId == map id | id in m.byId && m.byId[id].user != user :: m.byId[id];
  }

  /** Cleanup leaves exactly the sessions that are not idle and, of those, the unexpired used tokens. */
  lemma CleanupLeaves<U, D>(cfg: Config, m: Store<U, D>, now: nat)
    requires Consistent(m)
    ensures Cleaned(cfg, m, now) ==
            Store(map t | t in m.byToken && !Idle(cfg, m.byToken[t], now) :: m.byToken[t],
                  map id | id in m.byId && !Idle(cfg, m.byId[id], now) :: m.byId[id],
                  map t | t in m.used && Elapsed(now, m.used[t].at) < cfg.usedTokenTtl &&
                    !Idle(cfg, m.byId[m.used[t].id], now) :: m.used[t])
  {
    CleanupTokens(cfg, m, now);
    CleanupUsed(cfg, m, now);
    var m' := Cleaned(cfg, m, now);
    assert m'.byToken == Without(m, IdleOnes(cfg, m, now)).byToken;
    assert m'.byId == map id | id in m.byId && !Idle(cfg, m.byId[id], now) :: m.byId[id];
  }

  lemma CleanupUsed<U, D>(cfg: Config, m: Store<U, D>, now: nat)
    requires Consistent(m)
    ensures forall t | t in m.used :: m.used[t].id in m.byId
    ensures Cleaned(cfg, m, now).used ==
            map t | t in m.used && Elapsed(now, m.used[t].at) < cfg.usedTokenTtl &&
              !Idle(cfg, m.byId[m.used[t].id], now) :: m.used[t]
  {
    forall t | t in m.used ensures m.used[t].id in m.byId {
      assert UsedByLive(m, t);
    }
  }

  lemma CleanupTokens<U, D>(cfg: Config, m: Store<U, D>, now: nat)
    requires Consistent(m)
    ensures Without(m, IdleOnes(cfg, m, now)).byToken ==
            map t | t in m.byToken && !Idle(cfg, m.byToken[t], now) :: m.byToken[t]
  {
    WithoutConsistent(m, IdleOnes(cfg, m, now));
    forall t | t in m.byToken ensures m.byToken[t].id in IdleOnes(cfg, m, now) <==> Idle(cfg, m.byToken[t], now) {
      assert IndexedByToken(m, t);
    }
  }
}
