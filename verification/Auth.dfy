/**
 Clients that authenticate with credentials and resume with the token of the
 last exchange, against the session manager.
 */
module Auth {
  import opened Prelude
  import opened Uuids
  import opened Sessions

  datatype AuthAction = LogIn(user: string, pass: string) | ResumeWith(token: Token)

  datatype Reply = Success(token: Option<Token>) | SessionExpired | Unauthorized | InvalidResponse

  datatype Outcome = Accepted | Failed | Rejected

  datatype SessionEvent = SessionResumed | NewSessionCreated | SessionRestoreFailed

  datatype Client = Client(credentials: Option<(string, string)>, token: Option<Token>)

  function ActionOf(c: Client): Option<AuthAction> {
    match c.token
    case Some(t) => Some(ResumeWith(t))
    case None =>
      match c.credentials
      case Some((user, pass)) => Some(LogIn(user, pass))
      case None => None
  }

  function Processed(c: Client, reply: Reply): (Client, Outcome, Option<SessionEvent>) {
    var restoreFailed := if c.token.Some? then Some(SessionRestoreFailed) else None;
    match reply
    case Success(t) =>
      (if t.Some? then c.(token := t) else c, Accepted,
       Some(if c.token.Some? then SessionResumed else NewSessionCreated))
    case SessionExpired =>
      (c.(token := None), if c.token.Some? && c.credentials.Some? then Failed else Rejected,
       Some(SessionRestoreFailed))
    case Unauthorized => (Client(None, None), Rejected, restoreFailed)
    case InvalidResponse => (c, Failed, restoreFailed)
  }

  class CredentialsAuth {
    var credentials: Option<(string, string)>
    var token: Option<Token>

    ghost function Model(): Client
      reads this
    {
      Client(credentials, token)
    }

    constructor ()
      ensures Model() == Client(None, None)
    {
      credentials, token := None, None;
    }

    method SetCredentials(user: string, pass: string)
      modifies this
      ensures Model() == Client(Some((user, pass)), None)
    {
      credentials := Some((user, pass));
      token := None;
    }

    method Logout()
      modifies this
      ensures Model() == Client(None, None)
    {
      credentials := None;
      token := None;
    }

    method GetAuthAction() returns (r: Option<AuthAction>)
      ensures r == ActionOf(Model())
    {
      if token.Some? {
        return Some(ResumeWith(token.value));
      }
      if credentials.Some? {
        return Some(LogIn(credentials.value.0, credentials.value.1));
      }
      r := None;
    }

    method ProcessAuthResponse(reply: Reply) returns (outcome: Outcome, event: Option<SessionEvent>)
      modifies this
      ensures (Model(), outcome, event) == Processed(old(Model()), reply)
    {
      var attemptedResume := token.Some?;
      match reply {
        case Success(t) =>
          if t.Some? {
            token := t;
          }
          outcome := Accepted;
          event := Some(if attemptedResume then SessionResumed else NewSessionCreated);
        case SessionExpired =>
          token := None;
          outcome := if attemptedResume && credentials.Some? then Failed else Rejected;
          event := Some(SessionRestoreFailed);
        case Unauthorized =>
          credentials := None;
          token := None;
          outcome := Rejected;
          event := if attemptedResume then Some(SessionRestoreFailed) else None;
        case InvalidResponse =>
          outcome := Failed;
          event := if attemptedResume then Some(SessionRestoreFailed) else None;
      }
    }

    method OnSessionExpired() returns (event: Option<SessionEvent>)
      modifies this
      ensures Model() == old(Model()).(token := None) && event == Some(SessionRestoreFailed)
    {
      token := None;
      event := Some(SessionRestoreFailed);
    }
  }

  // Clients and server together

  /** Who may log in, and which refusals a server reports as an expired session. */
  datatype Server<!U, !D> = Server(
    config: Config,
    logIn: (string, string) -> Option<(U, D)>,
    reportsExpired: SessionError -> bool)

  /** A token whose successful resumption its client never learned of; `kept` until a cleanup forgets it. */
  datatype LostRotation<U> = LostRotation(used: UsedToken<U>, kept: bool)

  /** `origin` remembers the session each token was issued for, `lost` the rotations of which no client knows. */
  datatype System<U, D> = System(
    world: World<U, D>,
    clients: map<nat, Client>,
    origin: map<Token, Uuid>,
    lost: map<Token, LostRotation<U>>)

  /** An exchange is completed, or its reply is lost or garbled. */
  datatype Event<U, D> =
    | Exchange(client: nat, id: Uuid, drawn: Token)
    | LoseReply(client: nat, id: Uuid, drawn: Token)
    | SetCredentials(client: nat, user: string, pass: string)
    | Logout(client: nat)
    | Expire(client: nat)
    | Serve(op: Op<U, D>)

  datatype TimedEvent<U, D> = At(now: nat, event: Event<U, D>)

  function ReplyTo<U, D>(server: Server<U, D>, a: Answer<U, D>): Reply {
    match a
    case Ok(s) => Success(Some(s.token))
    case Err(e) => if server.reportsExpired(e) then SessionExpired else Unauthorized
  }

  /** A completed exchange: the client's action, the server's operation, and the reply processed. */
  function Exchanged<U(==), D>(
      server: Server<U, D>, s: System<U, D>, now: nat, c: nat, id: Uuid, drawn: Token): System<U, D>
    requires c in s.clients
  {
    match ActionOf(s.clients[c])
    case None => s
    case Some(ResumeWith(t)) => ExchangedResume(server, s, now, c, t, drawn)
    case Some(LogIn(user, pass)) =>
      match server.logIn(user, pass)
      case Some((u, data)) => LoggedIn(server.config, s, now, c, u, data, id, drawn)
      case None => s.(clients := s.clients[c := Processed(s.clients[c], Unauthorized).0])
  }

  function LoggedIn<U(==), D>(
      cfg: Config, s: System<U, D>, now: nat, c: nat, u: U, data: D, id: Uuid, drawn: Token): System<U, D>
    requires c in s.clients
  {
    System(Step(cfg, s.world, Timed(now, Create(u, data, id, drawn))),
           s.clients[c := Processed(s.clients[c], Success(Some(drawn))).0],
           s.origin[drawn := id],
           s.lost)
  }

  function ExchangedResume<U(==), D>(
      server: Server<U, D>, s: System<U, D>, now: nat, c: nat, t: Token, drawn: Token): System<U, D>
    requires c in s.clients
  {
    var answer := Resumed(server.config, s.world.store, t, drawn, now).1;
    System(Step(server.config, s.world, Timed(now, Resume(t, drawn))),
           s.clients[c := Processed(s.clients[c], ReplyTo(server, answer)).0],
           if answer.Ok? then s.origin[drawn := answer.session.id] else s.origin,
           s.lost)
  }

  /** The server answers, but the client learns nothing from the reply and keeps what it has. */
  function LostExchange<U(==), D>(
      server: Server<U, D>, s: System<U, D>, now: nat, c: nat, id: Uuid, drawn: Token): System<U, D>
    requires c in s.clients
  {
    match ActionOf(s.clients[c])
    case None => s
    case Some(ResumeWith(t)) => LostResume(server, s, now, c, t, drawn)
    case Some(LogIn(user, pass)) =>
      match server.logIn(user, pass)
      case Some((u, data)) => s.(world := Step(server.config, s.world, Timed(now, Create(u, data, id, drawn))))
      case None => s
  }

  function LostResume<U(==), D>(
      server: Server<U, D>, s: System<U, D>, now: nat, c: nat, t: Token, drawn: Token): System<U, D>
    requires c in s.clients
  {
    var answer := Resumed(server.config, s.world.store, t, drawn, now).1;
    System(Step(server.config, s.world, Timed(now, Resume(t, drawn))),
           s.clients[c := Processed(s.clients[c], InvalidResponse).0],
           s.origin,
           if answer.Ok?
           then s.lost[t := LostRotation(UsedToken(answer.session.id, answer.session.user, now), true)]
           else s.lost)
  }

  /** A cleanup at or past the retention age makes the server forget the rotation. */
  function Aged<U, D>(
      cfg: Config, lost: map<Token, LostRotation<U>>, e: Timed<U, D>): map<Token, LostRotation<U>>
  {
    map t | t in lost :: LostRotation(lost[t].used, lost[t].kept && !Forgets(cfg, e, lost[t].used.at))
  }

  function Served<U(==), D>(cfg: Config, s: System<U, D>, e: Timed<U, D>): System<U, D> {
    s.(world := Step(cfg, s.world, e), lost := Aged(cfg, s.lost, e))
  }

  function Next<U(==), D>(server: Server<U, D>, s: System<U, D>, e: TimedEvent<U, D>): System<U, D> {
    match e.event
    case Exchange(c, id, drawn) => if c in s.clients then Exchanged(server, s, e.now, c, id, drawn) else s
    case LoseReply(c, id, drawn) => if c in s.clients then LostExchange(server, s, e.now, c, id, drawn) else s
    case SetCredentials(c, user, pass) => s.(clients := s.clients[c := Client(Some((user, pass)), None)])
    case Logout(c) => s.(clients := s.clients[c := Client(None, None)])
    case Expire(c) => if c in s.clients then s.(clients := s.clients[c := s.clients[c].(token := None)]) else s
    case Serve(op) => Served(server.config, s, Timed(e.now, op))
  }

  function After<U(==), D>(server: Server<U, D>, s: System<U, D>, es: seq<TimedEvent<U, D>>): System<U, D> {
    if es == [] then s else Next(server, After(server, s, DropLast(es)), Last(es))
  }

  /** Fresh identifiers and tokens; only the clients resume sessions. */
  predicate Proper<U, D>(s: System<U, D>, e: TimedEvent<U, D>) {
    match e.event
    case Exchange(_, id, drawn) => id !in s.world.ids && drawn !in s.world.tokens
    case LoseReply(_, id, drawn) => id !in s.world.ids && drawn !in s.world.tokens
    case Serve(op) => !op.Resume? && Fresh(s.world, Timed(e.now, op))
    case _ => true
  }

  predicate ProperRun<U(==), D>(server: Server<U, D>, s: System<U, D>, es: seq<TimedEvent<U, D>>) {
    es == [] || (ProperRun(server, s, DropLast(es)) && Proper(After(server, s, DropLast(es)), Last(es)))
  }

  /**
   Each held token is current, unless its rotation was lost; a lost one is used
   up exactly as long as its session lives and the server remembers it.  No two
   clients hold the same token.
   */
  ghost predicate LockStep<U, D>(s: System<U, D>) {
    Valid(s.world) &&
    (forall c | c in s.clients && s.clients[c].token.Some? :: Accounted(s, s.clients[c].token.value)) &&
    (forall t | t in s.lost :: Spent(s.world, t, s.lost[t])) &&
    (forall c, d | c in s.clients && d in s.clients && c != d && s.clients[c].token.Some? ::
       s.clients[c].token != s.clients[d].token)
  }

  ghost predicate Accounted<U, D>(s: System<U, D>, t: Token) {
    t in s.lost || Current(s.world, s.origin, t)
  }

  /** `t` was never used up and is the current token of its session, if that is still live. */
  ghost predicate Current<U, D>(w: World<U, D>, origin: map<Token, Uuid>, t: Token) {
    t in w.tokens && t !in w.store.used && t in origin && origin[t] in w.ids &&
    (origin[t] in w.store.byId ==> w.store.byId[origin[t]].token == t) &&
    (t in w.store.byToken ==> origin[t] == w.store.byToken[t].id)
  }

  ghost predicate Spent<U, D>(w: World<U, D>, t: Token, l: LostRotation<U>) {
    t in w.tokens && t !in w.store.byToken && l.used.id in w.ids &&
    Tracked(w.store, t, l.used, l.kept)
  }

  // One operation of the server

  /** An operation that does not use up `t` keeps it unused. */
  lemma StaysUnused<U, D>(cfg: Config, w: World<U, D>, e: Timed<U, D>, t: Token)
    requires Valid(w) && Fresh(w, e) && t in w.tokens && t !in w.store.used
    requires e.op.Resume? ==> e.op.presented != t
    ensures t in Step(cfg, w, e).tokens && t !in Step(cfg, w, e).store.used
  {
  }

  /** A session that has token `t` keeps it, or goes. */
  lemma StaysWithSession<U, D>(cfg: Config, w: World<U, D>, e: Timed<U, D>, t: Token, id: Uuid)
    requires Valid(w) && Fresh(w, e) && t in w.tokens && id in w.ids
    requires id in w.store.byId ==> w.store.byId[id].token == t
    requires e.op.Resume? ==> e.op.presented != t
    ensures var m' := Step(cfg, w, e).store;
            id in m'.byId ==> m'.byId[id].token == t
  {
    if id in w.store.byId {
      assert IndexedById(w.store, id);
      EndsExactly(cfg, w, e, id);
    } else {
      BeginsExactly(cfg, w, e, id);
    }
  }

  /** An active token stays with its session. */
  lemma SessionOfToken<U, D>(cfg: Config, w: World<U, D>, e: Timed<U, D>, t: Token)
    requires Valid(w) && Fresh(w, e) && t in w.tokens && t in Step(cfg, w, e).store.byToken
    ensures t in w.store.byToken && Step(cfg, w, e).store.byToken[t].id == w.store.byToken[t].id
  {
    if t !in w.store.byToken {
      InactiveStays(cfg, w, e, t);
    } else {
      TokenKeepsSession(cfg, w, e, t);
    }
  }

  lemma TokenKeepsSession<U, D>(cfg: Config, w: World<U, D>, e: Timed<U, D>, t: Token)
    requires Valid(w) && Fresh(w, e) && t in w.store.byToken && t in Step(cfg, w, e).store.byToken
    ensures Step(cfg, w, e).store.byToken[t].id == w.store.byToken[t].id
  {
    assert IndexedByToken(w.store, t);
    match e.op
    case Touch(id) =>
      if id in w.store.byId {
        assert IndexedById(w.store, id);
      }
    case Validate(p) =>
      if p in w.store.byToken {
        assert IndexedByToken(w.store, p);
      }
    case _ =>
  }

  lemma StaysCurrent<U, D>(cfg: Config, w: World<U, D>, e: Timed<U, D>, origin: map<Token, Uuid>, t: Token)
    requires Valid(w) && Fresh(w, e) && Current(w, origin, t)
    requires e.op.Resume? ==> e.op.presented != t
    ensures Current(Step(cfg, w, e), origin, t)
  {
    StaysUnused(cfg, w, e, t);
    StaysWithSession(cfg, w, e, t, origin[t]);
    if t in Step(cfg, w, e).store.byToken {
      SessionOfToken(cfg, w, e, t);
    }
  }

  lemma StaysSpent<U, D>(cfg: Config, w: World<U, D>, e: Timed<U, D>, t: Token, l: LostRotation<U>)
    requires Valid(w) && Fresh(w, e) && Spent(w, t, l)
    ensures Spent(Step(cfg, w, e), t, LostRotation(l.used, l.kept && !Forgets(cfg, e, l.used.at)))
  {
    InactiveStays(cfg, w, e, t);
    UsedStep(cfg, w, e, t, l.used, l.kept);
  }

  /** All lost rotations and all tokens but the presented one, after an operation of the server. */
  lemma OthersStay<U, D>(cfg: Config, s: System<U, D>, e: Timed<U, D>)
    requires LockStep(s) && Fresh(s.world, e)
    ensures var s' := Served(cfg, s, e);
            Valid(s'.world) && s'.lost.Keys == s.lost.Keys &&
            (forall t | t in s'.lost :: Spent(s'.world, t, s'.lost[t])) &&
            forall c | c in s.clients && s.clients[c].token.Some? ::
              (e.op.Resume? ==> e.op.presented != s.clients[c].token.value) ==> Accounted(s', s.clients[c].token.value)
  {
    var s' := Served(cfg, s, e);
    StepValid(cfg, s.world, e);
    forall t | t in s'.lost ensures Spent(s'.world, t, s'.lost[t]) {
      StaysSpent(cfg, s.world, e, t, s.lost[t]);
    }
    forall c |
        c in s.clients && s.clients[c].token.Some? && (e.op.Resume? ==> e.op.presented != s.clients[c].token.value)
      ensures Accounted(s', s.clients[c].token.value)
    {
      if s.clients[c].token.value !in s.lost {
        StaysCurrent(cfg, s.world, e, s.origin, s.clients[c].token.value);
      }
    }
  }

  lemma NotForgotten<U, D>(cfg: Config, lost: map<Token, LostRotation<U>>, e: Timed<U, D>)
    requires !e.op.Cleanup?
    ensures Aged(cfg, lost, e) == lost
  {
  }

  // One event of the system

  lemma HeldTokensIssued<U, D>(s: System<U, D>)
    requires LockStep(s)
    ensures forall c | c in s.clients && s.clients[c].token.Some? :: s.clients[c].token.value in s.world.tokens
    ensures s.lost.Keys <= s.world.tokens
  {
    forall t | t in s.lost ensures t in s.world.tokens {
      assert Spent(s.world, t, s.lost[t]);
    }
    forall c | c in s.clients && s.clients[c].token.Some? ensures s.clients[c].token.value in s.world.tokens {
      assert Accounted(s, s.clients[c].token.value);
    }
  }

  /** Client `c` takes a token that nobody else holds, or gives its own up. */
  lemma LockStepClient<U, D>(s: System<U, D>, c: nat, client: Client, origin: map<Token, Uuid>)
    requires Valid(s.world) && forall t | t in s.lost :: Spent(s.world, t, s.lost[t])
    requires forall d | d in s.clients && d != c && s.clients[d].token.Some? ::
      Accounted(s.(origin := origin), s.clients[d].token.value) && s.clients[d].token != client.token
    requires forall d, d' | d in s.clients && d' in s.clients && d != d' && s.clients[d].token.Some? ::
      s.clients[d].token != s.clients[d'].token
    requires client.token.Some? ==> Accounted(s.(origin := origin), client.token.value)
    ensures LockStep(s.(clients := s.clients[c := client], origin := origin))
  {
    var s' := s.(clients := s.clients[c := client], origin := origin);
    forall d | d in s'.clients && s'.clients[d].token.Some? ensures Accounted(s', s'.clients[d].token.value) {
      assert Accounted(s.(origin := origin), s'.clients[d].token.value);
    }
  }

  lemma LockStepResume<U, D>(
      server: Server<U, D>, s: System<U, D>, now: nat, c: nat, t: Token, drawn: Token)
    requires LockStep(s) && c in s.clients && s.clients[c].token == Some(t) && drawn !in s.world.tokens
    ensures LockStep(ExchangedResume(server, s, now, c, t, drawn))
  {
    var e := Timed(now, Resume(t, drawn));
    var s' := ExchangedResume(server, s, now, c, t, drawn);
    var s1 := Served(server.config, s, e);
    HeldTokensIssued(s);
    OthersStay(server.config, s, e);
    NotForgotten(server.config, s.lost, e);
    if s'.clients[c].token.Some? {
      RotatedIsCurrent(server.config, s.world, now, t, drawn, s.origin);
    }
    forall d | d in s.clients && d != c && s.clients[d].token.Some?
      ensures Accounted(s1.(origin := s'.origin), s.clients[d].token.value)
    {
      assert Accounted(s1, s.clients[d].token.value);
    }
    LockStepClient(s1, c, s'.clients[c], s'.origin);
  }

  /** After a successful resumption the drawn token is current. */
  lemma RotatedIsCurrent<U, D>(
      cfg: Config, w: World<U, D>, now: nat, t: Token, drawn: Token, origin: map<Token, Uuid>)
    requires Valid(w) && drawn !in w.tokens
    requires Resumed(cfg, w.store, t, drawn, now).1.Ok?
    ensures var id := Resumed(cfg, w.store, t, drawn, now).1.session.id;
            Current(Step(cfg, w, Timed(now, Resume(t, drawn))), origin[drawn := id], drawn)
  {
    assert IndexedByToken(w.store, t);
  }

  /** After a successful resumption the presented token is spent. */
  lemma PresentedIsSpent<U, D>(cfg: Config, w: World<U, D>, now: nat, t: Token, drawn: Token)
    requires Valid(w) && drawn !in w.tokens
    requires Resumed(cfg, w.store, t, drawn, now).1.Ok?
    ensures var session := Resumed(cfg, w.store, t, drawn, now).1.session;
            Spent(Step(cfg, w, Timed(now, Resume(t, drawn))), t,
                  LostRotation(UsedToken(session.id, session.user, now), true))
  {
    assert IndexedByToken(w.store, t);
  }

  /** After a failed resumption a token that was current still counts as such: its session is gone. */
  lemma RefusedIsCurrent<U, D>(
      cfg: Config, w: World<U, D>, now: nat, t: Token, drawn: Token, origin: map<Token, Uuid>)
    requires Valid(w) && drawn !in w.tokens && Current(w, origin, t)
    requires Resumed(cfg, w.store, t, drawn, now).1.Err?
    ensures Current(Step(cfg, w, Timed(now, Resume(t, drawn))), origin, t)
  {
    if t in w.store.byToken {
      assert IndexedByToken(w.store, t);
    }
  }

  lemma LockStepLost<U, D>(
      server: Server<U, D>, s: System<U, D>, now: nat, c: nat, t: Token, drawn: Token)
    requires LockStep(s) && c in s.clients && s.clients[c].token == Some(t) && drawn !in s.world.tokens
    ensures LockStep(LostResume(server, s, now, c, t, drawn))
  {
    var e := Timed(now, Resume(t, drawn));
    var s' := LostResume(server, s, now, c, t, drawn);
    OthersStay(server.config, s, e);
    NotForgotten(server.config, s.lost, e);
    if Resumed(server.config, s.world.store, t, drawn, now).1.Ok? {
      PresentedIsSpent(server.config, s.world, now, t, drawn);
    } else if t !in s.lost {
      assert Accounted(s, t);
      RefusedIsCurrent(server.config, s.world, now, t, drawn, s.origin);
    }
    forall d | d in s'.clients && s'.clients[d].token.Some? ensures Accounted(s', s'.clients[d].token.value) {
      if d != c {
        assert Accounted(Served(server.config, s, e), s.clients[d].token.value);
      }
    }
  }

  lemma LockStepLogIn<U, D>(
      cfg: Config, s: System<U, D>, now: nat, c: nat, u: U, data: D, id: Uuid, drawn: Token)
    requires LockStep(s) && c in s.clients && s.clients[c].token == None
    requires id !in s.world.ids && drawn !in s.world.tokens
    ensures LockStep(LoggedIn(cfg, s, now, c, u, data, id, drawn))
    ensures LockStep(s.(world := Step(cfg, s.world, Timed(now, Create(u, data, id, drawn)))))
  {
    var e := Timed(now, Create(u, data, id, drawn));
    var s' := LoggedIn(cfg, s, now, c, u, data, id, drawn);
    var s1 := Served(cfg, s, e);
    HeldTokensIssued(s);
    OthersStay(cfg, s, e);
    NotForgotten(cfg, s.lost, e);
    assert Current(s'.world, s'.origin, drawn);
    forall d | d in s.clients && s.clients[d].token.Some?
      ensures Accounted(s1, s.clients[d].token.value) && Accounted(s1.(origin := s'.origin), s.clients[d].token.value)
    {
      assert Accounted(s1, s.clients[d].token.value);
    }
    LockStepClient(s1, c, s'.clients[c], s'.origin);
    assert s1 == s.(world := s'.world);
  }

  /** A client that gives its token up, or never had one, breaks nothing. */
  lemma LockStepWithout<U, D>(s: System<U, D>, c: nat, client: Client)
    requires LockStep(s) && client.token.None?
    ensures LockStep(s.(clients := s.clients[c := client]))
  {
    LockStepClient(s, c, client, s.origin);
  }

  lemma LockStepServe<U, D>(cfg: Config, s: System<U, D>, e: Timed<U, D>)
    requires LockStep(s) && !e.op.Resume? && Fresh(s.world, e)
    ensures LockStep(Served(cfg, s, e))
  {
    OthersStay(cfg, s, e);
  }

  lemma LockStepExchange<U, D>(
      server: Server<U, D>, s: System<U, D>, now: nat, c: nat, id: Uuid, drawn: Token)
    requires LockStep(s) && c in s.clients && id !in s.world.ids && drawn !in s.world.tokens
    ensures LockStep(Exchanged(server, s, now, c, id, drawn))
    ensures LockStep(LostExchange(server, s, now, c, id, drawn))
  {
    var client := s.clients[c];
    if client.token.Some? {
      LockStepResume(server, s, now, c, client.token.value, drawn);
      LockStepLost(server, s, now, c, client.token.value, drawn);
    } else if client.credentials.Some? {
      var (user, pass) := client.credentials.value;
      var account := server.logIn(user, pass);
      if account.Some? {
        LockStepLogIn(server.config, s, now, c, account.value.0, account.value.1, id, drawn);
      } else {
        LockStepWithout(s, c, Client(None, None));
      }
    }
  }

  lemma LockStepNext<U, D>(server: Server<U, D>, s: System<U, D>, e: TimedEvent<U, D>)
    requires LockStep(s) && Proper(s, e)
    ensures LockStep(Next(server, s, e))
  {
    match e.event
    case Exchange(c, id, drawn) =>
      if c in s.clients {
        LockStepExchange(server, s, e.now, c, id, drawn);
      }
    case LoseReply(c, id, drawn) =>
      if c in s.clients {
        LockStepExchange(server, s, e.now, c, id, drawn);
      }
    case SetCredentials(c, user, pass) => LockStepWithout(s, c, Client(Some((user, pass)), None));
    case Logout(c) => LockStepWithout(s, c, Client(None, None));
    case Expire(c) =>
      if c in s.clients {
        LockStepWithout(s, c, s.clients[c].(token := None));
      }
    case Serve(op) => LockStepServe(server.config, s, Timed(e.now, op));
  }

  // Main results

  /**
   Conflicts, exactly: over every run of completed and of lost exchanges, a
   client that resumes is told of a conflict iff it holds a token whose
   successful resumption it never learned of, that session is still live, and
   no cleanup came at or past the retention age since.
   */
  lemma {:induction false} ConflictExactly<U, D>(server: Server<U, D>, s: System<U, D>, es: seq<TimedEvent<U, D>>)
    requires LockStep(s) && ProperRun(server, s, es)
    ensures LockStep(After(server, s, es))
    ensures var s' := After(server, s, es);
            forall c, drawn, now | c in s'.clients && s'.clients[c].token.Some? ::
              var t := s'.clients[c].token.value;
              Resumed(server.config, s'.world.store, t, drawn, now).1 == Err(Conflict) <==>
              t in s'.lost && s'.lost[t].used.id in s'.world.store.byId && s'.lost[t].kept
  {
    if es != [] {
      ConflictExactly(server, s, DropLast(es));
      LockStepNext(server, After(server, s, DropLast(es)), Last(es));
    }
    var s' := After(server, s, es);
    forall c | c in s'.clients && s'.clients[c].token.Some?
      ensures var t := s'.clients[c].token.value;
              t in s'.world.store.used <==>
              t in s'.lost && s'.lost[t].used.id in s'.world.store.byId && s'.lost[t].kept
    {
      assert Accounted(s', s'.clients[c].token.value);
      assert s'.clients[c].token.value in s'.lost ==>
        Spent(s'.world, s'.clients[c].token.value, s'.lost[s'.clients[c].token.value]);
    }
  }

  lemma {:induction false} NothingLost<U, D>(server: Server<U, D>, s: System<U, D>, es: seq<TimedEvent<U, D>>)
    requires s.lost == map[] && forall i | 0 <= i < |es| :: !es[i].event.LoseReply?
    ensures After(server, s, es).lost == map[]
  {
    if es != [] {
      assert !es[|es| - 1].event.LoseReply?;
      NothingLost(server, s, DropLast(es));
    }
  }

  /**
   Lock-step: over every run of completed exchanges each held token is the
   current token of a live session or belongs to a removed one, and no client
   that resumes is ever told of a conflict.
   */
  lemma NoConflict<U, D>(server: Server<U, D>, s: System<U, D>, es: seq<TimedEvent<U, D>>)
    requires LockStep(s) && ProperRun(server, s, es)
    requires s.lost == map[] && forall i | 0 <= i < |es| :: !es[i].event.LoseReply?
    ensures var s' := After(server, s, es);
            LockStep(s') &&
            forall c, drawn, now | c in s'.clients && s'.clients[c].token.Some? ::
              Current(s'.world, s'.origin, s'.clients[c].token.value) &&
              Resumed(server.config, s'.world.store, s'.clients[c].token.value, drawn, now).1 != Err(Conflict)
  {
    ConflictExactly(server, s, es);
    NothingLost(server, s, es);
    var s' := After(server, s, es);
    forall c | c in s'.clients && s'.clients[c].token.Some?
      ensures Current(s'.world, s'.origin, s'.clients[c].token.value)
    {
      assert Accounted(s', s'.clients[c].token.value);
    }
  }

  /**
   An exchange that is not completed does break it: if the reply to a
   successful resumption is lost or garbled, the client keeps the used token,
   and presenting it again is a conflict that ends all sessions of the user.
   */
  lemma LostReplyConflicts<U, D>(
      cfg: Config, w: World<U, D>, client: Client, t: Token, drawn: Token, now: nat, drawn': Token, now': nat)
    requires Valid(w) && drawn !in w.tokens && client.token == Some(t)
    requires Resumed(cfg, w.store, t, drawn, now).1.Ok?
    ensures var client' := Processed(client, InvalidResponse).0;
            var w' := Step(cfg, w, Timed(now, Resume(t, drawn)));
            var (m, answer) := Resumed(cfg, w'.store, t, drawn', now');
            var user := w.store.byToken[t].user;
            ActionOf(client') == Some(ResumeWith(t)) && answer == Err(Conflict) &&
            forall id | id in m.byId :: m.byId[id].user != user
  {
    var w' := Step(cfg, w, Timed(now, Resume(t, drawn)));
    StepValid(cfg, w, Timed(now, Resume(t, drawn)));
    ConflictRemovesUser(cfg, w'.store, t, drawn', now');
  }

  // What a client does and is told

  /** A client resumes iff it holds a token, and otherwise logs in iff it has credentials, as they are. */
  lemma ActionExactly(c: Client, t: Token, user: string, pass: string)
    ensures ActionOf(c) == Some(ResumeWith(t)) <==> c.token == Some(t)
    ensures ActionOf(c) == Some(LogIn(user, pass)) <==> c.token == None && c.credentials == Some((user, pass))
    ensures ActionOf(c) == None <==> c.token == None && c.credentials == None
  {
  }

  /**
   After any reply to an action: accepted iff the reply is a success; rejected
   iff the client has nothing left to try, or is told of an expired session
   although it presented none; credentials go only if they were refused.
   */
  lemma ReplyEffects(c: Client, reply: Reply)
    requires ActionOf(c).Some?
    ensures var (c', outcome, event) := Processed(c, reply);
            (outcome == Accepted <==> reply.Success?) &&
            (outcome == Rejected <==> ActionOf(c') == None || (reply == SessionExpired && c.token == None)) &&
            (event == Some(SessionResumed) <==> outcome == Accepted && c.token.Some?) &&
            (event == Some(NewSessionCreated) <==> outcome == Accepted && c.token.None?) &&
            (event == Some(SessionRestoreFailed) <==>
             outcome != Accepted && (c.token.Some? || reply == SessionExpired)) &&
            c'.credentials == (if reply == Unauthorized then None else c.credentials) &&
            (c'.token.Some? ==> c'.token == if reply.Success? && reply.token.Some? then reply.token else c.token) &&
            (c'.token.None? <==> reply in {SessionExpired, Unauthorized} ||
                                 (c.token.None? && reply in {Success(None), InvalidResponse}))
  {
  }

  /** What the server replies to client `c` in a completed exchange. */
  function RepliedTo<U(==), D>(
      server: Server<U, D>, s: System<U, D>, now: nat, c: nat, drawn: Token): Option<Reply>
  {
    if c !in s.clients then None
    else
      match ActionOf(s.clients[c])
      case None => None
      case Some(ResumeWith(t)) => Some(ReplyTo(server, Resumed(server.config, s.world.store, t, drawn, now).1))
      case Some(LogIn(user, pass)) =>
        Some(if server.logIn(user, pass).Some? then Success(Some(drawn)) else Unauthorized)
  }

  /** The client processes that reply, and no other client changes. */
  lemma ExchangeProcesses<U, D>(
      server: Server<U, D>, s: System<U, D>, now: nat, c: nat, id: Uuid, drawn: Token)
    requires c in s.clients
    ensures var reply, s' := RepliedTo(server, s, now, c, drawn), Exchanged(server, s, now, c, id, drawn);
            s'.clients ==
            if reply.None? then s.clients else s.clients[c := Processed(s.clients[c], reply.value).0]
  {
  }

  function CredentialsOf<U, D>(s: System<U, D>, c: nat): Option<(string, string)> {
    if c in s.clients then s.clients[c].credentials else None
  }

  /** The credentials last set for client `c`, unless it logged out or they were refused since. */
  function LastSet<U(==), D>(
      server: Server<U, D>, s: System<U, D>, es: seq<TimedEvent<U, D>>, c: nat): Option<(string, string)>
  {
    if es == [] then CredentialsOf(s, c)
    else
      var before, e := LastSet(server, s, DropLast(es), c), Last(es);
      match e.event
      case SetCredentials(d, user, pass) => if d == c then Some((user, pass)) else before
      case Logout(d) => if d == c then None else before
      case Exchange(d, _, drawn) =>
        if d == c && RepliedTo(server, After(server, s, DropLast(es)), e.now, c, drawn) == Some(Unauthorized) then None
        else before
      case _ => before
  }

  /** Over every run a client has the credentials last set; so without a token it logs in with just those. */
  lemma {:induction false} CredentialsKept<U, D>(
      server: Server<U, D>, s: System<U, D>, es: seq<TimedEvent<U, D>>, c: nat)
    ensures var s' := After(server, s, es);
            CredentialsOf(s', c) == LastSet(server, s, es, c) &&
            (c in s'.clients && s'.clients[c].token == None ==>
               ActionOf(s'.clients[c]) ==
               match LastSet(server, s, es, c)
               case Some((user, pass)) => Some(LogIn(user, pass))
               case None => None)
  {
    if es != [] {
      CredentialsKept(server, s, DropLast(es), c);
      CredentialsStep(server, After(server, s, DropLast(es)), Last(es), c);
    }
  }

  lemma CredentialsStep<U, D>(server: Server<U, D>, s: System<U, D>, e: TimedEvent<U, D>, c: nat)
    ensures CredentialsOf(Next(server, s, e), c) ==
            match e.event
            case SetCredentials(d, user, pass) => if d == c then Some((user, pass)) else CredentialsOf(s, c)
            case Logout(d) => if d == c then None else CredentialsOf(s, c)
            case Exchange(d, _, drawn) =>
              if d == c && RepliedTo(server, s, e.now, c, drawn) == Some(Unauthorized) then None
              else CredentialsOf(s, c)
            case _ => CredentialsOf(s, c)
  {
    match e.event
    case Exchange(d, id, drawn) =>
      if d in s.clients {
        ExchangeProcesses(server, s, e.now, d, id, drawn);
      }
    case LoseReply(d, id, drawn) =>
      if d in s.clients {
        LostKeepsClients(server, s, e.now, d, id, drawn);
      }
    case _ =>
  }

  lemma LostKeepsClients<U, D>(
      server: Server<U, D>, s: System<U, D>, now: nat, c: nat, id: Uuid, drawn: Token)
    requires c in s.clients
    ensures LostExchange(server, s, now, c, id, drawn).clients == s.clients
  {
    assert s.clients[c := s.clients[c]] == s.clients;
  }

  /**
   A completed exchange rejects a client iff it has nothing left to try.  One
   whose resumption was reported expired keeps its credentials and logs in
   with them next.
   */
  lemma RejectedExactly<U, D>(
      server: Server<U, D>, s: System<U, D>, now: nat, c: nat, id: Uuid, drawn: Token)
    requires RepliedTo(server, s, now, c, drawn).Some?
    ensures var reply := RepliedTo(server, s, now, c, drawn).value;
            var c', outcome := Exchanged(server, s, now, c, id, drawn).clients[c], Processed(s.clients[c], reply).1;
            (outcome == Rejected <==> ActionOf(c') == None) &&
            (reply == SessionExpired && s.clients[c].credentials.Some? ==>
               outcome == Failed &&
               ActionOf(c') == Some(LogIn(s.clients[c].credentials.value.0, s.clients[c].credentials.value.1)))
    ensures forall t | s.clients[c].token == Some(t) ::
              var answer := Resumed(server.config, s.world.store, t, drawn, now).1;
              RepliedTo(server, s, now, c, drawn).value ==
              if answer.Ok? then Success(Some(answer.session.token))
              else if server.reportsExpired(answer.error) then SessionExpired
              else Unauthorized
  {
    ExchangeProcesses(server, s, now, c, id, drawn);
    ReplyEffects(s.clients[c], RepliedTo(server, s, now, c, drawn).value);
  }

  /**
   The session events tell the truth: after a completed exchange `SessionResumed`
   means that a token was presented and accepted, and that the client holds the
   new token of its own, unchanged session; `NewSessionCreated` that it logged
   in and holds that of a session that did not exist before; and
   `SessionRestoreFailed` that it presented a token and holds none.
   */
  lemma EventsTellTruth<U, D>(
      server: Server<U, D>, s: System<U, D>, now: nat, c: nat, id: Uuid, drawn: Token)
    requires LockStep(s) && Proper(s, At(now, Exchange(c, id, drawn)))
    requires RepliedTo(server, s, now, c, drawn).Some?
    ensures var s' := Exchanged(server, s, now, c, id, drawn);
            var (client, outcome, event) := Processed(s.clients[c], RepliedTo(server, s, now, c, drawn).value);
            s'.clients[c] == client && (outcome == Accepted <==> client.token == Some(drawn)) &&
            (event == Some(SessionResumed) <==> outcome == Accepted && s.clients[c].token.Some?) &&
            (event == Some(NewSessionCreated) <==> outcome == Accepted && s.clients[c].token.None?) &&
            (event == Some(SessionResumed) ==>
               var t := s.clients[c].token;
               t.value in s.world.store.byToken && drawn in s'.world.store.byToken &&
               s'.world.store.byToken[drawn] == s.world.store.byToken[t.value].(token := drawn, lastSeen := now)) &&
            (event == Some(NewSessionCreated) ==>
               id !in s.world.store.byId && drawn in s'.world.store.byToken &&
               s'.world.store.byToken[drawn].id == id) &&
            (outcome != Accepted ==> client.token == None) &&
            (event == Some(SessionRestoreFailed) <==> s.clients[c].token.Some? && outcome != Accepted)
  {
    var client := s.clients[c];
    ExchangeProcesses(server, s, now, c, id, drawn);
    if client.token.Some? {
      assert Accounted(s, client.token.value);
    }
  }
}
