/** Many subscriptions, each with its server states and its client, over one queue of envelopes. */
module SharedConvergence {
  import opened Prelude
  import opened Uuids
  import opened Schemas
  import opened Patches
  import opened Queues
  import opened Envelopes
  import opened Convergence

  datatype SharedWorld = SharedWorld(
    servers: map<Option<Uuid>, States>,
    clients: map<Option<Uuid>, States>,
    queue: Queue<EventEnvelope<EntityPatch>>)

  datatype SharedEvent = ChangeFor(sub: Option<Uuid>, entity: EntityId, next: Value) | DeliverNext

  /** What subscription `sub` sends for a change: nothing if the diff is empty. */
  function EnqueueFor(
      setup: Setup, q: Queue<EventEnvelope<EntityPatch>>, sub: Option<Uuid>, entity: EntityId, p: Patch)
    : Queue<EventEnvelope<EntityPatch>>
  {
    if IsSome(p) then PushTo(Enveloped(Rules(setup)), q, EventEnvelope(sub, EntityPatch(entity, p)), ZERO) else q
  }

  function AdvanceShared(setup: Setup, w: SharedWorld, e: SharedEvent): SharedWorld {
    match e
    case ChangeFor(sub, entity, next) =>
      if sub !in w.servers || entity !in w.servers[sub] then w
      else
        var p := Diff(TypeOf(setup, entity), w.servers[sub][entity], next);
        SharedWorld(w.servers[sub := w.servers[sub][entity := next]], w.clients,
                    EnqueueFor(setup, w.queue, sub, entity, p))
    case DeliverNext =>
      var (m, q) := PopFrom(w.queue);
      if m.None? || m.value.subscription !in w.clients then w.(queue := q)
      else
        var sub := m.value.subscription;
        SharedWorld(w.servers, w.clients[sub := Receive(setup, w.clients[sub], m.value.event)], q)
  }

  function SharedHistory(setup: Setup, w: SharedWorld, es: seq<SharedEvent>): SharedWorld {
    if es == [] then w else AdvanceShared(setup, SharedHistory(setup, w, DropLast(es)), Last(es))
  }

  /** The part of a history that concerns `sub`: its changes, and the deliveries of its events. */
  function Seen(setup: Setup, w: SharedWorld, es: seq<SharedEvent>, sub: Option<Uuid>): seq<WorldEvent> {
    if es == [] then []
    else
      Seen(setup, w, DropLast(es), sub) + SeenEvent(SharedHistory(setup, w, DropLast(es)).queue, Last(es), sub)
  }

  function SeenEvent(q: Queue<EventEnvelope<EntityPatch>>, e: SharedEvent, sub: Option<Uuid>): seq<WorldEvent> {
    match e
    case ChangeFor(other, entity, next) => if other == sub then [Change(entity, next)] else []
    case DeliverNext => if PopFrom(q).0.Some? && PopFrom(q).0.value.subscription == sub then [Deliver] else []
  }

  /** The text of a key determines the key, as it does for custom keys. */
  ghost predicate Named(setup: Setup, decode: string -> ConflationKey) {
    Distinct(setup.keyName) && forall e :: Decodable(decode, setup.keyName(e))
  }

  /** Seen from `sub`, the shared world is the world of one client with its own queue. */
  ghost predicate Follows(decode: string -> ConflationKey, sub: Option<Uuid>, w: SharedWorld, v: World) {
    sub in w.servers && w.servers[sub] == v.server && sub in w.clients && w.clients[sub] == v.client &&
    Simulates(decode, sub, w.queue, v.queue) && NamesSubscription(w.queue)
  }

  lemma FollowsChange(
      setup: Setup, decode: string -> ConflationKey, sub: Option<Uuid>, w: SharedWorld, v: World, e: SharedEvent)
    requires Named(setup, decode) && Follows(decode, sub, w, v) && e.ChangeFor?
    ensures Follows(decode, sub, AdvanceShared(setup, w, e),
                    if e.sub == sub then Advance(setup, v, Change(e.entity, e.next)) else v)
  {
    var entity := e.entity;
    if e.sub in w.servers && entity in w.servers[e.sub] {
      var p := Diff(TypeOf(setup, entity), w.servers[e.sub][entity], e.next);
      if IsSome(p) {
        assert Decodable(decode, setup.keyName(entity));
        SimulatedPush(Rules(setup), decode, sub, w.queue, v.queue, EventEnvelope(e.sub, EntityPatch(entity, p)), ZERO);
      }
    }
  }

  lemma DeliverMine(setup: Setup, decode: string -> ConflationKey, sub: Option<Uuid>, w: SharedWorld, v: World)
    requires Follows(decode, sub, w, v) && w.queue.order != []
    requires PopFrom(w.queue).0.Some? && PopFrom(w.queue).0.value.subscription == sub
    ensures Follows(decode, sub, AdvanceShared(setup, w, DeliverNext), Advance(setup, v, Deliver))
  {
    var m, q, own := PopFrom(w.queue).0.value, PopFrom(w.queue).1, PopFrom(v.queue).1;
    PopOne(decode, sub, w.queue, v.queue);
    PopNames(w.queue);
    assert Advance(setup, v, Deliver) == World(v.server, Receive(setup, v.client, m.event), own);
    assert AdvanceShared(setup, w, DeliverNext) ==
           SharedWorld(w.servers, w.clients[sub := Receive(setup, w.clients[sub], m.event)], q);
  }

  lemma DeliverOther(setup: Setup, decode: string -> ConflationKey, sub: Option<Uuid>, w: SharedWorld, v: World)
    requires Follows(decode, sub, w, v) && w.queue.order != []
    requires PopFrom(w.queue).0.Some? && PopFrom(w.queue).0.value.subscription != sub
    ensures Follows(decode, sub, AdvanceShared(setup, w, DeliverNext), v)
  {
    var m, q := PopFrom(w.queue).0.value, PopFrom(w.queue).1;
    PopOne(decode, sub, w.queue, v.queue);
    PopNames(w.queue);
    assert AdvanceShared(setup, w, DeliverNext) ==
           if m.subscription !in w.clients then w.(queue := q)
           else
             SharedWorld(w.servers, w.clients[m.subscription := Receive(setup, w.clients[m.subscription], m.event)], q);
  }

  lemma FollowsDelivery(
      setup: Setup, decode: string -> ConflationKey, sub: Option<Uuid>, w: SharedWorld, v: World)
    requires Follows(decode, sub, w, v)
    ensures Follows(decode, sub, AdvanceShared(setup, w, DeliverNext),
                    if SeenEvent(w.queue, DeliverNext, sub) == [] then v else Advance(setup, v, Deliver))
  {
    if w.queue.order == [] {
      assert PopFrom(w.queue) == (None, w.queue);
      assert AdvanceShared(setup, w, DeliverNext) == w;
    } else {
      HeadAndTail(w.queue);
      if PopFrom(w.queue).0.value.subscription == sub {
        DeliverMine(setup, decode, sub, w, v);
      } else {
        DeliverOther(setup, decode, sub, w, v);
      }
    }
  }

  lemma PopNames(q: Queue<EventEnvelope<EntityPatch>>)
    requires Valid(q) && NamesSubscription(q) && q.order != []
    ensures NamesSubscription(PopFrom(q).1)
  {
    PopParts(q);
  }

  lemma {:induction false} FollowsHistory(
      setup: Setup, decode: string -> ConflationKey, sub: Option<Uuid>, w: SharedWorld, es: seq<SharedEvent>)
    requires Named(setup, decode) && sub in w.servers && sub in w.clients && w.queue == Queue([], map[])
    ensures Follows(decode, sub, SharedHistory(setup, w, es),
                    History(setup, World(w.servers[sub], w.clients[sub], Queue([], map[])), Seen(setup, w, es, sub)))
  {
    if es != [] {
      FollowsHistory(setup, decode, sub, w, DropLast(es));
      var w', seen := SharedHistory(setup, w, DropLast(es)), Seen(setup, w, DropLast(es), sub);
      var v := History(setup, World(w.servers[sub], w.clients[sub], Queue([], map[])), seen);
      var more := SeenEvent(w'.queue, Last(es), sub);
      if more == [] {
        assert seen + more == seen;
      } else {
        assert DropLast(seen + more) == seen;
      }
      if Last(es).DeliverNext? {
        FollowsDelivery(setup, decode, sub, w', v);
      } else {
        FollowsChange(setup, decode, sub, w', v, Last(es));
      }
    }
  }

  /**
   Every subscription converges: over any history of changes for all of them
   and deliveries from the shared queue, whenever none of its events waits its
   client mirrors its server states.
   */
  lemma {:induction false} AllConverge(
      setup: Setup, decode: string -> ConflationKey, w: SharedWorld, es: seq<SharedEvent>, sub: Option<Uuid>)
    requires Named(setup, decode) && w.queue == Queue([], map[])
    requires sub in w.servers && sub in w.clients && Mirrors(setup, w.clients[sub], w.servers[sub])
    requires KeyStable(setup, World(w.servers[sub], w.clients[sub], Queue([], map[])), Seen(setup, w, es, sub))
    ensures var w' := SharedHistory(setup, w, es);
            sub in w'.clients && sub in w'.servers && Valid(w'.queue) &&
            (EventsOf(sub, Queued(w'.queue)) == [] ==> Mirrors(setup, w'.clients[sub], w'.servers[sub]))
  {
    var start := World(w.servers[sub], w.clients[sub], Queue([], map[]));
    var w', v := SharedHistory(setup, w, es), History(setup, start, Seen(setup, w, es, sub));
    FollowsHistory(setup, decode, sub, w, es);
    Converges(setup, start, Seen(setup, w, es, sub));
    SimulatedQueue(decode, sub, w'.queue, v.queue);
    if EventsOf(sub, Queued(w'.queue)) == [] {
      SizesAgree(v.queue);
      assert v.queue.messages == map[];
    }
  }

  /** Custom keys with distinct names will do: their text is the name. */
  lemma {:induction false} CustomKeysConverge(
      setup: Setup, name: EntityId -> string, w: SharedWorld, es: seq<SharedEvent>, sub: Option<Uuid>)
    requires forall e :: setup.keyName(e) == Custom(name(e))
    requires forall a, b | a != b :: name(a) != name(b)
    requires w.queue == Queue([], map[])
    requires sub in w.servers && sub in w.clients && Mirrors(setup, w.clients[sub], w.servers[sub])
    requires KeyStable(setup, World(w.servers[sub], w.clients[sub], Queue([], map[])), Seen(setup, w, es, sub))
    ensures var w' := SharedHistory(setup, w, es);
            sub in w'.clients && sub in w'.servers && Valid(w'.queue) &&
            (EventsOf(sub, Queued(w'.queue)) == [] ==> Mirrors(setup, w'.clients[sub], w'.servers[sub]))
  {
    forall a, b | a != b ensures setup.keyName(a) != setup.keyName(b) {
    }
    AllConverge(setup, s => Custom(s), w, es, sub);
  }

  // Entity keys, whose text is the kind only, will not do

  /** A subscription to two entities of one kind, with their values. */
  function TwoOfAKind(kind: string, u: Uuid, v: Uuid, x: Value, y: Value): States {
    map[EntityId(kind, u) := x, EntityId(kind, v) := y]
  }

  /**
   Two entities of one kind change and the one message that waits is delivered:
   the second entity never hears of its change, the first one gets it instead.
   */
  lemma EntityKeysDiverge(
      sub: Option<Uuid>, kind: string, u: Uuid, v: Uuid, k: Value, x: Value, x': Value, l: Value, y: Value, y': Value)
    requires u != v && x != x' && y != y'
    ensures var setup := Setup(map[kind := RecordType([Key, Mutable(LeafType)])], ByEntity());
            var start := TwoOfAKind(kind, u, v, Record([k, x]), Record([l, y]));
            var w := SharedWorld(map[sub := start], map[sub := start], Queue([], map[]));
            var es := [ChangeFor(sub, EntityId(kind, u), Record([k, x'])),
                       ChangeFor(sub, EntityId(kind, v), Record([l, y'])), DeliverNext];
            var w' := SharedHistory(setup, w, es);
            w'.queue == Queue([], map[]) && sub in w'.servers && sub in w'.clients &&
            w'.servers[sub] == TwoOfAKind(kind, u, v, Record([k, x']), Record([l, y'])) &&
            w'.clients[sub] == TwoOfAKind(kind, u, v, Record([l, y']), Record([l, y])) &&
            !Mirrors(setup, w'.clients[sub], w'.servers[sub])
  {
    var setup := Setup(map[kind := RecordType([Key, Mutable(LeafType)])], ByEntity());
    var start := TwoOfAKind(kind, u, v, Record([k, x]), Record([l, y]));
    var w := SharedWorld(map[sub := start], map[sub := start], Queue([], map[]));
    var c, d := ChangeFor(sub, EntityId(kind, u), Record([k, x'])), ChangeFor(sub, EntityId(kind, v), Record([l, y']));
    FirstWaits(setup, sub, kind, u, v, k, x, x', l, y);
    SecondMerges(setup, sub, kind, u, v, k, x, x', l, y, y');
    Misdelivered(setup, sub, kind, u, v, k, x, x', l, y, y');
    ThreeEvents(setup, w, c, d, DeliverNext);
    NotMirrored(setup, kind, u, v, Record([l, y']), Record([k, x']), l, y, y');
  }

  lemma ThreeEvents(setup: Setup, w: SharedWorld, c: SharedEvent, d: SharedEvent, e: SharedEvent)
    ensures SharedHistory(setup, w, [c, d, e]) ==
            AdvanceShared(setup, AdvanceShared(setup, AdvanceShared(setup, w, c), d), e)
  {
    assert DropLast([c, d, e]) == [c, d] && DropLast([c, d]) == [c] && DropLast([c]) == [];
    assert SharedHistory(setup, w, [c]) == AdvanceShared(setup, w, c);
    assert SharedHistory(setup, w, [c, d]) == AdvanceShared(setup, AdvanceShared(setup, w, c), d);
  }

  lemma NotMirrored(
      setup: Setup, kind: string, u: Uuid, v: Uuid, a: Value, b: Value, l: Value, y: Value, y': Value)
    requires setup.types == map[kind := RecordType([Key, Mutable(LeafType)])] && u != v && y != y'
    ensures !Mirrors(setup, TwoOfAKind(kind, u, v, a, Record([l, y])), TwoOfAKind(kind, u, v, b, Record([l, y'])))
  {
    var ty, e := RecordType([Key, Mutable(LeafType)]), EntityId(kind, v);
    assert !SameField(ty.fields[1], Sub(Record([l, y]), 1), Sub(Record([l, y']), 1));
    assert !Equivalent(TypeOf(setup, e), Record([l, y]), Record([l, y']));
    assert e in TwoOfAKind(kind, u, v, b, Record([l, y']));
  }

  /** The patch that sets key and value of the small record. */
  function SetBoth(k: Value, x: Value): Patch {
    Fields([KeyIs(k), Replace(x)])
  }

  /** The world with the given server values, client values, and message waiting for the first entity. */
  function Waiting(
      sub: Option<Uuid>, kind: string, u: Uuid, servers: States, clients: States, p: Patch): SharedWorld
  {
    var key := Custom(KeyText(sub, kind));
    SharedWorld(map[sub := servers], map[sub := clients],
                Queue([key], map[key := EventEnvelope(sub, EntityPatch(EntityId(kind, u), p))]))
  }

  lemma FirstWaits(
      setup: Setup, sub: Option<Uuid>, kind: string, u: Uuid, v: Uuid, k: Value, x: Value, x': Value, l: Value, y: Value)
    requires setup == Setup(map[kind := RecordType([Key, Mutable(LeafType)])], ByEntity()) && u != v && x != x'
    ensures var start := TwoOfAKind(kind, u, v, Record([k, x]), Record([l, y]));
            AdvanceShared(setup, SharedWorld(map[sub := start], map[sub := start], Queue([], map[])),
                          ChangeFor(sub, EntityId(kind, u), Record([k, x']))) ==
            Waiting(sub, kind, u, TwoOfAKind(kind, u, v, Record([k, x']), Record([l, y])), start, SetBoth(k, x'))
  {
    var start := TwoOfAKind(kind, u, v, Record([k, x]), Record([l, y]));
    var e, next := EntityId(kind, u), Record([k, x']);
    SmallDiff(k, x, x');
    SetValue(sub, start, e, next, TwoOfAKind(kind, u, v, next, Record([l, y])));
    PushFirst(setup, sub, e, SetBoth(k, x'));
  }

  lemma SetValue(sub: Option<Uuid>, s: States, e: EntityId, next: Value, s': States)
    requires s[e := next] == s'
    ensures map[sub := s][sub := s[e := next]] == map[sub := s']
  {
  }

  lemma PushFirst(setup: Setup, sub: Option<Uuid>, e: EntityId, p: Patch)
    requires setup.keyName == ByEntity()
    ensures var key, m := Custom(KeyText(sub, e.kind)), EventEnvelope(sub, EntityPatch(e, p));
            PushTo(Enveloped(Rules(setup)), Queue([], map[]), m, ZERO) == Queue([key], map[key := m])
  {
  }

  lemma PushSecond(setup: Setup, sub: Option<Uuid>, e: EntityId, p: Patch, f: EntityId, r: Patch)
    requires setup.keyName == ByEntity() && e.kind == f.kind
    ensures var key := Custom(KeyText(sub, e.kind));
            PushTo(Enveloped(Rules(setup)), Queue([key], map[key := EventEnvelope(sub, EntityPatch(e, p))]),
                   EventEnvelope(sub, EntityPatch(f, r)), ZERO) ==
            Queue([key], map[key := EventEnvelope(sub, EntityPatch(e, Merge(TypeOf(setup, e), p, r)))])
  {
    var key := Custom(KeyText(sub, e.kind));
    var m := EventEnvelope(sub, EntityPatch(e, Merge(TypeOf(setup, e), p, r)));
    assert map[key := EventEnvelope(sub, EntityPatch(e, p))][key := m] == map[key := m];
  }

  lemma SecondMerges(
      setup: Setup, sub: Option<Uuid>, kind: string, u: Uuid, v: Uuid,
      k: Value, x: Value, x': Value, l: Value, y: Value, y': Value)
    requires setup == Setup(map[kind := RecordType([Key, Mutable(LeafType)])], ByEntity()) && u != v && y != y'
    ensures var clients := TwoOfAKind(kind, u, v, Record([k, x]), Record([l, y]));
            var before := TwoOfAKind(kind, u, v, Record([k, x']), Record([l, y]));
            AdvanceShared(setup, Waiting(sub, kind, u, before, clients, SetBoth(k, x')),
                          ChangeFor(sub, EntityId(kind, v), Record([l, y']))) ==
            Waiting(sub, kind, u, TwoOfAKind(kind, u, v, Record([k, x']), Record([l, y'])), clients, SetBoth(l, y'))
  {
    var fs := [Key, Mutable(LeafType)];
    SmallDiff(l, y, y');
    assert MergeFields(fs, SetBoth(k, x'), SetBoth(l, y')) == [KeyIs(l), Replace(y')];
    assert Merge(RecordType(fs), SetBoth(k, x'), SetBoth(l, y')) == SetBoth(l, y');
    var before := TwoOfAKind(kind, u, v, Record([k, x']), Record([l, y]));
    SetValue(sub, before, EntityId(kind, v), Record([l, y']), TwoOfAKind(kind, u, v, Record([k, x']), Record([l, y'])));
    PushSecond(setup, sub, EntityId(kind, u), SetBoth(k, x'), EntityId(kind, v), SetBoth(l, y'));
  }

  lemma Misdelivered(
      setup: Setup, sub: Option<Uuid>, kind: string, u: Uuid, v: Uuid,
      k: Value, x: Value, x': Value, l: Value, y: Value, y': Value)
    requires setup == Setup(map[kind := RecordType([Key, Mutable(LeafType)])], ByEntity()) && u != v
    ensures var servers := TwoOfAKind(kind, u, v, Record([k, x']), Record([l, y']));
            var clients := TwoOfAKind(kind, u, v, Record([k, x]), Record([l, y]));
            AdvanceShared(setup, Waiting(sub, kind, u, servers, clients, SetBoth(l, y')), DeliverNext) ==
            SharedWorld(map[sub := servers],
                        map[sub := TwoOfAKind(kind, u, v, Record([l, y']), Record([l, y]))], Queue([], map[]))
  {
    var key := Custom(KeyText(sub, kind));
    var m := EventEnvelope(sub, EntityPatch(EntityId(kind, u), SetBoth(l, y')));
    PopSingle(key, m);
    AppliedBoth(k, x, l, y');
    var clients := TwoOfAKind(kind, u, v, Record([k, x]), Record([l, y]));
    SetValue(sub, clients, EntityId(kind, u), Record([l, y']), TwoOfAKind(kind, u, v, Record([l, y']), Record([l, y])));
  }

  lemma AppliedBoth(k: Value, x: Value, l: Value, y: Value)
    ensures Apply(RecordType([Key, Mutable(LeafType)]), Record([k, x]), SetBoth(l, y)) == Record([l, y])
  {
    assert ApplyFields([Key, Mutable(LeafType)], Record([k, x]), SetBoth(l, y)) == [l, y];
  }
}
