/**
 The whole pipeline: server states are diffed, the patches conflate in the
 queue, and a client applies what it pops.
 */
module Convergence {
  import opened Prelude
  import opened Uuids
  import opened Schemas
  import opened Patches
  import opened KeyedLists
  import opened Commuting
  import opened Sync
  import opened Queues
  import MergeLaws
  import NoDrift

  datatype EntityId = EntityId(kind: string, id: Uuid)

  datatype EntityPatch = EntityPatch(entity: EntityId, patch: Patch)

  type States = map<EntityId, Value>

  /** The type of each kind of entity, and the conflation key of each entity. */
  datatype Setup = Setup(types: map<string, Schema>, keyName: EntityId -> ConflationKey)

  function ByEntity(): EntityId -> ConflationKey {
    (e: EntityId) => Entity(e.kind, e.id)
  }

  ghost predicate Distinct(keyName: EntityId -> ConflationKey) {
    forall a, b | a != b :: keyName(a) != keyName(b)
  }

  function TypeOf(setup: Setup, e: EntityId): Schema {
    if e.kind in setup.types then setup.types[e.kind] else LeafType
  }

  /** Patches of one entity share a key and merge by `merge_patch`. */
  function Rules(setup: Setup): Conflation<EntityPatch> {
    Conflation(
      (m: EntityPatch) => Some(setup.keyName(m.entity)),
      (a: EntityPatch, b: EntityPatch) =>
        Some(EntityPatch(a.entity, Merge(TypeOf(setup, a.entity), a.patch, b.patch))))
  }

  /** A client applies a patch to the entity it names. */
  function Receive(setup: Setup, s: States, m: EntityPatch): States {
    if m.entity in s then s[m.entity := Apply(TypeOf(setup, m.entity), s[m.entity], m.patch)] else s
  }

  function Client(setup: Setup): (States, EntityPatch) -> States {
    (s, m) => Receive(setup, s, m)
  }

  lemma PatchesAreLawful(setup: Setup)
    requires Distinct(setup.keyName)
    ensures Lawful(Rules(setup), Client(setup))
  {
    var rules, client := Rules(setup), Client(setup);
    forall a, b | SameKey(rules, a, b) ensures Merges(rules, client, a, b) {
      assert a.entity == b.entity;
      var ty := TypeOf(setup, a.entity);
      forall s: States
        ensures client(s, EntityPatch(a.entity, Merge(ty, a.patch, b.patch))) == client(client(s, a), b)
      {
        if a.entity in s {
          MergeLaws.MergeIsComposition(ty, s[a.entity], a.patch, b.patch);
        }
      }
    }
    forall a, b | OtherKey(rules, a, b) ensures Commute(client, a, b) {
      assert a.entity != b.entity;
      forall s: States ensures client(client(s, a), b) == client(client(s, b), a) {
      }
    }
  }

  // Runs

  datatype World = World(server: States, client: States, queue: Queue<EntityPatch>)

  datatype WorldEvent = Change(entity: EntityId, next: Value) | Deliver

  const ZERO: Uuid := [0, 0, 0, 0, 0, 0, 0, 0, 0, 0, 0, 0, 0, 0, 0, 0]

  /** A diff of `None` is not sent. */
  function Enqueue(
      setup: Setup, q: Queue<EntityPatch>, entity: EntityId, p: Patch): Queue<EntityPatch>
  {
    if IsSome(p) then PushTo(Rules(setup), q, EntityPatch(entity, p), ZERO) else q
  }

  function Advance(setup: Setup, w: World, e: WorldEvent): World {
    match e
    case Change(entity, next) =>
      if entity !in w.server then w
      else
        World(w.server[entity := next], w.client,
              Enqueue(setup, w.queue, entity, Diff(TypeOf(setup, entity), w.server[entity], next)))
    case Deliver =>
      if PopFrom(w.queue).0.None? then World(w.server, w.client, PopFrom(w.queue).1)
      else World(w.server, Receive(setup, w.client, PopFrom(w.queue).0.value), PopFrom(w.queue).1)
  }

  function History(setup: Setup, w: World, es: seq<WorldEvent>): World {
    if es == [] then w else Advance(setup, History(setup, w, DropLast(es)), Last(es))
  }

  /** Every change leads to a well-formed state and keeps keys stable. */
  ghost predicate KeyStable(setup: Setup, w: World, es: seq<WorldEvent>) {
    es == [] ||
    (KeyStable(setup, w, DropLast(es)) &&
     StableChange(setup, History(setup, w, DropLast(es)).server, Last(es)))
  }

  ghost predicate StableChange(setup: Setup, server: States, e: WorldEvent) {
    e.Change? && e.entity in server ==>
      WellFormed(TypeOf(setup, e.entity), e.next) && Stable(TypeOf(setup, e.entity), server[e.entity], e.next)
  }

  ghost predicate Mirrors(setup: Setup, client: States, server: States) {
    client.Keys == server.Keys &&
    forall e | e in server :: Replica(TypeOf(setup, e), client[e], server[e])
  }

  /** What the client will be once it has applied everything that still waits. */
  ghost function Eventually(setup: Setup, w: World): States
    requires Valid(w.queue)
  {
    Fold(Client(setup), w.client, Queued(w.queue))
  }

  /** A queued patch arrives after everything that already waits. */
  lemma EnqueueAppends(setup: Setup, client: States, q: Queue<EntityPatch>, e: EntityId, p: Patch)
    requires Distinct(setup.keyName) && Labelled(Rules(setup), q) && IsSome(p)
    ensures var q' := Enqueue(setup, q, e, p);
            Labelled(Rules(setup), q') &&
            Fold(Client(setup), client, Queued(q')) ==
            Receive(setup, Fold(Client(setup), client, Queued(q)), EntityPatch(e, p))
  {
    var m := EntityPatch(e, p);
    PatchesAreLawful(setup);
    PushAppends(Rules(setup), Client(setup), client, q, m, ZERO);
  }

  /** Receiving the diff of one change keeps a client in step. */
  lemma ReceiveDiff(setup: Setup, s: States, server: States, e: EntityId, next: Value)
    requires Mirrors(setup, s, server) && e in server
    requires StableChange(setup, server, Change(e, next))
    ensures var p := Diff(TypeOf(setup, e), server[e], next);
            Mirrors(setup, Receive(setup, s, EntityPatch(e, p)), server[e := next]) &&
            (!IsSome(p) ==> Receive(setup, s, EntityPatch(e, p)) == s)
  {
    var ty, p := TypeOf(setup, e), Diff(TypeOf(setup, e), server[e], next);
    NoDrift.OneStep(ty, s[e], server[e], next);
    MirrorsUpdate(setup, s, server, e, Apply(ty, s[e], p), next);
    if !IsSome(p) {
      ApplyEmpty(ty, s[e], p);
      assert s[e := s[e]] == s;
    }
  }

  lemma MirrorsUpdate(setup: Setup, s: States, server: States, e: EntityId, x: Value, y: Value)
    requires Mirrors(setup, s, server) && Replica(TypeOf(setup, e), x, y)
    ensures Mirrors(setup, s[e := x], server[e := y])
  {
  }

  lemma ChangeKeepsPromise(setup: Setup, w: World, e: WorldEvent)
    requires Distinct(setup.keyName) && Labelled(Rules(setup), w.queue)
    requires Mirrors(setup, Eventually(setup, w), w.server)
    requires e.Change? && StableChange(setup, w.server, e)
    ensures var w' := Advance(setup, w, e);
            Labelled(Rules(setup), w'.queue) && Mirrors(setup, Eventually(setup, w'), w'.server)
  {
    if e.entity in w.server {
      var p := Diff(TypeOf(setup, e.entity), w.server[e.entity], e.next);
      ReceiveDiff(setup, Eventually(setup, w), w.server, e.entity, e.next);
      if IsSome(p) {
        EnqueueAppends(setup, w.client, w.queue, e.entity, p);
      }
    }
  }

  lemma DeliverKeepsPromise(setup: Setup, w: World)
    requires Labelled(Rules(setup), w.queue)
    ensures var w' := Advance(setup, w, Deliver);
            Labelled(Rules(setup), w'.queue) && Eventually(setup, w') == Eventually(setup, w)
  {
    PopTakesHead(w.queue);
    if w.queue.order != [] {
      var ms := Queued(w.queue);
      assert ms == [ms[0]] + ms[1..];
      FoldCons(Client(setup), w.client, ms[0], ms[1..]);
    }
  }

  /**
   Convergence: after any history of changes and deliveries, interleaved in any
   way, what the client has plus what still waits mirrors the server; with an
   empty queue the client itself does.
   */
  lemma {:induction false} Converges(setup: Setup, w: World, es: seq<WorldEvent>)
    requires Distinct(setup.keyName) && w.queue == Queue([], map[]) && Mirrors(setup, w.client, w.server)
    requires KeyStable(setup, w, es)
    ensures var w' := History(setup, w, es);
            Labelled(Rules(setup), w'.queue) && Mirrors(setup, Eventually(setup, w'), w'.server) &&
            (w'.queue.messages == map[] ==> Mirrors(setup, w'.client, w'.server))
  {
    if es != [] {
      Converges(setup, w, DropLast(es));
      var before := History(setup, w, DropLast(es));
      if Last(es).Change? {
        ChangeKeepsPromise(setup, before, Last(es));
      } else {
        DeliverKeepsPromise(setup, before);
      }
    }
    var w' := History(setup, w, es);
    if w'.queue.messages == map[] {
      SizesAgree(w'.queue);
      assert Queued(w'.queue) == [];
    }
  }

  // Putting a popped patch back

  /** Patches of other entities do not touch an entity. */
  lemma {:induction false} Untouched(setup: Setup, s: States, ms: seq<EntityPatch>, e: EntityId)
    requires forall m | m in ms :: m.entity != e
    ensures var s' := Fold(Client(setup), s, ms);
            (e in s' <==> e in s) && (e in s ==> s'[e] == s[e])
  {
    if ms != [] {
      assert ms == DropLast(ms) + [Last(ms)];
      Untouched(setup, s, DropLast(ms), e);
    }
  }

  /** The same entities, with equivalent values. */
  ghost predicate InStep(setup: Setup, a: States, b: States) {
    a.Keys == b.Keys && forall e | e in a :: Equivalent(TypeOf(setup, e), a[e], b[e])
  }

  /** Two patches of one entity, received in either order: for the states, and for what they mean. */
  lemma ReceiveCommutes(setup: Setup, t: States, a: EntityPatch, b: EntityPatch)
    requires a.entity == b.entity
    ensures var x, y := Receive(setup, Receive(setup, t, a), b), Receive(setup, Receive(setup, t, b), a);
            var e, ty := a.entity, TypeOf(setup, a.entity);
            (x == y <==> (e in t ==> Agree(ty, t[e], a.patch, b.patch))) &&
            (InStep(setup, x, y) <==> (e in t ==> Compatible(ty, t[e], a.patch, b.patch)))
  {
    var e, ty := a.entity, TypeOf(setup, a.entity);
    var x, y := Receive(setup, Receive(setup, t, a), b), Receive(setup, Receive(setup, t, b), a);
    if e in t {
      CommuteExactly(ty, t[e], a.patch, b.patch);
      EquivalentExactly(ty, t[e], a.patch, b.patch);
      assert x == t[e := x[e]] && y == t[e := y[e]];
      InStepBut(setup, t, e, x[e], y[e]);
    } else {
      InStepRefl(setup, t);
    }
  }

  lemma InStepRefl(setup: Setup, s: States)
    ensures InStep(setup, s, s)
  {
    forall e | e in s ensures Equivalent(TypeOf(setup, e), s[e], s[e]) {
      EquivalentRefl(TypeOf(setup, e), s[e]);
    }
  }

  lemma InStepBut(setup: Setup, t: States, e: EntityId, x: Value, y: Value)
    ensures InStep(setup, t[e := x], t[e := y]) <==> Equivalent(TypeOf(setup, e), x, y)
  {
    InStepRefl(setup, t);
    assert e in t[e := x] && t[e := x][e] == x && t[e := y][e] == y;
  }

  lemma PutBackQueued(setup: Setup, s: States, q: Queue<EntityPatch>, m: EntityPatch, i: nat)
    requires Distinct(setup.keyName) && Labelled(Rules(setup), q)
    requires i < |q.order| && q.order[i] == setup.keyName(m.entity)
    ensures Valid(PushTo(Rules(setup), q, m, ZERO))
    ensures var back := Fold(Client(setup), s, Queued(PushTo(Rules(setup), q, m, ZERO)));
            var timely := Fold(Client(setup), Receive(setup, s, m), Queued(q));
            var e, ty := m.entity, TypeOf(setup, m.entity);
            (back == timely <==> (e in s ==> Agree(ty, s[e], Queued(q)[i].patch, m.patch))) &&
            (InStep(setup, back, timely) <==> (e in s ==> Compatible(ty, s[e], Queued(q)[i].patch, m.patch)))
  {
    var rules, client, others, n := Rules(setup), Client(setup), Others(q, i), Queued(q)[i];
    PushValid(rules, q, m, ZERO);
    PatchesAreLawful(setup);
    assert q.order[i] in q.order;
    assert n.entity == m.entity;
    PutBackSwaps(rules, client, s, q, m, ZERO, i);
    OtherEntities(setup, q, m, i);
    Untouched(setup, s, others, m.entity);
    ReceiveCommutes(setup, Fold(client, s, others), n, m);
  }

  lemma OtherEntities(setup: Setup, q: Queue<EntityPatch>, m: EntityPatch, i: nat)
    requires Labelled(Rules(setup), q) && i < |q.order| && q.order[i] == setup.keyName(m.entity)
    ensures forall o | o in Others(q, i) :: o.entity != m.entity
  {
    OthersKeys(Rules(setup), q, m, i);
    forall o | o in Others(q, i) ensures o.entity != m.entity {
      assert OtherKey(Rules(setup), m, o);
    }
  }

  /**
   A client that puts a popped patch back instead of applying it ends with the
   same states exactly if no patch of that entity was queued meanwhile, or
   that patch and the one put back agree; it ends in step with them exactly if
   the two are compatible.
   */
  lemma PutBackExactly(setup: Setup, s: States, q: Queue<EntityPatch>, m: EntityPatch)
    requires Distinct(setup.keyName) && Labelled(Rules(setup), q)
    ensures var back := Fold(Client(setup), s, Queued(PushTo(Rules(setup), q, m, ZERO)));
            var timely := Fold(Client(setup), Receive(setup, s, m), Queued(q));
            var e, k, ty := m.entity, setup.keyName(m.entity), TypeOf(setup, m.entity);
            (back == timely <==>
             (k in q.messages && e in s ==> Agree(ty, s[e], q.messages[k].patch, m.patch))) &&
            (InStep(setup, back, timely) <==>
             (k in q.messages && e in s ==> Compatible(ty, s[e], q.messages[k].patch, m.patch)))
  {
    PatchesAreLawful(setup);
    var k := setup.keyName(m.entity);
    if k in q.messages {
      assert k in q.order;
      var i :| 0 <= i < |q.order| && q.order[i] == k;
      PutBackQueued(setup, s, q, m, i);
    } else {
      PutBackUnqueued(Rules(setup), Client(setup), s, q, m, ZERO);
      InStepRefl(setup, Fold(Client(setup), Receive(setup, s, m), Queued(q)));
    }
  }

  /** So it still gets in step with a server that the timely client would be in step with, in exactly those cases. */
  lemma PutBackReaches(setup: Setup, s: States, q: Queue<EntityPatch>, m: EntityPatch, server: States)
    requires Distinct(setup.keyName) && Labelled(Rules(setup), q)
    requires InStep(setup, Fold(Client(setup), Receive(setup, s, m), Queued(q)), server)
    ensures Valid(PushTo(Rules(setup), q, m, ZERO))
    ensures var e, k := m.entity, setup.keyName(m.entity);
            InStep(setup, Fold(Client(setup), s, Queued(PushTo(Rules(setup), q, m, ZERO))), server) <==>
            (k in q.messages && e in s ==> Compatible(TypeOf(setup, e), s[e], q.messages[k].patch, m.patch))
  {
    PushValid(Rules(setup), q, m, ZERO);
    PutBackExactly(setup, s, q, m);
    var back := Fold(Client(setup), s, Queued(PushTo(Rules(setup), q, m, ZERO)));
    SameInStep(setup, back, Fold(Client(setup), Receive(setup, s, m), Queued(q)), server);
  }

  lemma SameInStep(setup: Setup, a: States, b: States, c: States)
    requires InStep(setup, b, c)
    ensures InStep(setup, a, b) <==> InStep(setup, a, c)
  {
    if a.Keys == b.Keys {
      forall e | e in a
        ensures Equivalent(TypeOf(setup, e), a[e], b[e]) <==> Equivalent(TypeOf(setup, e), a[e], c[e])
      {
        SameEquivalent(TypeOf(setup, e), a[e], b[e], c[e]);
      }
    }
  }

  lemma {:induction false} SameEquivalent(sch: Schema, a: Value, b: Value, c: Value)
    requires Equivalent(sch, b, c)
    ensures Equivalent(sch, a, b) <==> Equivalent(sch, a, c)
  {
    if Equivalent(sch, a, b) {
      EquivalentTrans(sch, a, b, c);
    }
    if Equivalent(sch, a, c) {
      EquivalentSym(sch, b, c);
      EquivalentTrans(sch, a, c, b);
    }
  }

  /**
   A patch that is popped, put back after a newer one was queued, and popped
   again undoes the newer one: the client ends with the older value for good.
   */
  lemma PutBackLosesNewer(e: EntityId, k: Value, x: Value, y: Value, z: Value)
    requires x.Leaf? && y.Leaf? && z.Leaf? && x != y && y != z
    ensures var ty := RecordType([Key, Mutable(LeafType)]);
            var setup := Setup(map[e.kind := ty], ByEntity());
            var older := EntityPatch(e, Diff(ty, Record([k, x]), Record([k, y])));
            var newer := EntityPatch(e, Diff(ty, Record([k, y]), Record([k, z])));
            var start := Queue([], map[]);
            var (first, q) := PopFrom(PushTo(Rules(setup), start, older, ZERO));
            var q' := PushTo(Rules(setup), PushTo(Rules(setup), q, newer, ZERO), older, ZERO);
            var (last, q'') := PopFrom(q');
            first == Some(older) && last.Some? && q''.order == [] &&
            Receive(setup, map[e := Record([k, x])], last.value) == map[e := Record([k, y])] &&
            !Equivalent(ty, Record([k, y]), Record([k, z]))
  {
    var ty := RecordType([Key, Mutable(LeafType)]);
    var fs := ty.fields;
    var setup := Setup(map[e.kind := ty], ByEntity());
    var vx, vy, vz := Record([k, x]), Record([k, y]), Record([k, z]);
    SmallDiff(k, x, y);
    SmallDiff(k, y, z);
    var p, r := Fields([KeyIs(k), Replace(y)]), Fields([KeyIs(k), Replace(z)]);
    assert MergeFields(fs, r, p) == [KeyIs(k), Replace(y)];
    assert Merge(ty, r, p) == p;
    assert ApplyFields(fs, vx, p) == [k, y];
    assert Apply(ty, vx, p) == vy;
    var older, newer := EntityPatch(e, p), EntityPatch(e, r);
    var key, rules := Entity(e.kind, e.id), Rules(setup);
    var q0: Queue<EntityPatch> := Queue([], map[]);
    assert PushTo(rules, q0, older, ZERO) == Queue([key], map[key := older]);
    PopSingle(key, older);
    assert PushTo(rules, q0, newer, ZERO) == Queue([key], map[key := newer]);
    assert PushTo(rules, Queue([key], map[key := newer]), older, ZERO) == Queue([key], map[key := older]);
    assert !SameField(fs[1], Sub(vy, 1), Sub(vz, 1));
  }

  lemma SmallDiff(k: Value, x: Value, y: Value)
    requires x != y
    ensures Diff(RecordType([Key, Mutable(LeafType)]), Record([k, x]), Record([k, y])) ==
            Fields([KeyIs(k), Replace(y)])
  {
    var fs := [Key, Mutable(LeafType)];
    var ps := DiffFields(fs, Record([k, x]), Record([k, y]));
    assert ps[0] == DiffField(fs[0], k, k) && ps[1] == DiffField(fs[1], x, y);
    assert ps == [KeyIs(k), Replace(y)];
    assert fs[1].Mutable? && IsSome(ps[1]);
    assert HasChanges(fs, ps);
  }

  /**
   Not every put-back is harmful that changes the outcome: of two inserts into
   a keyed list the put-back one ends up last, which means the same.
   */
  lemma PutBackReorders(k: Value, x: Value, y: Value)
    requires x != y
    ensures var ty := RecordType([Key, Mutable(ListType(RecordType([Key])))]);
            var a, b := Record([x]), Record([y]);
            var v0, v1, v2 := Record([k, List([])]), Record([k, List([a])]), Record([k, List([a, b])]);
            var older, newer := Diff(ty, v0, v1), Diff(ty, v1, v2);
            var back := Apply(ty, Apply(ty, v0, newer), older);
            back == Record([k, List([b, a])]) && Apply(ty, Apply(ty, v0, older), newer) == v2 &&
            Equivalent(ty, back, v2) && Compatible(ty, v0, newer, older) && !Agree(ty, v0, newer, older)
  {
    var elem := RecordType([Key]);
    var ty := RecordType([Key, Mutable(ListType(elem))]);
    var a, b := Record([x]), Record([y]);
    var v0, v1, v2 := Record([k, List([])]), Record([k, List([a])]), Record([k, List([a, b])]);
    var r := Record([k, List([b, a])]);
    assert a.fields[0] != b.fields[0];
    InsertsSwapped(k, x, y);
    CommuteExactly(ty, v0, Diff(ty, v1, v2), Diff(ty, v0, v1));
    EquivalentExactly(ty, v0, Diff(ty, v1, v2), Diff(ty, v0, v1));
    assert r.fields[1].items[0] != v2.fields[1].items[0];
    SwappedEquivalent(k, x, y);
  }

  lemma InsertsSwapped(k: Value, x: Value, y: Value)
    requires x != y
    ensures var ty := RecordType([Key, Mutable(ListType(RecordType([Key])))]);
            var a, b := Record([x]), Record([y]);
            var v0, v1, v2 := Record([k, List([])]), Record([k, List([a])]), Record([k, List([a, b])]);
            Apply(ty, Apply(ty, v0, Diff(ty, v1, v2)), Diff(ty, v0, v1)) == Record([k, List([b, a])]) &&
            Apply(ty, Apply(ty, v0, Diff(ty, v0, v1)), Diff(ty, v1, v2)) == v2
  {
    var elem, a, b := RecordType([Key]), Record([x]), Record([y]);
    InsertDiffs(x, y);
    ListField(k, elem, List([]), List([a]));
    ListField(k, elem, List([a]), List([a, b]));
    InsertsInTurn(k, x, y);
    InsertsInTurn(k, y, x);
  }

  lemma InsertsInTurn(k: Value, x: Value, y: Value)
    requires x != y
    ensures var ty := RecordType([Key, Mutable(ListType(RecordType([Key])))]);
            var a, b := Record([x]), Record([y]);
            var p, q := Incremental([Insert(Id(x), a)]), Incremental([Insert(Id(y), b)]);
            Apply(ty, Apply(ty, Record([k, List([])]), Fields([KeyIs(k), p])), Fields([KeyIs(k), q])) ==
            Record([k, List([a, b])])
  {
    var elem, a, b := RecordType([Key]), Record([x]), Record([y]);
    assert KeyOf(elem, a) == x && KeyOf(elem, b) == y;
    Inserted(k, elem, [], Insert(Id(x), a), [a]);
    Inserted(k, elem, [a], Insert(Id(y), b), [a, b]);
  }

  /** The diffs of `[]` to `[a]` and of `[a]` to `[a, b]` are one insert each. */
  lemma InsertDiffs(x: Value, y: Value)
    requires x != y
    ensures var elem, a, b := RecordType([Key]), Record([x]), Record([y]);
            Diff(ListType(elem), List([]), List([a])) == Incremental([Insert(Id(x), a)]) &&
            Diff(ListType(elem), List([a]), List([a, b])) == Incremental([Insert(Id(y), b)])
  {
    var elem, a, b := RecordType([Key]), Record([x]), Record([y]);
    assert KeyOf(elem, a) == x && KeyOf(elem, b) == y;
    assert DropLast([a, b]) == [a] && DropLast([a]) == [];
    assert Find(elem, [], x) == None && Find(elem, [a], x) == Some(a) && Find(elem, [a], y) == None;
    assert Find(elem, [a, b], x) == Some(a);
    assert Upsert(elem, [], a) == [Insert(Id(x), a)] && Upsert(elem, [a], a) == [];
    assert Upsert(elem, [a], b) == [Insert(Id(y), b)];
    assert Upserts(elem, [], []) == [] && Upserts(elem, [], [a]) == [Insert(Id(x), a)];
    assert Upserts(elem, [a], []) == [] && Upserts(elem, [a], [a]) == [];
    assert Upserts(elem, [a], [a, b]) == [Insert(Id(y), b)];
    assert Removals(elem, [], [a]) == [] && Removals(elem, [], [a, b]) == [];
    assert Removals(elem, [a], [a, b]) == [];
  }

  lemma ListField(k: Value, elem: Schema, l: Value, l': Value)
    requires l != l'
    ensures Diff(RecordType([Key, Mutable(ListType(elem))]), Record([k, l]), Record([k, l'])) ==
            Fields([KeyIs(k), Diff(ListType(elem), l, l')])
  {
    var fs := [Key, Mutable(ListType(elem))];
    var ps := DiffFields(fs, Record([k, l]), Record([k, l']));
    assert ps[0] == DiffField(fs[0], k, k) && ps[1] == DiffField(fs[1], l, l');
    assert ps == [KeyIs(k), Diff(ListType(elem), l, l')];
    assert fs[1].Mutable? && IsSome(ps[1]);
    assert HasChanges(fs, ps);
  }

  lemma Inserted(k: Value, elem: Schema, items: seq<Value>, op: Op, items': seq<Value>)
    requires ApplyOp(elem, items, op) == items'
    ensures var ty := RecordType([Key, Mutable(ListType(elem))]);
            Apply(ty, Record([k, List(items)]), Fields([KeyIs(k), Incremental([op])])) == Record([k, List(items')])
  {
    var fs := [Key, Mutable(ListType(elem))];
    ApplySingle(elem, items, op);
    assert Apply(ListType(elem), List(items), Incremental([op])) == List(items');
    assert ApplyFields(fs, Record([k, List(items)]), Fields([KeyIs(k), Incremental([op])])) == [k, List(items')];
  }

  lemma SwappedEquivalent(k: Value, x: Value, y: Value)
    requires x != y
    ensures var a, b := Record([x]), Record([y]);
            Equivalent(RecordType([Key, Mutable(ListType(RecordType([Key])))]),
                       Record([k, List([b, a])]), Record([k, List([a, b])]))
  {
    var elem, a, b := RecordType([Key]), Record([x]), Record([y]);
    var fs := [Key, Mutable(ListType(elem))];
    var l, l' := List([b, a]), List([a, b]);
    assert KeyOf(elem, a) == x && KeyOf(elem, b) == y;
    forall j ensures SameEntry(elem, Find(elem, Items(l), j), Find(elem, Items(l'), j)) {
      var r := if j == x then Some(a) else if j == y then Some(b) else None;
      assert [b] + [a] == [b, a] && [a] + [b] == [a, b];
      FindSnoc(elem, [b], a, j);
      FindSnoc(elem, [a], b, j);
      assert Find(elem, [b, a], j) == r && Find(elem, [a, b], j) == r;
      if r.Some? {
        EquivalentRefl(elem, r.value);
      }
    }
    assert Equivalent(ListType(elem), l, l');
    forall i | 0 <= i < 2 ensures SameField(fs[i], Sub(Record([k, l]), i), Sub(Record([k, l']), i)) {
    }
  }
}
