/** Replicas that apply diffs stay equivalent to the state exactly while keys are stable. */
module NoDrift {
  import opened Prelude
  import opened Schemas
  import opened Patches
  import opened KeyedLists
  import opened Sync
  import opened EmptyDiffs

  // Synced is equivalent to the new state iff keys are stable

  lemma {:induction false} SyncedReaches(sch: Schema, c: Value, old': Value, new': Value)
    requires Replica(sch, c, old') && WellFormed(sch, new')
    ensures WellFormed(sch, Synced(sch, c, old', new'))
    ensures Equivalent(sch, Synced(sch, c, old', new'), new') <==> Stable(sch, old', new')
    decreases sch, 0
  {
    if old' == new' {
      StableRefl(sch, old');
    } else {
      match sch
      case LeafType =>
      case RecordType(fs) => SyncedRecordReaches(fs, c, old', new');
      case ListType(elem) =>
        if IdBased(elem) {
          SyncedByKeyReaches(elem, c.items, old'.items, new'.items);
        } else {
          SyncedByIndexReaches(elem, c.items, old'.items, new'.items);
        }
    }
  }

  lemma {:induction false} SyncedRecordReaches(fs: seq<Field>, c: Value, old': Value, new': Value)
    requires Replica(RecordType(fs), c, old') && WellFormed(RecordType(fs), new') && old' != new'
    ensures var r := Record(SyncedFields(fs, c, old', new'));
            WellFormed(RecordType(fs), r) &&
            (Equivalent(RecordType(fs), r, new') <==> Stable(RecordType(fs), old', new'))
    decreases fs, 0
  {
    var vs := SyncedFields(fs, c, old', new');
    var r := Record(vs);
    forall i | 0 <= i < |fs|
      ensures fs[i].Mutable? ==> WellFormed(fs[i].ty, vs[i])
      ensures SameField(fs[i], Sub(r, i), Sub(new', i)) <==> StableField(fs[i], Sub(old', i), Sub(new', i))
    {
      assert vs[i] == SyncedField(fs[i], Sub(c, i), Sub(old', i), Sub(new', i));
      assert SameField(fs[i], Sub(c, i), Sub(old', i));
      if fs[i].Mutable? {
        SyncedReaches(fs[i].ty, Sub(c, i), Sub(old', i), Sub(new', i));
      }
    }
    if Equivalent(RecordType(fs), r, new') {
      forall i | 0 <= i < |fs| ensures StableField(fs[i], Sub(old', i), Sub(new', i)) {
        assert SameField(fs[i], Sub(r, i), Sub(new', i));
      }
    }
    if Stable(RecordType(fs), old', new') {
      forall i | 0 <= i < |fs| ensures SameField(fs[i], Sub(r, i), Sub(new', i)) {
        assert StableField(fs[i], Sub(old', i), Sub(new', i));
      }
    }
  }

  /** The synced list as a map: survivors synced, new-only elements as they are. */
  lemma {:induction false} FindSynced(elem: Schema, cs: seq<Value>, os: seq<Value>, ns: seq<Value>, k: Value)
    requires IdBased(elem)
    requires Find(elem, cs, k).Some? == Find(elem, os, k).Some?
    ensures var x, o, n := Find(elem, cs, k), Find(elem, os, k), Find(elem, ns, k);
            Find(elem, SyncedList(elem, cs, os, ns), k) ==
            if n.None? then None else if o.None? then n else Some(Synced(elem, x.value, o.value, n.value))
  {
    var p := SyncedByKey(elem, cs, os, ns);
    FindAppend(elem, Select(elem, p, ns, true), Select(elem, ns, os, false), k);
    FindSelect(elem, p, ns, true, k);
    FindSelect(elem, ns, os, false, k);
    SyncedPosition(elem, cs, os, ns, k);
    var i := Position(elem, cs, k);
    if i < |cs| {
      SyncedItemAt(elem, cs, os, ns, i);
    }
  }

  lemma {:induction false} SyncedByKeyReaches(elem: Schema, cs: seq<Value>, os: seq<Value>, ns: seq<Value>)
    requires IdBased(elem)
    requires Replica(ListType(elem), List(cs), List(os)) && WellFormed(ListType(elem), List(ns))
    ensures var r := List(SyncedList(elem, cs, os, ns));
            WellFormed(ListType(elem), r) &&
            (Equivalent(ListType(elem), r, List(ns)) <==> Stable(ListType(elem), List(os), List(ns)))
    decreases elem, 3
  {
    var r := SyncedList(elem, cs, os, ns);
    assert Items(List(r)) == r && Items(List(ns)) == ns && Items(List(os)) == os;
    forall k
      ensures SameEntry(elem, Find(elem, r, k), Find(elem, ns, k)) <==>
              StableEntry(elem, Find(elem, os, k), Find(elem, ns, k))
    {
      ReplicaEntry(elem, cs, os, k);
      FindSynced(elem, cs, os, ns, k);
      EntryReaches(elem, Find(elem, cs, k), Find(elem, os, k), Find(elem, ns, k));
    }
    SyncedListUnique(elem, cs, os, ns);
    forall i | 0 <= i < |r| ensures WellFormed(elem, r[i]) {
      var k := KeyOf(elem, r[i]);
      FindHit(elem, r, i);
      ReplicaEntry(elem, cs, os, k);
      FindSynced(elem, cs, os, ns, k);
      EntryReaches(elem, Find(elem, cs, k), Find(elem, os, k), Find(elem, ns, k));
    }
    if Equivalent(ListType(elem), List(r), List(ns)) {
      forall k ensures StableEntry(elem, Find(elem, Items(List(os)), k), Find(elem, Items(List(ns)), k)) {
        assert SameEntry(elem, Find(elem, Items(List(r)), k), Find(elem, Items(List(ns)), k));
      }
    }
    if Stable(ListType(elem), List(os), List(ns)) {
      forall k ensures SameEntry(elem, Find(elem, Items(List(r)), k), Find(elem, Items(List(ns)), k)) {
        assert StableEntry(elem, Find(elem, Items(List(os)), k), Find(elem, Items(List(ns)), k));
      }
    }
  }

  lemma {:induction false} EntryReaches(elem: Schema, x: Option<Value>, o: Option<Value>, n: Option<Value>)
    requires SameEntry(elem, x, o)
    requires x.Some? ==> WellFormed(elem, x.value) && WellFormed(elem, o.value)
    requires n.Some? ==> WellFormed(elem, n.value)
    ensures var r :=
              if n.None? then None else if o.None? then n else Some(Synced(elem, x.value, o.value, n.value));
            (SameEntry(elem, r, n) <==> StableEntry(elem, o, n)) &&
            (r.Some? ==> WellFormed(elem, r.value))
    decreases elem, 1
  {
    if o.Some? && n.Some? {
      SyncedReaches(elem, x.value, o.value, n.value);
    } else if n.Some? {
      EquivalentRefl(elem, n.value);
    }
  }

  lemma SyncedListUnique(elem: Schema, cs: seq<Value>, os: seq<Value>, ns: seq<Value>)
    requires IdBased(elem)
    requires Replica(ListType(elem), List(cs), List(os)) && WellFormed(ListType(elem), List(ns))
    ensures UniqueKeys(elem, SyncedList(elem, cs, os, ns))
  {
    var p, f := SyncedByKey(elem, cs, os, ns), Select(elem, ns, os, false);
    forall x | x in cs ensures Find(elem, os, KeyOf(elem, x)).Some? {
      ReplicaEntry(elem, cs, os, KeyOf(elem, x));
      FindMiss(elem, cs, KeyOf(elem, x));
    }
    SyncedUnique(elem, cs, os, ns);
    SelectUnique(elem, p + f, ns, true);
    SelectAppend(elem, p, f, ns, true);
    forall x | x in f ensures Find(elem, ns, KeyOf(elem, x)).Some? {
      SelectMember(elem, ns, os, false, x);
      FindMiss(elem, ns, KeyOf(elem, x));
    }
    SelectSame(elem, f, ns, true, [], false);
    SelectNothing(elem, f);
  }

  lemma {:induction false} SyncedByIndexReaches(elem: Schema, cs: seq<Value>, os: seq<Value>, ns: seq<Value>)
    requires !IdBased(elem)
    requires Replica(ListType(elem), List(cs), List(os)) && WellFormed(ListType(elem), List(ns))
    ensures var r := List(SyncedList(elem, cs, os, ns));
            WellFormed(ListType(elem), r) &&
            (Equivalent(ListType(elem), r, List(ns)) <==> Stable(ListType(elem), List(os), List(ns)))
    decreases elem, 3
  {
    var r := SyncedList(elem, cs, os, ns);
    forall i | 0 <= i < |ns|
      ensures WellFormed(elem, r[i])
      ensures Equivalent(elem, r[i], ns[i]) <==> i >= |os| || Stable(elem, os[i], ns[i])
    {
      if i < |os| {
        assert Equivalent(elem, Items(List(cs))[i], Items(List(os))[i]);
        SyncedReaches(elem, cs[i], os[i], ns[i]);
      } else {
        EquivalentRefl(elem, ns[i]);
      }
    }
    IndexedEquivalence(elem, r, os, ns);
  }

  lemma {:induction false} IndexedEquivalence(elem: Schema, r: seq<Value>, os: seq<Value>, ns: seq<Value>)
    requires !IdBased(elem) && |r| == |ns|
    requires forall i | 0 <= i < |ns| ::
      Equivalent(elem, r[i], ns[i]) <==> i >= |os| || Stable(elem, os[i], ns[i])
    ensures Equivalent(ListType(elem), List(r), List(ns)) <==> Stable(ListType(elem), List(os), List(ns))
  {
    assert Items(List(r)) == r && Items(List(ns)) == ns && Items(List(os)) == os;
    if Equivalent(ListType(elem), List(r), List(ns)) {
      forall i | 0 <= i < |os| && i < |ns| ensures Stable(elem, os[i], ns[i]) {
        assert Equivalent(elem, Items(List(r))[i], Items(List(ns))[i]);
      }
    }
    if Stable(ListType(elem), List(os), List(ns)) {
      forall i | 0 <= i < |ns| ensures Equivalent(elem, r[i], ns[i]) {
        if i < |os| {
          assert Stable(elem, Items(List(os))[i], Items(List(ns))[i]);
        }
      }
    }
  }

  // Main results

  /** One step: the replica reaches the new state exactly when keys are stable. */
  lemma OneStep(sch: Schema, c: Value, old': Value, new': Value)
    requires Replica(sch, c, old') && WellFormed(sch, new')
    ensures var c' := Apply(sch, c, Diff(sch, old', new'));
            Replica(sch, c', new') <==> Stable(sch, old', new')
  {
    ApplyDiff(sch, c, old', new');
    SyncedReaches(sch, c, old', new');
  }

  /** The replica after receiving the diff of every change in a history of states. */
  function Follow(sch: Schema, c: Value, states: seq<Value>): Value
    requires states != []
  {
    if |states| == 1 then c
    else
      var front := DropLast(states);
      Apply(sch, Follow(sch, c, front), Diff(sch, Last(front), Last(states)))
  }

  /** No drift: over any history with stable keys, whatever its length. */
  lemma {:induction false} WholeRun(sch: Schema, c: Value, states: seq<Value>)
    requires states != [] && Replica(sch, c, states[0])
    requires forall i | 0 <= i < |states| :: WellFormed(sch, states[i])
    requires forall i | 0 <= i < |states| - 1 :: Stable(sch, states[i], states[i + 1])
    ensures Replica(sch, Follow(sch, c, states), Last(states))
  {
    if |states| > 1 {
      var front := DropLast(states);
      WholeRun(sch, c, front);
      assert Stable(sch, states[|states| - 2], states[|states| - 2 + 1]);
      OneStep(sch, Follow(sch, c, front), Last(front), Last(states));
    }
  }

  /**
   A diff reports nothing exactly if no mutable leaf or list differs; the
   states are then equivalent exactly when keys are stable.
   */
  lemma EmptyDiff(sch: Schema, old': Value, new': Value)
    requires WellFormed(sch, old') && WellFormed(sch, new')
    ensures !IsSome(Diff(sch, old', new')) <==> Unnoticed(sch, old', new')
    ensures !IsSome(Diff(sch, old', new')) ==> (Equivalent(sch, old', new') <==> Stable(sch, old', new'))
  {
    EmptyExactly(sch, old', new');
    if !IsSome(Diff(sch, old', new')) {
      EquivalentRefl(sch, old');
      OneStep(sch, old', old', new');
      ApplyEmpty(sch, old', Diff(sch, old', new'));
    }
  }
}
