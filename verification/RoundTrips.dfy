/** When applying a diff to the old value gives back the new value itself. */
module RoundTrips {
  import opened Prelude
  import opened Schemas
  import opened Patches
  import opened KeyedLists
  import opened Sync
  import opened NoDrift
  import MergeLaws

  // Lists by index

  /** A list by index round-trips exactly when its common part does, element by element. */
  lemma {:induction false} IndexedRoundTrip(elem: Schema, os: seq<Value>, ns: seq<Value>)
    requires !IdBased(elem)
    requires WellFormed(ListType(elem), List(os)) && WellFormed(ListType(elem), List(ns))
    ensures var sch := ListType(elem);
            Apply(sch, List(os), Diff(sch, List(os), List(ns))) == List(ns) <==>
            forall i | 0 <= i < |os| && i < |ns| :: Apply(elem, os[i], Diff(elem, os[i], ns[i])) == ns[i]
  {
    EquivalentRefl(ListType(elem), List(os));
    ApplyDiff(ListType(elem), List(os), List(os), List(ns));
    forall i | 0 <= i < |os| && i < |ns|
      ensures Apply(elem, os[i], Diff(elem, os[i], ns[i])) == Synced(elem, os[i], os[i], ns[i])
    {
      EquivalentRefl(elem, os[i]);
      ApplyDiff(elem, os[i], os[i], ns[i]);
    }
    SyncedPointwise(elem, os, ns);
  }

  lemma SyncedPointwise(elem: Schema, os: seq<Value>, ns: seq<Value>)
    requires !IdBased(elem)
    ensures Synced(ListType(elem), List(os), List(os), List(ns)) == List(ns) <==>
            forall i | 0 <= i < |os| && i < |ns| :: Synced(elem, os[i], os[i], ns[i]) == ns[i]
  {
    if os != ns {
      var r := SyncedList(elem, os, os, ns);
      assert Synced(ListType(elem), List(os), List(os), List(ns)) == List(r);
      assert |r| == |ns|;
      forall i | 0 <= i < |ns|
        ensures r[i] == if i < |os| then Synced(elem, os[i], os[i], ns[i]) else ns[i]
      {
        if |os| <= |ns| {
          var p := SyncedByIndex(elem, os, os, ns, |os|);
          assert r == p + ns[|os|..];
          if i < |os| {
            assert r[i] == p[i];
          }
        } else {
          assert r[i] == SyncedByIndex(elem, os, os, ns, |ns|)[i];
        }
      }
    }
  }

  /** Schemas on which equivalence is equality: no immutable fields, no keyed lists. */
  predicate Exact(sch: Schema) {
    match sch
    case LeafType => true
    case RecordType(fs) =>
      forall i | 0 <= i < |fs| :: !fs[i].Immutable? && (fs[i].Mutable? ==> Exact(fs[i].ty))
    case ListType(elem) => !IdBased(elem) && Exact(elem)
  }

  lemma {:induction false} EquivalentIsEqual(sch: Schema, a: Value, b: Value)
    requires Exact(sch) && WellFormed(sch, a) && WellFormed(sch, b)
    ensures Equivalent(sch, a, b) <==> a == b
  {
    if Equivalent(sch, a, b) {
      match sch
      case LeafType =>
      case RecordType(fs) =>
        forall i | 0 <= i < |fs| ensures a.fields[i] == b.fields[i] {
          assert SameField(fs[i], Sub(a, i), Sub(b, i));
          if fs[i].Mutable? {
            EquivalentIsEqual(fs[i].ty, a.fields[i], b.fields[i]);
          }
        }
        assert a.fields == b.fields;
      case ListType(elem) =>
        forall i | 0 <= i < |a.items| ensures a.items[i] == b.items[i] {
          assert Equivalent(elem, Items(a)[i], Items(b)[i]);
          EquivalentIsEqual(elem, a.items[i], b.items[i]);
        }
        assert a.items == b.items;
    } else if a == b {
      EquivalentRefl(sch, a);
    }
  }

  /** Exact schemas, lists of lists of leaves among them, round-trip while keys are stable. */
  lemma {:induction false} ExactRoundTrip(sch: Schema, old': Value, new': Value)
    requires Exact(sch) && WellFormed(sch, old') && WellFormed(sch, new')
    ensures Apply(sch, old', Diff(sch, old', new')) == new' <==> Stable(sch, old', new')
  {
    EquivalentRefl(sch, old');
    OneStep(sch, old', old', new');
    ApplyDiff(sch, old', old', new');
    SyncedReaches(sch, old', old', new');
    EquivalentIsEqual(sch, Apply(sch, old', Diff(sch, old', new')), new');
  }

  // Keyed lists

  function Keys(elem: Schema, items: seq<Value>): (r: seq<Value>)
    ensures |r| == |items|
  {
    seq(|items|, i requires 0 <= i < |items| => KeyOf(elem, items[i]))
  }

  /** The new elements of the surviving keys, in the order of the old list. */
  function Survivors(elem: Schema, os: seq<Value>, ns: seq<Value>): seq<Value> {
    if os == [] then []
    else
      Survivors(elem, DropLast(os), ns) +
      match Find(elem, ns, KeyOf(elem, Last(os)))
      case Some(n) => [n]
      case None => []
  }

  /**
   If matched elements round-trip, a keyed list becomes its survivors in old
   order, with new content, followed by the new-only elements in new order.
   That is the new list exactly when its keys already come in that order.
   */
  lemma {:induction false} KeyedRoundTrip(elem: Schema, os: seq<Value>, ns: seq<Value>)
    requires IdBased(elem)
    requires WellFormed(ListType(elem), List(os)) && WellFormed(ListType(elem), List(ns))
    requires forall o, n | o in os && n in ns && KeyOf(elem, o) == KeyOf(elem, n) ::
      Apply(elem, o, Diff(elem, o, n)) == n
    ensures var sch := ListType(elem);
            var r := Apply(sch, List(os), Diff(sch, List(os), List(ns)));
            r == List(Survivors(elem, os, ns) + Select(elem, ns, os, false)) &&
            (r == List(ns) <==>
             Keys(elem, Select(elem, os, ns, true)) + Keys(elem, Select(elem, ns, os, false)) == Keys(elem, ns))
  {
    var sch := ListType(elem);
    EquivalentRefl(sch, List(os));
    ApplyDiff(sch, List(os), List(os), List(ns));
    var p := SyncedByKey(elem, os, os, ns);
    forall i | 0 <= i < |os| ensures Carried(elem, os[i], ns, p[i]) {
      SyncedItemAt(elem, os, os, ns, i);
      FindHit(elem, os, i);
      EquivalentRefl(elem, os[i]);
      var n := Find(elem, ns, KeyOf(elem, os[i]));
      if n.Some? {
        ApplyDiff(elem, os[i], os[i], n.value);
      }
    }
    SurvivorsAreSelected(elem, p, os, ns);
    if os == ns {
      SyncedSame(elem, os, p);
    }
    KeysDecide(elem, os, ns);
  }

  /** `p` stands where `o` stood: the new element with its key, or `o` itself if there is none. */
  predicate Carried(elem: Schema, o: Value, ns: seq<Value>, p: Value) {
    var n := Find(elem, ns, KeyOf(elem, o));
    KeyOf(elem, p) == KeyOf(elem, o) && p == if n.Some? then n.value else o
  }

  lemma {:induction false} SurvivorsAreSelected(elem: Schema, p: seq<Value>, os: seq<Value>, ns: seq<Value>)
    requires |p| == |os|
    requires forall i | 0 <= i < |os| :: Carried(elem, os[i], ns, p[i])
    ensures Select(elem, p, ns, true) == Survivors(elem, os, ns)
  {
    if os != [] {
      SurvivorsAreSelected(elem, DropLast(p), DropLast(os), ns);
      assert Carried(elem, os[|os| - 1], ns, p[|os| - 1]);
      assert p == DropLast(p) + [Last(p)];
      SelectSnoc(elem, DropLast(p), Last(p), ns, true);
    }
  }

  lemma SyncedSame(elem: Schema, os: seq<Value>, p: seq<Value>)
    requires UniqueKeys(elem, os) && |p| == |os|
    requires forall i | 0 <= i < |os| :: Carried(elem, os[i], os, p[i])
    ensures Survivors(elem, os, os) + Select(elem, os, os, false) == os
  {
    AllFound(elem, os, p);
    SurvivorsAreSelected(elem, p, os, os);
    SelectItself(elem, os);
  }

  lemma AllFound(elem: Schema, os: seq<Value>, p: seq<Value>)
    requires UniqueKeys(elem, os) && |p| == |os|
    requires forall i | 0 <= i < |os| :: Carried(elem, os[i], os, p[i])
    ensures p == os
  {
    forall i | 0 <= i < |os| ensures p[i] == os[i] {
      FindHit(elem, os, i);
      assert Carried(elem, os[i], os, p[i]);
    }
  }

  lemma SelectItself(elem: Schema, items: seq<Value>)
    ensures Select(elem, items, items, true) == items && Select(elem, items, items, false) == []
  {
    forall x | x in items ensures Find(elem, items, KeyOf(elem, x)).Some? {
      FindMiss(elem, items, KeyOf(elem, x));
    }
    SelectSame(elem, items, items, true, [], false);
    SelectNothing(elem, items);
    SelectSame(elem, items, items, false, [], true);
    SelectNone(elem, items);
  }

  lemma {:induction false} SelectNone(elem: Schema, items: seq<Value>)
    ensures Select(elem, items, [], true) == []
  {
    if items != [] {
      SelectNone(elem, DropLast(items));
    }
  }

  lemma {:induction false} SurvivorKeys(elem: Schema, os: seq<Value>, ns: seq<Value>)
    ensures Keys(elem, Survivors(elem, os, ns)) == Keys(elem, Select(elem, os, ns, true))
    ensures forall x | x in Survivors(elem, os, ns) :: x in ns
  {
    if os != [] {
      var x := Last(os);
      SurvivorKeys(elem, DropLast(os), ns);
      assert os == DropLast(os) + [x];
      SelectSnoc(elem, DropLast(os), x, ns, true);
      KeysSnoc(elem, Select(elem, DropLast(os), ns, true), x);
      var n := Find(elem, ns, KeyOf(elem, x));
      if n.Some? {
        KeysSnoc(elem, Survivors(elem, DropLast(os), ns), n.value);
      }
    }
  }

  lemma KeysSnoc(elem: Schema, items: seq<Value>, x: Value)
    ensures Keys(elem, items + [x]) == Keys(elem, items) + [KeyOf(elem, x)]
  {
  }

  lemma KeysDecide(elem: Schema, os: seq<Value>, ns: seq<Value>)
    requires UniqueKeys(elem, ns)
    ensures Survivors(elem, os, ns) + Select(elem, ns, os, false) == ns <==>
            Keys(elem, Select(elem, os, ns, true)) + Keys(elem, Select(elem, ns, os, false)) == Keys(elem, ns)
  {
    var s, f := Survivors(elem, os, ns), Select(elem, ns, os, false);
    SurvivorKeys(elem, os, ns);
    assert Keys(elem, s + f) == Keys(elem, s) + Keys(elem, f);
    forall x | x in s + f ensures x in ns {
      if x in f {
        SelectMember(elem, ns, os, false, x);
      }
    }
    SameKeysSameItems(elem, s + f, ns);
  }

  lemma SameKeysSameItems(elem: Schema, r: seq<Value>, ns: seq<Value>)
    requires UniqueKeys(elem, ns) && forall x | x in r :: x in ns
    ensures Keys(elem, r) == Keys(elem, ns) <==> r == ns
  {
    if Keys(elem, r) == Keys(elem, ns) {
      assert |r| == |Keys(elem, r)| == |ns|;
      forall i | 0 <= i < |ns| ensures r[i] == ns[i] {
        assert KeyOf(elem, r[i]) == Keys(elem, r)[i] == Keys(elem, ns)[i];
        assert r[i] in r;
        var j :| 0 <= j < |ns| && ns[j] == r[i];
        FindHit(elem, ns, i);
        FindHit(elem, ns, j);
      }
    }
  }

  /** A diff with no operations, which still counts as a change, is exactly a reorder. */
  lemma {:induction false} PureReorder(elem: Schema, os: seq<Value>, ns: seq<Value>)
    requires IdBased(elem) && UniqueKeys(elem, os) && UniqueKeys(elem, ns) && os != ns
    ensures Diff(ListType(elem), List(os), List(ns)) == Incremental([]) <==>
            forall k :: Find(elem, os, k) == Find(elem, ns, k)
  {
    if Upserts(elem, os, ns) == [] {
      forall n | n in ns ensures Unchanged(elem, os, n) {
        NoUpsertFor(elem, os, ns, n);
      }
    } else if forall n | n in ns :: Unchanged(elem, os, n) {
      NoUpserts(elem, os, ns);
    }
    NoRemovals(elem, os, ns);
    assert Diff(ListType(elem), List(os), List(ns)) == Incremental(Upserts(elem, os, ns) + Removals(elem, os, ns));
    SameMap(elem, os, ns);
  }

  predicate Unchanged(elem: Schema, os: seq<Value>, n: Value) {
    Find(elem, os, KeyOf(elem, n)) == Some(n)
  }

  lemma SameMap(elem: Schema, os: seq<Value>, ns: seq<Value>)
    requires UniqueKeys(elem, os) && UniqueKeys(elem, ns)
    ensures (forall k :: Find(elem, os, k) == Find(elem, ns, k)) <==>
            (forall n | n in ns :: Unchanged(elem, os, n)) &&
            (forall o | o in os :: Find(elem, ns, KeyOf(elem, o)).Some?)
  {
    if (forall n | n in ns :: Unchanged(elem, os, n)) && (forall o | o in os :: Find(elem, ns, KeyOf(elem, o)).Some?) {
      forall k ensures Find(elem, os, k) == Find(elem, ns, k) {
        var o, n := Find(elem, os, k), Find(elem, ns, k);
        if n.Some? {
          assert Unchanged(elem, os, n.value);
        }
      }
    }
    if forall k :: Find(elem, os, k) == Find(elem, ns, k) {
      forall n | n in ns ensures Unchanged(elem, os, n) {
        var i :| 0 <= i < |ns| && ns[i] == n;
        FindHit(elem, ns, i);
      }
      forall o | o in os ensures Find(elem, ns, KeyOf(elem, o)).Some? {
        FindMiss(elem, os, KeyOf(elem, o));
      }
    }
  }

  lemma {:induction false} NoUpsertFor(elem: Schema, os: seq<Value>, ns: seq<Value>, n: Value)
    requires Upserts(elem, os, ns) == [] && n in ns
    ensures Unchanged(elem, os, n)
  {
    var front, x := DropLast(ns), Last(ns);
    assert Upserts(elem, os, front) == [] && Upsert(elem, os, x) == [];
    if n != x {
      assert ns == front + [x];
      NoUpsertFor(elem, os, front, n);
    }
  }

  lemma {:induction false} NoUpserts(elem: Schema, os: seq<Value>, ns: seq<Value>)
    requires forall n | n in ns :: Unchanged(elem, os, n)
    ensures Upserts(elem, os, ns) == []
  {
    if ns != [] {
      assert Unchanged(elem, os, Last(ns));
      NoUpserts(elem, os, DropLast(ns));
    }
  }

  lemma {:induction false} NoRemovals(elem: Schema, os: seq<Value>, ns: seq<Value>)
    ensures Removals(elem, os, ns) == [] <==> forall o | o in os :: Find(elem, ns, KeyOf(elem, o)).Some?
  {
    if os != [] {
      NoRemovals(elem, DropLast(os), ns);
      assert os == DropLast(os) + [Last(os)];
    }
  }
}
