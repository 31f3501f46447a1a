/**
 What a replica becomes when it applies a diff, said without patches, and when
 that is equivalent to the new state.
 */
module Sync {
  import opened Prelude
  import opened Schemas
  import opened Patches
  import opened KeyedLists
  import MergeLaws

  /**
   The replica `c` of `old'` after applying the diff from `old'` to `new'`.
   Records keep their own keys and immutable fields.  Keyed lists keep the
   replica's order for the surviving elements and append the unknown ones in
   the new order; other lists follow the new list.
   */
  function Synced(sch: Schema, c: Value, old': Value, new': Value): Value
    decreases sch, 0
  {
    if old' == new' then c
    else
      match sch
      case LeafType => new'
      case RecordType(fs) => Record(SyncedFields(fs, c, old', new'))
      case ListType(elem) => List(SyncedList(elem, Items(c), Items(old'), Items(new')))
  }

  function SyncedFields(fs: seq<Field>, c: Value, old': Value, new': Value): (r: seq<Value>)
    ensures |r| == |fs|
    decreases fs, 0
  {
    seq(|fs|, i requires 0 <= i < |fs| => SyncedField(fs[i], Sub(c, i), Sub(old', i), Sub(new', i)))
  }

  function SyncedField(f: Field, c: Value, old': Value, new': Value): Value
    decreases f, 0
  {
    if f.Mutable? then Synced(f.ty, c, old', new') else c
  }

  function SyncedList(elem: Schema, cs: seq<Value>, os: seq<Value>, ns: seq<Value>): seq<Value>
    decreases elem, 3
  {
    if IdBased(elem) then
      Select(elem, SyncedByKey(elem, cs, os, ns), ns, true) + Select(elem, ns, os, false)
    else if |cs| <= |ns| then
      SyncedByIndex(elem, cs, os, ns, |cs|) + ns[|cs|..]
    else
      SyncedByIndex(elem, cs, os, ns, |ns|)[..|ns|]
  }

  function SyncedByKey(elem: Schema, cs: seq<Value>, os: seq<Value>, ns: seq<Value>): (r: seq<Value>)
    ensures |r| == |cs|
    decreases elem, 2
  {
    seq(|cs|, i requires 0 <= i < |cs| => SyncedItem(elem, cs[i], os, ns))
  }

  function SyncedItem(elem: Schema, x: Value, os: seq<Value>, ns: seq<Value>): Value
    decreases elem, 1
  {
    match (Find(elem, os, KeyOf(elem, x)), Find(elem, ns, KeyOf(elem, x)))
    case (Some(o), Some(n)) => Synced(elem, x, o, n)
    case _ => x
  }

  /** The first `n` elements follow `ns`, the rest are still those of `cs`. */
  function SyncedByIndex(elem: Schema, cs: seq<Value>, os: seq<Value>, ns: seq<Value>, n: nat): (r: seq<Value>)
    ensures |r| == |cs|
    decreases elem, 2
  {
    seq(|cs|, i requires 0 <= i < |cs| =>
      if i < n && i < |os| && i < |ns| then Synced(elem, cs[i], os[i], ns[i]) else cs[i])
  }

  /** `c` is a well-formed replica of the well-formed state `s`. */
  ghost predicate Replica(sch: Schema, c: Value, s: Value) {
    WellFormed(sch, c) && WellFormed(sch, s) && Equivalent(sch, c, s)
  }

  // Empty diffs

  lemma {:induction false} DiffOfSame(sch: Schema, x: Value)
    ensures !IsSome(Diff(sch, x, x))
  {
    if sch.RecordType? {
      forall i | 0 <= i < |sch.fields| && sch.fields[i].Mutable?
        ensures !IsSome(DiffFields(sch.fields, x, x)[i])
      {
        DiffOfSame(sch.fields[i].ty, Sub(x, i));
      }
    }
  }

  lemma ApplyEmpty(sch: Schema, c: Value, p: Patch)
    requires !IsSome(p)
    ensures Apply(sch, c, p) == c
  {
  }

  // Applying a diff gives Synced

  lemma SyncedKeepsKey(sch: Schema, c: Value, old': Value, new': Value)
    requires sch.RecordType?
    ensures KeyOf(sch, Synced(sch, c, old', new')) == KeyOf(sch, c)
  {
    var i := KeyIndex(sch.fields);
    if old' != new' && i < |sch.fields| {
      assert SyncedFields(sch.fields, c, old', new')[i] == Sub(c, i);
    }
  }

  lemma SyncedItemAt(elem: Schema, cs: seq<Value>, os: seq<Value>, ns: seq<Value>, i: nat)
    requires IdBased(elem) && i < |cs|
    ensures SyncedByKey(elem, cs, os, ns)[i] == SyncedItem(elem, cs[i], os, ns)
    ensures KeyOf(elem, SyncedByKey(elem, cs, os, ns)[i]) == KeyOf(elem, cs[i])
  {
    var k := KeyOf(elem, cs[i]);
    var o, n := Find(elem, os, k), Find(elem, ns, k);
    if o.Some? && n.Some? {
      SyncedKeepsKey(elem, cs[i], o.value, n.value);
    }
  }

  lemma SyncedPosition(elem: Schema, cs: seq<Value>, os: seq<Value>, ns: seq<Value>, k: Value)
    requires IdBased(elem)
    ensures Position(elem, SyncedByKey(elem, cs, os, ns), k) == Position(elem, cs, k)
  {
    var p := SyncedByKey(elem, cs, os, ns);
    PositionIsFirst(elem, cs, k);
    forall i | 0 <= i < |cs| ensures KeyOf(elem, p[i]) == KeyOf(elem, cs[i]) {
      SyncedItemAt(elem, cs, os, ns, i);
    }
    PositionUnique(elem, p, k, Position(elem, cs, k));
  }

  lemma {:induction false} ApplyDiff(sch: Schema, c: Value, old': Value, new': Value)
    requires Replica(sch, c, old') && WellFormed(sch, new')
    ensures Apply(sch, c, Diff(sch, old', new')) == Synced(sch, c, old', new')
    decreases sch, 0
  {
    if old' == new' {
      DiffOfSame(sch, old');
      ApplyEmpty(sch, c, Diff(sch, old', new'));
    } else {
      match sch
      case LeafType =>
      case RecordType(fs) => ApplyDiffRecord(fs, c, old', new');
      case ListType(elem) =>
        if IdBased(elem) {
          ApplyDiffById(elem, c.items, old'.items, new'.items);
        } else {
          ApplyDiffByIndex(elem, c.items, old'.items, new'.items);
        }
    }
  }

  lemma {:induction false} ApplyDiffRecord(fs: seq<Field>, c: Value, old': Value, new': Value)
    requires Replica(RecordType(fs), c, old') && WellFormed(RecordType(fs), new') && old' != new'
    ensures Apply(RecordType(fs), c, Diff(RecordType(fs), old', new')) == Synced(RecordType(fs), c, old', new')
    decreases fs, 0
  {
    var ps, r := DiffFields(fs, old', new'), SyncedFields(fs, c, old', new');
    var p := Fields(ps);
    forall i | 0 <= i < |fs|
      ensures ApplyFields(fs, c, p)[i] == r[i]
      ensures !fs[i].Mutable? || !IsSome(ps[i]) ==> r[i] == c.fields[i]
    {
      assert r[i] == SyncedField(fs[i], Sub(c, i), Sub(old', i), Sub(new', i));
      assert ApplyFields(fs, c, p)[i] == ApplyField(fs[i], Sub(c, i), SubPatch(p, i));
      assert SameField(fs[i], Sub(c, i), Sub(old', i));
      assert SubPatch(p, i) == DiffField(fs[i], Sub(old', i), Sub(new', i));
      if fs[i].Mutable? {
        ApplyDiff(fs[i].ty, Sub(c, i), Sub(old', i), Sub(new', i));
        if !IsSome(ps[i]) {
          ApplyEmpty(fs[i].ty, Sub(c, i), ps[i]);
        }
      }
    }
    assert ApplyFields(fs, c, p) == r;
    if !HasChanges(fs, ps) {
      assert r == c.fields;
    }
  }

  // Keyed lists

  lemma ReplicaEntry(elem: Schema, cs: seq<Value>, os: seq<Value>, k: Value)
    requires IdBased(elem) && Replica(ListType(elem), List(cs), List(os))
    ensures SameEntry(elem, Find(elem, cs, k), Find(elem, os, k))
    ensures Find(elem, os, k).Some? ==> Replica(elem, Find(elem, cs, k).value, Find(elem, os, k).value)
  {
    assert Items(List(cs)) == cs && Items(List(os)) == os;
    assert SameEntry(elem, Find(elem, Items(List(cs)), k), Find(elem, Items(List(os)), k));
  }

  lemma {:induction false} ApplyDiffById(elem: Schema, cs: seq<Value>, os: seq<Value>, ns: seq<Value>)
    requires IdBased(elem)
    requires Replica(ListType(elem), List(cs), List(os)) && WellFormed(ListType(elem), List(ns))
    ensures ApplyOps(elem, cs, DiffOps(elem, os, ns)) == SyncedList(elem, cs, os, ns)
    decreases elem, 3
  {
    ApplyUpserts(elem, cs, os, ns);
    forall k ensures Find(elem, cs, k).Some? == Find(elem, os, k).Some? {
      ReplicaEntry(elem, cs, os, k);
    }
    RemoveOld(elem, cs, os, ns);
    MergeLaws.ApplyOpsAppend(elem, cs, Upserts(elem, os, ns), Removals(elem, os, ns));
  }

  /** After the upserts, the removals leave the survivors and the new elements. */
  lemma RemoveOld(elem: Schema, cs: seq<Value>, os: seq<Value>, ns: seq<Value>)
    requires IdBased(elem) && UniqueKeys(elem, cs) && UniqueKeys(elem, ns)
    requires forall k :: Find(elem, cs, k).Some? == Find(elem, os, k).Some?
    ensures var p, f := SyncedByKey(elem, cs, os, ns), Select(elem, ns, os, false);
            ApplyOps(elem, p + f, Removals(elem, os, ns)) == SyncedList(elem, cs, os, ns)
  {
    var p, f := SyncedByKey(elem, cs, os, ns), Select(elem, ns, os, false);
    forall x | x in cs ensures Find(elem, os, KeyOf(elem, x)).Some? {
      FindMiss(elem, cs, KeyOf(elem, x));
    }
    SyncedUnique(elem, cs, os, ns);
    var gone := Select(elem, os, ns, false);
    ApplyRemovals(elem, p + f, os, ns);
    SelectAppend(elem, p, f, gone, false);
    forall x | x in p
      ensures Find(elem, gone, KeyOf(elem, x)).None? == Find(elem, ns, KeyOf(elem, x)).Some?
    {
      var i :| 0 <= i < |p| && p[i] == x;
      SyncedItemAt(elem, cs, os, ns, i);
      assert cs[i] in cs;
      FindSelect(elem, os, ns, false, KeyOf(elem, x));
    }
    SelectSame(elem, p, gone, false, ns, true);
    forall x | x in f ensures Find(elem, gone, KeyOf(elem, x)).None? {
      SelectMember(elem, ns, os, false, x);
      FindSelect(elem, os, ns, false, KeyOf(elem, x));
    }
    SelectSame(elem, f, gone, false, [], false);
    SelectNothing(elem, f);
  }

  lemma {:induction false} ApplyUpserts(elem: Schema, cs: seq<Value>, os: seq<Value>, pre: seq<Value>)
    requires IdBased(elem)
    requires Replica(ListType(elem), List(cs), List(os)) && WellFormed(ListType(elem), List(pre))
    ensures ApplyOps(elem, cs, Upserts(elem, os, pre)) ==
            SyncedByKey(elem, cs, os, pre) + Select(elem, pre, os, false)
    decreases elem, 2, |pre|
  {
    if pre == [] {
      assert SyncedByKey(elem, cs, os, pre) == cs;
    } else {
      var front, n := DropLast(pre), Last(pre);
      assert pre == front + [n];
      ApplyUpserts(elem, cs, os, front);
      MergeLaws.ApplyOpsAppend(elem, cs, Upserts(elem, os, front), Upsert(elem, os, n));
      LastIsOnly(elem, pre);
      SelectSnoc(elem, front, n, os, false);
      var k := KeyOf(elem, n);
      ReplicaEntry(elem, cs, os, k);
      if Find(elem, os, k).Some? {
        var x, o := Find(elem, cs, k).value, Find(elem, os, k).value;
        ApplyDiff(elem, x, o, n);
        SyncedPosition(elem, cs, os, front, k);
        SyncedSnoc(elem, cs, os, front, n);
        UpsertKnown(elem, os, SyncedByKey(elem, cs, os, front), Select(elem, front, os, false), n, o,
                    Synced(elem, x, o, n));
      } else {
        UpsertUnknown(elem, cs, os, front, n);
      }
    }
  }

  lemma ApplySingle(elem: Schema, items: seq<Value>, op: Op)
    ensures ApplyOps(elem, items, [op]) == ApplyOp(elem, items, op)
  {
    assert DropLast([op]) == [];
  }

  lemma SyncedSnoc(elem: Schema, cs: seq<Value>, os: seq<Value>, pre: seq<Value>, n: Value)
    requires IdBased(elem) && UniqueKeys(elem, cs)
    requires Find(elem, pre, KeyOf(elem, n)).None?
    requires Find(elem, os, KeyOf(elem, n)).Some? && Find(elem, cs, KeyOf(elem, n)).Some?
    ensures var i := Position(elem, cs, KeyOf(elem, n));
            var p := SyncedByKey(elem, cs, os, pre);
            p[i] == cs[i] &&
            SyncedByKey(elem, cs, os, pre + [n]) ==
            p[i := Synced(elem, cs[i], Find(elem, os, KeyOf(elem, n)).value, n)]
  {
    var k, p, p' := KeyOf(elem, n), SyncedByKey(elem, cs, os, pre), SyncedByKey(elem, cs, os, pre + [n]);
    var o, i := Find(elem, os, k).value, Position(elem, cs, k);
    forall j | 0 <= j < |cs|
      ensures p'[j] == if j == i then Synced(elem, cs[j], o, n) else p[j]
      ensures j == i ==> p[j] == cs[j]
    {
      SyncedItemAt(elem, cs, os, pre, j);
      SyncedItemAt(elem, cs, os, pre + [n], j);
      FindSnoc(elem, pre, n, KeyOf(elem, cs[j]));
      if j != i {
        FindHit(elem, cs, j);
      }
    }
    assert p' == p[i := Synced(elem, cs[i], o, n)];
  }

  lemma UpsertKnown(elem: Schema, os: seq<Value>, p: seq<Value>, f: seq<Value>, n: Value, o: Value, y: Value)
    requires Find(elem, os, KeyOf(elem, n)) == Some(o)
    requires var i := Position(elem, p, KeyOf(elem, n));
             i < |p| && (if o == n then y == p[i] else y == Apply(elem, p[i], Diff(elem, o, n)))
    ensures ApplyOps(elem, p + f, Upsert(elem, os, n)) == p[Position(elem, p, KeyOf(elem, n)) := y] + f
  {
    var k := KeyOf(elem, n);
    if o == n {
      assert Upsert(elem, os, n) == [];
    } else {
      var op := Update(Id(k), Diff(elem, o, n));
      assert Upsert(elem, os, n) == [op];
      ApplySingle(elem, p + f, op);
      UpdateAt(elem, p, f, k, op.patch);
    }
  }

  lemma UpdateAt(elem: Schema, p: seq<Value>, f: seq<Value>, k: Value, d: Patch)
    requires Position(elem, p, k) < |p|
    ensures var i := Position(elem, p, k);
            ApplyOp(elem, p + f, Update(Id(k), d)) == p[i := Apply(elem, p[i], d)] + f
  {
    PositionAppend(elem, p, f, k);
    var i := Position(elem, p, k);
    assert (p + f)[i := Apply(elem, p[i], d)] == p[i := Apply(elem, p[i], d)] + f;
  }

  lemma UpsertUnknown(elem: Schema, cs: seq<Value>, os: seq<Value>, pre: seq<Value>, n: Value)
    requires IdBased(elem)
    requires Find(elem, pre, KeyOf(elem, n)).None?
    requires Find(elem, os, KeyOf(elem, n)).None? && Find(elem, cs, KeyOf(elem, n)).None?
    ensures var f := Select(elem, pre, os, false);
            ApplyOps(elem, SyncedByKey(elem, cs, os, pre) + f, Upsert(elem, os, n)) ==
            SyncedByKey(elem, cs, os, pre + [n]) + (f + [n])
  {
    var k, p, p', f := KeyOf(elem, n), SyncedByKey(elem, cs, os, pre), SyncedByKey(elem, cs, os, pre + [n]),
      Select(elem, pre, os, false);
    SyncedPosition(elem, cs, os, pre, k);
    PositionAppend(elem, p, f, k);
    FindSelect(elem, pre, os, false, k);
    ApplySingle(elem, p + f, Insert(Id(k), n));
    FindMiss(elem, cs, k);
    forall j | 0 <= j < |cs| ensures p'[j] == p[j] {
      SyncedItemAt(elem, cs, os, pre, j);
      SyncedItemAt(elem, cs, os, pre + [n], j);
      FindSnoc(elem, pre, n, KeyOf(elem, cs[j]));
    }
    assert p' == p;
    assert (p + f) + [n] == p + (f + [n]);
  }

  /** Nothing unknown shares a key with the replica. */
  lemma SyncedUnique(elem: Schema, cs: seq<Value>, os: seq<Value>, ns: seq<Value>)
    requires IdBased(elem) && UniqueKeys(elem, cs) && UniqueKeys(elem, ns)
    requires forall x | x in cs :: Find(elem, os, KeyOf(elem, x)).Some?
    ensures UniqueKeys(elem, SyncedByKey(elem, cs, os, ns))
    ensures UniqueKeys(elem, SyncedByKey(elem, cs, os, ns) + Select(elem, ns, os, false))
  {
    var p, f := SyncedByKey(elem, cs, os, ns), Select(elem, ns, os, false);
    forall i | 0 <= i < |cs| ensures KeyOf(elem, p[i]) == KeyOf(elem, cs[i]) {
      SyncedItemAt(elem, cs, os, ns, i);
    }
    SelectUnique(elem, ns, os, false);
    forall i, j | 0 <= i < |p| && 0 <= j < |f| ensures KeyOf(elem, p[i]) != KeyOf(elem, f[j]) {
      assert cs[i] in cs;
      SelectMember(elem, ns, os, false, f[j]);
    }
  }

  // Lists by index

  lemma {:induction false} ApplyDiffByIndex(elem: Schema, cs: seq<Value>, os: seq<Value>, ns: seq<Value>)
    requires !IdBased(elem)
    requires Replica(ListType(elem), List(cs), List(os)) && WellFormed(ListType(elem), List(ns))
    ensures ApplyOps(elem, cs, DiffOps(elem, os, ns)) == SyncedList(elem, cs, os, ns)
    decreases elem, 3
  {
    var n := Min(|os|, |ns|);
    var p := SyncedByIndex(elem, cs, os, ns, n);
    forall i | 0 <= i < n ensures UpdatesTo(elem, cs[i], os[i], ns[i], p[i]) {
      assert Equivalent(elem, Items(List(cs))[i], Items(List(os))[i]);
      ApplyDiff(elem, cs[i], os[i], ns[i]);
    }
    ApplyIndexOps(elem, cs, os, ns, p);
  }

  /** Updates of the common part, then inserts or removals of the tail. */
  lemma ApplyIndexOps(elem: Schema, cs: seq<Value>, os: seq<Value>, ns: seq<Value>, p: seq<Value>)
    requires !IdBased(elem) && |cs| == |os|
    requires p == SyncedByIndex(elem, cs, os, ns, Min(|os|, |ns|))
    requires forall i | 0 <= i < Min(|os|, |ns|) :: UpdatesTo(elem, cs[i], os[i], ns[i], p[i])
    requires forall i | |ns| <= i < |os| :: p[i] == cs[i]
    ensures ApplyOps(elem, cs, DiffOps(elem, os, ns)) == SyncedList(elem, cs, os, ns)
  {
    var n := Min(|os|, |ns|);
    ApplyUpdates(elem, cs, os, ns, p, n);
    SamePrefix(cs, os, ns, p);
    if |ns| > |os| {
      GrowTail(elem, cs, UpdatesUpTo(elem, os, ns, n), p, ns);
    } else {
      ShrinkTail(elem, cs, UpdatesUpTo(elem, os, ns, n), p, |ns|);
    }
    SyncedListByIndex(elem, cs, os, ns);
  }

  lemma SamePrefix(cs: seq<Value>, os: seq<Value>, ns: seq<Value>, p: seq<Value>)
    requires |p| == |cs| == |os|
    requires forall i | |ns| <= i < |os| :: p[i] == cs[i]
    ensures var n := Min(|os|, |ns|); p[..n] + cs[n..] == p
  {
  }

  lemma SyncedListByIndex(elem: Schema, cs: seq<Value>, os: seq<Value>, ns: seq<Value>)
    requires !IdBased(elem) && |cs| == |os|
    ensures var p := SyncedByIndex(elem, cs, os, ns, Min(|os|, |ns|));
            SyncedList(elem, cs, os, ns) == if |ns| > |os| then p + ns[|os|..] else p[..|ns|]
  {
    var p := SyncedByIndex(elem, cs, os, ns, Min(|os|, |ns|));
    if |ns| == |os| {
      assert ns[|os|..] == [] && p + [] == p == p[..|ns|];
    }
  }

  lemma GrowTail(elem: Schema, cs: seq<Value>, u: seq<Op>, p: seq<Value>, ns: seq<Value>)
    requires ApplyOps(elem, cs, u) == p && |p| <= |ns|
    ensures ApplyOps(elem, cs, u + InsertsUpTo(ns, |p|, |ns|)) == p + ns[|p|..]
  {
    MergeLaws.ApplyOpsAppend(elem, cs, u, InsertsUpTo(ns, |p|, |ns|));
    ApplyInserts(elem, p, ns, |ns|);
  }

  lemma ShrinkTail(elem: Schema, cs: seq<Value>, u: seq<Op>, p: seq<Value>, lo: nat)
    requires ApplyOps(elem, cs, u) == p && lo <= |p|
    ensures ApplyOps(elem, cs, u + RemovesDownTo(lo, |p|)) == p[..lo]
  {
    MergeLaws.ApplyOpsAppend(elem, cs, u, RemovesDownTo(lo, |p|));
    ApplyRemoves(elem, p, lo);
  }

  /** What the update operation for one index, if there is one, makes of `c`. */
  ghost predicate UpdatesTo(elem: Schema, c: Value, o: Value, n: Value, y: Value) {
    y == if o == n then c else Apply(elem, c, Diff(elem, o, n))
  }

  lemma {:induction false} ApplyUpdates(
      elem: Schema, cs: seq<Value>, os: seq<Value>, ns: seq<Value>, ys: seq<Value>, n: nat)
    requires n <= |cs| == |os| == |ys| && n <= |ns|
    requires forall i | 0 <= i < n :: UpdatesTo(elem, cs[i], os[i], ns[i], ys[i])
    ensures ApplyOps(elem, cs, UpdatesUpTo(elem, os, ns, n)) == ys[..n] + cs[n..]
  {
    if n > 0 {
      var i := n - 1;
      ApplyUpdates(elem, cs, os, ns, ys, i);
      var p := ys[..i] + cs[i..];
      assert UpdatesTo(elem, cs[i], os[i], ns[i], ys[i]);
      assert p[i] == cs[i];
      UpdateOne(elem, cs, os, ns, i, p, ys[i]);
      assert p[i := ys[i]] == ys[..n] + cs[n..];
    }
  }

  lemma UpdateOne(
      elem: Schema, cs: seq<Value>, os: seq<Value>, ns: seq<Value>, i: nat, p: seq<Value>, y: Value)
    requires i < |os| && i < |ns| && i < |p|
    requires ApplyOps(elem, cs, UpdatesUpTo(elem, os, ns, i)) == p
    requires UpdatesTo(elem, p[i], os[i], ns[i], y)
    ensures ApplyOps(elem, cs, UpdatesUpTo(elem, os, ns, i + 1)) == p[i := y]
  {
    var u := UpdatesUpTo(elem, os, ns, i);
    if os[i] != ns[i] {
      var op := Update(At(i), Diff(elem, os[i], ns[i]));
      assert UpdatesUpTo(elem, os, ns, i + 1) == u + [op];
      assert DropLast(u + [op]) == u;
    } else {
      assert UpdatesUpTo(elem, os, ns, i + 1) == u;
    }
  }

  lemma {:induction false} ApplyInserts(elem: Schema, p: seq<Value>, ns: seq<Value>, n: nat)
    requires |p| <= n <= |ns|
    ensures ApplyOps(elem, p, InsertsUpTo(ns, |p|, n)) == p + ns[|p|..n]
  {
    if n > |p| {
      ApplyInserts(elem, p, ns, n - 1);
      var ops, op, mid := InsertsUpTo(ns, |p|, n - 1), Insert(At(n - 1), ns[n - 1]), ns[|p|..n - 1];
      assert InsertsUpTo(ns, |p|, n) == ops + [op];
      assert DropLast(ops + [op]) == ops;
      InsertTail(elem, p + mid, ns[n - 1]);
      SliceSnoc(p, ns, n);
    }
  }

  lemma InsertTail(elem: Schema, q: seq<Value>, v: Value)
    ensures ApplyOp(elem, q, Insert(At(|q|), v)) == q + [v]
  {
    assert q[..|q|] == q && q[|q|..] == [];
  }

  lemma SliceSnoc(p: seq<Value>, ns: seq<Value>, n: nat)
    requires |p| < n <= |ns|
    ensures (p + ns[|p|..n - 1]) + [ns[n - 1]] == p + ns[|p|..n]
  {
  }

  lemma {:induction false} ApplyRemoves(elem: Schema, p: seq<Value>, lo: nat)
    requires lo <= |p|
    ensures ApplyOps(elem, p, RemovesDownTo(lo, |p|)) == p[..lo]
    decreases |p| - lo
  {
    if lo < |p| {
      ApplyRemoves(elem, p, lo + 1);
      var ops, op := RemovesDownTo(lo + 1, |p|), Remove(At(lo));
      assert RemovesDownTo(lo, |p|) == ops + [op];
      assert DropLast(ops + [op]) == ops;
      RemoveTail(elem, p[..lo + 1]);
      assert p[..lo + 1][..lo] == p[..lo];
    }
  }

  lemma RemoveTail(elem: Schema, q: seq<Value>)
    requires q != []
    ensures ApplyOp(elem, q, Remove(At(|q| - 1))) == q[..|q| - 1]
  {
  }
}
