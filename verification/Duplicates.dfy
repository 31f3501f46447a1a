/**
 Keyed lists whose keys are not distinct: what a replica makes of the diff of
 any two such lists, and when elements are lost or stay behind.
 */
module Duplicates {
  import opened Prelude
  import opened Schemas
  import opened Patches
  import opened KeyedLists
  import opened KeyedOps
  import opened Sync
  import MergeLaws

  /** Element `x` after the diff from `o` to each new element with its key, one after the other. */
  function PatchedInTurn(elem: Schema, x: Value, o: Value, ns: seq<Value>, k: Value): Value {
    if ns == [] then x
    else
      var y, n := PatchedInTurn(elem, x, o, DropLast(ns), k), Last(ns);
      if KeyOf(elem, n) == k && n != o then Apply(elem, y, Diff(elem, o, n)) else y
  }

  /**
   What the upserts make of a replica's elements `g` of one key; `o` is the
   first old element of that key.  Only the first of `g` is concerned.
   */
  function Sent(elem: Schema, g: seq<Value>, o: Option<Value>, ns: seq<Value>, k: Value): seq<Value> {
    match (o, LastWith(elem, ns, k))
    case (None, Some(n)) => [n] + Skip(g, 1)
    case (None, None) => g
    case (Some(m), _) => if g == [] then [] else [PatchedInTurn(elem, g[0], m, ns, k)] + g[1..]
  }

  ghost predicate SameKeys(elem: Schema, a: seq<Value>, b: seq<Value>) {
    forall k :: Find(elem, a, k).Some? == Find(elem, b, k).Some?
  }

  lemma Occurs(elem: Schema, items: seq<Value>, k: Value)
    ensures Find(elem, items, k).Some? <==> Count(elem, items, k) > 0
  {
    GroupHead(elem, items, k);
  }

  lemma {:induction false} LastOccurs(elem: Schema, items: seq<Value>, k: Value)
    ensures LastWith(elem, items, k).Some? <==> Count(elem, items, k) > 0
  {
    if items != [] {
      LastOccurs(elem, DropLast(items), k);
    }
  }

  // The operations of a diff, key by key

  lemma SingleGroupOp(elem: Schema, g: seq<Value>, op: Op, k: Value)
    ensures GroupOps(elem, g, [op], k) == if op.at == Id(k) then GroupOp(elem, g, op) else g
    ensures GroupOps(elem, g, [], k) == g
  {
    assert DropLast([op]) == [];
  }

  lemma UpsertGroup(elem: Schema, g: seq<Value>, os: seq<Value>, n: Value, k: Value)
    ensures var o := Find(elem, os, k);
            GroupOps(elem, g, Upsert(elem, os, n), k) ==
            if KeyOf(elem, n) != k then g
            else if o.None? then [n] + Skip(g, 1)
            else if o.value == n || g == [] then g
            else [Apply(elem, g[0], Diff(elem, o.value, n))] + g[1..]
  {
    var ops := Upsert(elem, os, n);
    if ops != [] {
      assert ops == [ops[0]];
      SingleGroupOp(elem, g, ops[0], k);
    }
  }

  lemma SentSnoc(elem: Schema, g: seq<Value>, o: Option<Value>, ns: seq<Value>, n: Value, k: Value)
    ensures var before := Sent(elem, g, o, ns, k);
            Sent(elem, g, o, ns + [n], k) ==
            if KeyOf(elem, n) != k then before
            else if o.None? then [n] + Skip(before, 1)
            else if o.value == n || before == [] then before
            else [Apply(elem, before[0], Diff(elem, o.value, n))] + before[1..]
  {
    assert DropLast(ns + [n]) == ns;
  }

  lemma {:induction false} NothingSent(elem: Schema, g: seq<Value>, o: Option<Value>, ns: seq<Value>, k: Value)
    requires Count(elem, ns, k) == 0
    ensures Sent(elem, g, o, ns, k) == g
  {
    if ns == [] {
      assert g != [] ==> [g[0]] + g[1..] == g;
    } else {
      NothingSent(elem, g, o, DropLast(ns), k);
    }
  }

  lemma UpsertsSnoc(elem: Schema, os: seq<Value>, pre: seq<Value>, n: Value)
    ensures Upserts(elem, os, pre + [n]) == Upserts(elem, os, pre) + Upsert(elem, os, n)
  {
    assert DropLast(pre + [n]) == pre;
  }

  lemma {:induction false} UpsertsGroup(elem: Schema, g: seq<Value>, os: seq<Value>, ns: seq<Value>, k: Value)
    ensures GroupOps(elem, g, Upserts(elem, os, ns), k) == Sent(elem, g, Find(elem, os, k), ns, k)
  {
    if ns == [] {
      NothingSent(elem, g, Find(elem, os, k), ns, k);
    } else {
      UpsertsGroup(elem, g, os, DropLast(ns), k);
      UpsertsGroupStep(elem, g, os, DropLast(ns), Last(ns), k);
      assert ns == DropLast(ns) + [Last(ns)];
    }
  }

  lemma UpsertsGroupStep(elem: Schema, g: seq<Value>, os: seq<Value>, ns: seq<Value>, n: Value, k: Value)
    requires GroupOps(elem, g, Upserts(elem, os, ns), k) == Sent(elem, g, Find(elem, os, k), ns, k)
    ensures GroupOps(elem, g, Upserts(elem, os, ns + [n]), k) == Sent(elem, g, Find(elem, os, k), ns + [n], k)
  {
    UpsertsSnoc(elem, os, ns, n);
    GroupOpsAppend(elem, g, Upserts(elem, os, ns), Upsert(elem, os, n), k);
    UpsertGroup(elem, Sent(elem, g, Find(elem, os, k), ns, k), os, n, k);
    SentSnoc(elem, g, Find(elem, os, k), ns, n, k);
  }

  lemma SkipMore(g: seq<Value>, n: nat)
    ensures Skip(Skip(g, n), 1) == Skip(g, n + 1)
  {
  }

  /** The removal, if there is one, for one old element. */
  function RemovalOf(elem: Schema, o: Value, ns: seq<Value>): seq<Op> {
    if Find(elem, ns, KeyOf(elem, o)).None? then [Remove(Id(KeyOf(elem, o)))] else []
  }

  lemma RemovalGroup(elem: Schema, g: seq<Value>, o: Value, ns: seq<Value>, k: Value)
    ensures GroupOps(elem, g, RemovalOf(elem, o, ns), k) ==
            if KeyOf(elem, o) == k && Find(elem, ns, k).None? then Skip(g, 1) else g
  {
    SingleGroupOp(elem, g, Remove(Id(KeyOf(elem, o))), k);
  }

  /** One removal for each old element whose key does not occur any more. */
  lemma {:induction false} RemovalsGroup(elem: Schema, g: seq<Value>, os: seq<Value>, ns: seq<Value>, k: Value)
    ensures GroupOps(elem, g, Removals(elem, os, ns), k) ==
            if Find(elem, ns, k).Some? then g else Skip(g, Count(elem, os, k))
  {
    if os != [] {
      var front, o := DropLast(os), Last(os);
      RemovalsGroup(elem, g, front, ns, k);
      GroupOpsAppend(elem, g, Removals(elem, front, ns), RemovalOf(elem, o, ns), k);
      RemovalGroup(elem, GroupOps(elem, g, Removals(elem, front, ns), k), o, ns, k);
      SkipMore(g, Count(elem, front, k));
      assert Removals(elem, os, ns) == Removals(elem, front, ns) + RemovalOf(elem, o, ns);
    }
  }

  // Main results

  /**
   For any old and new list and any replica, duplicate keys or not: what the
   replica holds under each key.  Of a key that occurs in the new list, only
   the first element changes: it is the last one sent if the key was unknown,
   and otherwise has been patched by the diff to each new element in turn.  Of
   any other key as many elements go as the old list had.
   */
  lemma DuplicateKeys(elem: Schema, cs: seq<Value>, os: seq<Value>, ns: seq<Value>, k: Value)
    requires IdBased(elem)
    ensures Group(elem, ApplyOps(elem, cs, DiffOps(elem, os, ns)), k) ==
            if Count(elem, ns, k) > 0 then Sent(elem, Group(elem, cs, k), Find(elem, os, k), ns, k)
            else Skip(Group(elem, cs, k), Count(elem, os, k))
  {
    var up, down, g := Upserts(elem, os, ns), Removals(elem, os, ns), Group(elem, cs, k);
    DiffOpsKeepKeys(elem, os, ns);
    ApplyOpsByKey(elem, cs, up + down, k);
    GroupOpsAppend(elem, g, up, down, k);
    UpsertsGroup(elem, g, os, ns, k);
    RemovalsGroup(elem, Sent(elem, g, Find(elem, os, k), ns, k), os, ns, k);
    Occurs(elem, ns, k);
    LastOccurs(elem, ns, k);
    if Count(elem, ns, k) == 0 {
      NothingSent(elem, g, Find(elem, os, k), ns, k);
    }
  }

  /** How many elements of each key the replica holds, if it has the keys of the old list. */
  lemma Multiplicity(elem: Schema, cs: seq<Value>, os: seq<Value>, ns: seq<Value>, k: Value)
    requires IdBased(elem) && SameKeys(elem, cs, os)
    ensures var (c, o) := (Count(elem, cs, k), Count(elem, os, k));
            Count(elem, ApplyOps(elem, cs, DiffOps(elem, os, ns)), k) ==
            if Count(elem, ns, k) > 0 then (if c == 0 then 1 else c) else (if c <= o then 0 else c - o)
  {
    DuplicateKeys(elem, cs, os, ns, k);
    Occurs(elem, cs, k);
    Occurs(elem, os, k);
    LastOccurs(elem, ns, k);
  }

  /**
   Every key arrives with the multiplicity it has in the new list exactly if
   the replica already had as many elements of it, or none and one is new; and
   it had no more of a removed key than the old list.
   */
  lemma ArriveExactly(elem: Schema, cs: seq<Value>, os: seq<Value>, ns: seq<Value>)
    requires IdBased(elem) && SameKeys(elem, cs, os)
    ensures var r := ApplyOps(elem, cs, DiffOps(elem, os, ns));
            (forall k :: Count(elem, r, k) == Count(elem, ns, k)) <==>
            forall k :: Retained(Count(elem, cs, k), Count(elem, os, k), Count(elem, ns, k))
  {
    var r := ApplyOps(elem, cs, DiffOps(elem, os, ns));
    forall k
      ensures Count(elem, r, k) == Count(elem, ns, k) <==>
              Retained(Count(elem, cs, k), Count(elem, os, k), Count(elem, ns, k))
    {
      Multiplicity(elem, cs, os, ns, k);
    }
  }

  /** Of one key: `c` elements in the replica, `o` in the old and `n` in the new list. */
  predicate Retained(c: nat, o: nat, n: nat) {
    if n == 0 then c <= o else n == if c == 0 then 1 else c
  }

  /** A replica with distinct keys stays one, and has the keys of the new list. */
  lemma DistinctReplica(elem: Schema, cs: seq<Value>, os: seq<Value>, ns: seq<Value>)
    requires IdBased(elem) && UniqueKeys(elem, cs) && SameKeys(elem, cs, os)
    ensures var r := ApplyOps(elem, cs, DiffOps(elem, os, ns));
            UniqueKeys(elem, r) && SameKeys(elem, r, ns)
  {
    var r := ApplyOps(elem, cs, DiffOps(elem, os, ns));
    forall k ensures Count(elem, r, k) <= 1 && (Count(elem, r, k) > 0 <==> Count(elem, ns, k) > 0) {
      Multiplicity(elem, cs, os, ns, k);
      UniqueCount(elem, cs, k);
      Occurs(elem, cs, k);
      Occurs(elem, os, k);
    }
    CountUnique(elem, r);
    forall k ensures Find(elem, r, k).Some? == Find(elem, ns, k).Some? {
      Occurs(elem, r, k);
      Occurs(elem, ns, k);
    }
  }

  lemma {:induction false} UniqueCount(elem: Schema, items: seq<Value>, k: Value)
    requires UniqueKeys(elem, items)
    ensures Count(elem, items, k) <= 1
  {
    if items != [] {
      UniqueCount(elem, DropLast(items), k);
      LastIsOnly(elem, items);
      Occurs(elem, DropLast(items), KeyOf(elem, Last(items)));
    }
  }

  lemma {:induction false} CountUnique(elem: Schema, items: seq<Value>)
    requires forall k :: Count(elem, items, k) <= 1
    ensures UniqueKeys(elem, items)
  {
    if items != [] {
      var front, x := DropLast(items), Last(items);
      forall k ensures Count(elem, front, k) <= 1 {
        assert Count(elem, items, k) <= 1;
      }
      CountUnique(elem, front);
      assert Count(elem, items, KeyOf(elem, x)) <= 1;
      Occurs(elem, front, KeyOf(elem, x));
      FindMiss(elem, front, KeyOf(elem, x));
      assert items == front + [x];
      UniqueSnoc(elem, front, x);
    }
  }

  // How many elements there are in all

  function KeySet(elem: Schema, items: seq<Value>): set<Value> {
    set x | x in items :: KeyOf(elem, x)
  }

  lemma {:induction false} KeyCount(elem: Schema, items: seq<Value>)
    ensures |KeySet(elem, items)| <= |items|
    ensures |KeySet(elem, items)| == |items| <==> UniqueKeys(elem, items)
  {
    if items != [] {
      var front, x := DropLast(items), Last(items);
      assert items == front + [x];
      KeyCount(elem, front);
      KeySetSnoc(elem, front, x);
      UniqueSnoc(elem, front, x);
    }
  }

  lemma KeySetSnoc(elem: Schema, items: seq<Value>, x: Value)
    ensures KeySet(elem, items + [x]) == KeySet(elem, items) + {KeyOf(elem, x)}
  {
  }

  lemma UniqueSnoc(elem: Schema, items: seq<Value>, x: Value)
    ensures UniqueKeys(elem, items + [x]) <==> UniqueKeys(elem, items) && KeyOf(elem, x) !in KeySet(elem, items)
  {
    var all, k := items + [x], KeyOf(elem, x);
    forall i | 0 <= i < |items| ensures all[i] == items[i] && KeyOf(elem, items[i]) in KeySet(elem, items) {
      assert items[i] in items;
    }
    if k in KeySet(elem, items) {
      var y :| y in items && KeyOf(elem, y) == k;
      var i :| 0 <= i < |items| && items[i] == y;
      assert KeyOf(elem, all[i]) == KeyOf(elem, all[|items|]);
    }
    if UniqueKeys(elem, all) {
      forall i, j | 0 <= i < j < |items| ensures KeyOf(elem, items[i]) != KeyOf(elem, items[j]) {
        assert KeyOf(elem, all[i]) != KeyOf(elem, all[j]);
      }
    }
  }

  lemma KeySetSame(elem: Schema, a: seq<Value>, b: seq<Value>)
    requires SameKeys(elem, a, b)
    ensures KeySet(elem, a) == KeySet(elem, b)
  {
    forall k ensures k in KeySet(elem, a) <==> k in KeySet(elem, b) {
      FindMiss(elem, a, k);
      FindMiss(elem, b, k);
    }
  }

  /** A replica with distinct keys has one element for each key: as many as the new list iff that is distinct too. */
  lemma LostExactly(elem: Schema, cs: seq<Value>, os: seq<Value>, ns: seq<Value>)
    requires IdBased(elem) && UniqueKeys(elem, cs) && SameKeys(elem, cs, os)
    ensures var r := ApplyOps(elem, cs, DiffOps(elem, os, ns));
            |r| <= |ns| && (|r| == |ns| <==> UniqueKeys(elem, ns))
  {
    var r := ApplyOps(elem, cs, DiffOps(elem, os, ns));
    DistinctReplica(elem, cs, os, ns);
    KeySetSame(elem, r, ns);
    KeyCount(elem, r);
    KeyCount(elem, ns);
  }

  // Inputs of each kind

  /** Distinct keys are needed: of two new elements with one key only the second arrives. */
  lemma DuplicateKeysLoseElements(elem: Schema, a: Value, b: Value)
    requires IdBased(elem) && KeyOf(elem, a) == KeyOf(elem, b)
    ensures var sch := ListType(elem);
            Apply(sch, List([]), Diff(sch, List([]), List([a, b]))) == List([b])
  {
    var k := KeyOf(elem, a);
    var i, j := Insert(Id(k), a), Insert(Id(k), b);
    TwoUpserts(elem, a, b);
    assert Removals(elem, [], [a, b]) == [];
    assert DiffOps(elem, [], [a, b]) == [i] + [j];
    assert Diff(ListType(elem), List([]), List([a, b])) == Incremental([i] + [j]);
    TwoInserts(elem, a, b);
    assert Apply(ListType(elem), List([]), Incremental([i] + [j])) == List(ApplyOps(elem, [], [i] + [j]));
  }

  lemma TwoUpserts(elem: Schema, a: Value, b: Value)
    ensures Upserts(elem, [], [a, b]) == [Insert(Id(KeyOf(elem, a)), a)] + [Insert(Id(KeyOf(elem, b)), b)]
  {
    UpsertsSnoc(elem, [], [], a);
    UpsertsSnoc(elem, [], [a], b);
    assert [] + [a] == [a] && [a] + [b] == [a, b];
    assert Find(elem, [], KeyOf(elem, a)) == None && Find(elem, [], KeyOf(elem, b)) == None;
    assert Upserts(elem, [], []) == [];
  }

  lemma TwoInserts(elem: Schema, a: Value, b: Value)
    requires KeyOf(elem, a) == KeyOf(elem, b)
    ensures var k := KeyOf(elem, a);
            ApplyOps(elem, [], [Insert(Id(k), a)] + [Insert(Id(k), b)]) == [b]
  {
    var k := KeyOf(elem, a);
    var i, j := Insert(Id(k), a), Insert(Id(k), b);
    MergeLaws.ApplyOpsAppend(elem, [], [i], [j]);
    ApplySingle(elem, [], i);
    ApplySingle(elem, [a], j);
    assert [a][0 := b] == [b];
  }

  /** A replica that is a copy of a list with a duplicate key keeps the second element, though the new list has one. */
  lemma StaleElementStays(elem: Schema, a: Value, b: Value, n: Value)
    requires IdBased(elem) && KeyOf(elem, a) == KeyOf(elem, n) == KeyOf(elem, b)
    ensures UniqueKeys(elem, [n])
    ensures var g := Group(elem, ApplyOps(elem, [a, b], DiffOps(elem, [a, b], [n])), KeyOf(elem, n));
            |g| == 2 && g[1] == b
  {
    var k := KeyOf(elem, n);
    GroupSnoc(elem, [a], b, k);
    GroupOne(elem, a, k);
    GroupOne(elem, n, k);
    assert [a] + [b] == [a, b];
    Occurs(elem, [a, b], k);
    DuplicateKeys(elem, [a, b], [a, b], [n], k);
  }

  /** An element known before: two new ones with its key arrive as a mixture that is neither of them. */
  lemma DuplicateKeysMix(k: Value, x: Value, y: Value, x': Value, y': Value)
    requires x != x' && y != y'
    ensures var elem := RecordType([Key, Mutable(LeafType), Mutable(LeafType)]);
            var os, ns := [Record([k, x, y])], [Record([k, x', y]), Record([k, x, y'])];
            Find(elem, ApplyOps(elem, os, DiffOps(elem, os, ns)), k) == Some(Record([k, x', y'])) &&
            Record([k, x', y']) !in ns
  {
    var elem := RecordType([Key, Mutable(LeafType), Mutable(LeafType)]);
    var o, a, b, r := Record([k, x, y]), Record([k, x', y]), Record([k, x, y']), Record([k, x', y']);
    assert a.fields[2] != r.fields[2] && b.fields[1] != r.fields[1];
    assert KeyOf(elem, o) == k && KeyOf(elem, a) == k && KeyOf(elem, b) == k;
    MixedInTurn(k, x, y, x', y');
    OneByTwo(elem, o, a, b, k);
    GroupHead(elem, ApplyOps(elem, [o], DiffOps(elem, [o], [a, b])), k);
  }

  /** One known element and two new ones of its key. */
  lemma OneByTwo(elem: Schema, o: Value, a: Value, b: Value, k: Value)
    requires IdBased(elem) && KeyOf(elem, o) == k && KeyOf(elem, a) == k && KeyOf(elem, b) == k
    ensures Group(elem, ApplyOps(elem, [o], DiffOps(elem, [o], [a, b])), k) ==
            [PatchedInTurn(elem, o, o, [a, b], k)]
  {
    assert Find(elem, [o], k) == Some(o) && Find(elem, [a, b], k) == Some(a);
    GroupOne(elem, o, k);
    Occurs(elem, [a, b], k);
    DuplicateKeys(elem, [o], [o], [a, b], k);
  }

  lemma MixedInTurn(k: Value, x: Value, y: Value, x': Value, y': Value)
    requires x != x' && y != y'
    ensures var elem := RecordType([Key, Mutable(LeafType), Mutable(LeafType)]);
            var o := Record([k, x, y]);
            PatchedInTurn(elem, o, o, [Record([k, x', y]), Record([k, x, y'])], k) == Record([k, x', y'])
  {
    var elem := RecordType([Key, Mutable(LeafType), Mutable(LeafType)]);
    var o, a, b := Record([k, x, y]), Record([k, x', y]), Record([k, x, y']);
    assert a.fields[1] != o.fields[1] && b.fields[2] != o.fields[2];
    TwoFieldDiff(k, x, y, x', y, x, y);
    TwoFieldDiff(k, x, y, x, y', x', y);
    assert KeyOf(elem, a) == k && KeyOf(elem, b) == k;
    assert DropLast([a, b]) == [a] && DropLast([a]) == [];
    assert PatchedInTurn(elem, o, o, [a], k) == a;
  }

  /** A diff changes the fields in which old and new differ, and no other. */
  lemma TwoFieldDiff(k: Value, x: Value, y: Value, x': Value, y': Value, v: Value, w: Value)
    requires x != x' || y != y'
    ensures var elem := RecordType([Key, Mutable(LeafType), Mutable(LeafType)]);
            Apply(elem, Record([k, v, w]), Diff(elem, Record([k, x, y]), Record([k, x', y']))) ==
            Record([k, if x != x' then x' else v, if y != y' then y' else w])
  {
    var fs := [Key, Mutable(LeafType), Mutable(LeafType)];
    var ps := DiffFields(fs, Record([k, x, y]), Record([k, x', y']));
    assert ps == [KeyIs(k), if x != x' then Replace(x') else Keep, if y != y' then Replace(y') else Keep];
    assert IsSome(ps[1]) || IsSome(ps[2]);
    assert HasChanges(fs, ps);
    assert ApplyFields(fs, Record([k, v, w]), Fields(ps)) ==
           [k, if x != x' then x' else v, if y != y' then y' else w];
  }
}
