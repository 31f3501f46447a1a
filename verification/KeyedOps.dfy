/** What operations by key do to the elements of each key, in lists whose keys need not be distinct. */
module KeyedOps {
  import opened Prelude
  import opened Schemas
  import opened Patches
  import opened KeyedLists
  import MergeLaws

  /** The items with key `k`, in order. */
  function Group(elem: Schema, items: seq<Value>, k: Value): (r: seq<Value>)
    ensures |r| == Count(elem, items, k)
  {
    if items == [] then []
    else Group(elem, DropLast(items), k) + if KeyOf(elem, Last(items)) == k then [Last(items)] else []
  }

  /** Without the first `n`, or all if there are fewer. */
  function Skip(g: seq<Value>, n: nat): seq<Value> {
    if n <= |g| then g[n..] else []
  }

  /** The operation replaces an element by one of the same key, `op.at.key`. */
  predicate KeepsKey(elem: Schema, op: Op) {
    op.at.Id? &&
    match op
    case Insert(_, v) => KeyOf(elem, v) == op.at.key
    case Update(_, p) => KeepsKeyField(elem, p, op.at.key)
    case Remove(_) => true
  }

  predicate KeepsKeyField(elem: Schema, p: Patch, k: Value) {
    (elem.RecordType? && p.Fields? && KeyIndex(elem.fields) < |elem.fields| &&
     SubPatch(p, KeyIndex(elem.fields)).KeyIs?) ==>
      SubPatch(p, KeyIndex(elem.fields)).key == k
  }

  /** The effect of one operation on the items of its key: it concerns the first of them. */
  function GroupOp(elem: Schema, g: seq<Value>, op: Op): seq<Value> {
    match op
    case Insert(_, v) => [v] + Skip(g, 1)
    case Remove(_) => Skip(g, 1)
    case Update(_, p) => if g == [] then [] else [Apply(elem, g[0], p)] + g[1..]
  }

  function GroupOps(elem: Schema, g: seq<Value>, ops: seq<Op>, k: Value): seq<Value> {
    if ops == [] then g
    else
      var g', op := GroupOps(elem, g, DropLast(ops), k), Last(ops);
      if op.at == Id(k) then GroupOp(elem, g', op) else g'
  }

  // Sequences

  lemma NothingFirst(m: seq<Value>, b: seq<Value>)
    ensures [] + m + b == m + b
  {
  }

  lemma NothingBetween(a: seq<Value>, b: seq<Value>)
    ensures a + [] + b == a + b
  {
  }

  lemma Splice(items: seq<Value>, i: nat, v: Value)
    requires i < |items|
    ensures items[i := v] == items[..i] + [v] + items[i + 1..]
  {
  }

  lemma SkipHead(x: Value, g: seq<Value>)
    ensures Skip([x] + g, 1) == g
  {
  }

  // Groups of items

  lemma GroupSnoc(elem: Schema, items: seq<Value>, x: Value, k: Value)
    ensures Group(elem, items + [x], k) ==
            if KeyOf(elem, x) == k then Group(elem, items, k) + [x] else Group(elem, items, k)
  {
    assert DropLast(items + [x]) == items;
  }

  lemma {:induction false} GroupAppend(elem: Schema, a: seq<Value>, b: seq<Value>, k: Value)
    ensures Group(elem, a + b, k) == Group(elem, a, k) + Group(elem, b, k)
  {
    if b == [] {
      assert a + b == a;
    } else {
      GroupAppend(elem, a, DropLast(b), k);
      Reassociate(a, DropLast(b), Last(b));
      GroupAppendSnoc(elem, a, DropLast(b), Last(b), k);
      assert b == DropLast(b) + [Last(b)];
    }
  }

  lemma GroupAppendSnoc(elem: Schema, a: seq<Value>, b: seq<Value>, x: Value, k: Value)
    requires Group(elem, a + b, k) == Group(elem, a, k) + Group(elem, b, k)
    ensures Group(elem, (a + b) + [x], k) == Group(elem, a, k) + Group(elem, b + [x], k)
  {
    GroupSnoc(elem, a + b, x, k);
    GroupSnoc(elem, b, x, k);
    Reassociate(Group(elem, a, k), Group(elem, b, k), x);
  }

  lemma {:induction false} GroupNone(elem: Schema, items: seq<Value>, k: Value)
    requires forall x | x in items :: KeyOf(elem, x) != k
    ensures Group(elem, items, k) == []
  {
    if items != [] {
      GroupNone(elem, DropLast(items), k);
    }
  }

  lemma GroupOne(elem: Schema, x: Value, k: Value)
    ensures Group(elem, [x], k) == if KeyOf(elem, x) == k then [x] else []
  {
    assert DropLast([x]) == [];
  }

  lemma GroupParts(elem: Schema, a: seq<Value>, m: seq<Value>, b: seq<Value>, k: Value)
    ensures Group(elem, a + m + b, k) == Group(elem, a, k) + Group(elem, m, k) + Group(elem, b, k)
  {
    GroupAppend(elem, a + m, b, k);
    GroupAppend(elem, a, m, k);
  }

  lemma Split(items: seq<Value>, i: nat)
    requires i < |items|
    ensures items == items[..i] + [items[i]] + items[i + 1..]
  {
  }

  lemma GroupAt(elem: Schema, items: seq<Value>, i: nat, k: Value)
    requires i < |items|
    ensures Group(elem, items, k) ==
            Group(elem, items[..i], k) + (if KeyOf(elem, items[i]) == k then [items[i]] else []) +
            Group(elem, items[i + 1..], k)
  {
    Split(items, i);
    GroupParts(elem, items[..i], [items[i]], items[i + 1..], k);
    GroupOne(elem, items[i], k);
  }

  /** Before the first item with key `k` there is none. */
  lemma GroupBefore(elem: Schema, items: seq<Value>, k: Value)
    ensures Group(elem, items[..Position(elem, items, k)], k) == []
  {
    PositionIsFirst(elem, items, k);
    GroupNone(elem, items[..Position(elem, items, k)], k);
  }

  /** The first item with key `k` is the head of its group. */
  lemma GroupHead(elem: Schema, items: seq<Value>, k: Value)
    ensures var i := Position(elem, items, k);
            Group(elem, items, k) == if i < |items| then [items[i]] + Group(elem, items[i + 1..], k) else []
    ensures Find(elem, items, k) == if Group(elem, items, k) == [] then None else Some(Group(elem, items, k)[0])
  {
    var i := Position(elem, items, k);
    GroupBefore(elem, items, k);
    if i < |items| {
      GroupAt(elem, items, i, k);
      NothingFirst([items[i]], Group(elem, items[i + 1..], k));
    } else {
      assert items[..i] == items;
    }
  }

  lemma GroupTail(elem: Schema, items: seq<Value>, k: Value, i: nat)
    requires i == Position(elem, items, k) < |items|
    ensures Skip(Group(elem, items, k), 1) == Group(elem, items[i + 1..], k)
  {
    GroupHead(elem, items, k);
    SkipHead(items[i], Group(elem, items[i + 1..], k));
  }

  lemma GroupFrom(elem: Schema, pre: seq<Value>, ys: seq<Value>, b: seq<Value>, k: Value)
    requires Group(elem, pre, k) == [] && Group(elem, ys, k) == ys
    ensures Group(elem, pre + ys + b, k) == ys + Group(elem, b, k)
  {
    GroupParts(elem, pre, ys, b, k);
    NothingFirst(ys, Group(elem, b, k));
  }

  /** Putting other items of key `k`, or none, in place of the first one. */
  lemma ReplaceOwn(elem: Schema, items: seq<Value>, ys: seq<Value>, k: Value, i: nat)
    requires i == Position(elem, items, k) < |items| && Group(elem, ys, k) == ys
    ensures Group(elem, items[..i] + ys + items[i + 1..], k) == ys + Skip(Group(elem, items, k), 1)
  {
    GroupBefore(elem, items, k);
    GroupFrom(elem, items[..i], ys, items[i + 1..], k);
    GroupTail(elem, items, k, i);
  }

  /** Putting items of other keys, or none, in place of one of another key. */
  lemma ReplaceOther(elem: Schema, items: seq<Value>, ys: seq<Value>, k: Value, i: nat)
    requires i < |items| && KeyOf(elem, items[i]) != k && Group(elem, ys, k) == []
    ensures Group(elem, items[..i] + ys + items[i + 1..], k) == Group(elem, items, k)
  {
    GroupParts(elem, items[..i], ys, items[i + 1..], k);
    GroupAt(elem, items, i, k);
  }

  // Operations by key

  lemma PatchedKey(elem: Schema, x: Value, p: Patch)
    requires IdBased(elem) && KeepsKeyField(elem, p, KeyOf(elem, x))
    ensures KeyOf(elem, Apply(elem, x, p)) == KeyOf(elem, x)
  {
    var i := KeyIndex(elem.fields);
    if i < |elem.fields| && p.Fields? {
      MergeLaws.AppliedField(elem, x, p, i);
    }
  }

  /** What an operation puts in place of the item it concerns. */
  function Replacement(elem: Schema, x: Value, op: Op): seq<Value> {
    match op
    case Insert(_, v) => [v]
    case Remove(_) => []
    case Update(_, p) => [Apply(elem, x, p)]
  }

  lemma ApplyOpFound(elem: Schema, items: seq<Value>, op: Op, k: Value)
    requires IdBased(elem) && KeepsKey(elem, op) && Position(elem, items, op.at.key) < |items|
    ensures var ys := Replacement(elem, items[Position(elem, items, op.at.key)], op);
            Group(elem, ApplyOp(elem, items, op), k) ==
            if op.at == Id(k) then ys + Skip(Group(elem, items, k), 1) else Group(elem, items, k)
  {
    var i := Position(elem, items, op.at.key);
    ReplacementGroup(elem, items[i], op, k);
    if k == op.at.key {
      ReplaceOwn(elem, items, Replacement(elem, items[i], op), k, i);
    } else {
      ReplaceOther(elem, items, Replacement(elem, items[i], op), k, i);
    }
    ApplyOpSplit(elem, items, op, i);
  }

  lemma ReplacementGroup(elem: Schema, x: Value, op: Op, k: Value)
    requires IdBased(elem) && KeepsKey(elem, op) && KeyOf(elem, x) == op.at.key
    ensures Group(elem, Replacement(elem, x, op), k) == if k == op.at.key then Replacement(elem, x, op) else []
  {
    match op
    case Insert(_, v) => GroupOne(elem, v, k);
    case Remove(_) =>
    case Update(_, p) =>
      PatchedKey(elem, x, p);
      GroupOne(elem, Apply(elem, x, p), k);
  }

  lemma ApplyOpSplit(elem: Schema, items: seq<Value>, op: Op, i: nat)
    requires op.at.Id? && i == Position(elem, items, op.at.key) < |items|
    ensures ApplyOp(elem, items, op) == items[..i] + Replacement(elem, items[i], op) + items[i + 1..]
  {
    match op
    case Insert(_, v) => Splice(items, i, v);
    case Remove(_) => NothingBetween(items[..i], items[i + 1..]);
    case Update(_, p) => Splice(items, i, Apply(elem, items[i], p));
  }

  lemma ApplyOpByKey(elem: Schema, items: seq<Value>, op: Op, k: Value)
    requires IdBased(elem) && KeepsKey(elem, op)
    ensures Group(elem, ApplyOp(elem, items, op), k) ==
            if op.at == Id(k) then GroupOp(elem, Group(elem, items, k), op) else Group(elem, items, k)
  {
    if Position(elem, items, op.at.key) < |items| {
      ApplyOpFound(elem, items, op, k);
      if op.at == Id(k) {
        ReplacesHead(elem, items, op);
      }
    } else {
      ApplyOpMissing(elem, items, op, k);
    }
  }

  lemma ReplacesHead(elem: Schema, items: seq<Value>, op: Op)
    requires op.at.Id? && Position(elem, items, op.at.key) < |items|
    ensures var g := Group(elem, items, op.at.key);
            GroupOp(elem, g, op) == Replacement(elem, items[Position(elem, items, op.at.key)], op) + Skip(g, 1)
  {
    GroupHead(elem, items, op.at.key);
  }

  lemma ApplyOpMissing(elem: Schema, items: seq<Value>, op: Op, k: Value)
    requires KeepsKey(elem, op) && Position(elem, items, op.at.key) == |items|
    ensures Group(elem, ApplyOp(elem, items, op), k) ==
            if op.at == Id(k) then GroupOp(elem, Group(elem, items, k), op) else Group(elem, items, k)
  {
    GroupHead(elem, items, op.at.key);
    if op.Insert? {
      assert ApplyOp(elem, items, op) == items + [op.value];
      GroupSnoc(elem, items, op.value, k);
    } else {
      assert ApplyOp(elem, items, op) == items;
    }
  }

  /** Whatever the list, the items of each key change as the operations on that key say, and by no others. */
  lemma {:induction false} ApplyOpsByKey(elem: Schema, items: seq<Value>, ops: seq<Op>, k: Value)
    requires IdBased(elem) && forall op | op in ops :: KeepsKey(elem, op)
    ensures Group(elem, ApplyOps(elem, items, ops), k) == GroupOps(elem, Group(elem, items, k), ops, k)
  {
    if ops != [] {
      assert ops == DropLast(ops) + [Last(ops)];
      ApplyOpsByKey(elem, items, DropLast(ops), k);
      ApplyOpByKey(elem, ApplyOps(elem, items, DropLast(ops)), Last(ops), k);
    }
  }

  lemma {:induction false} GroupOpsAppend(elem: Schema, g: seq<Value>, p: seq<Op>, q: seq<Op>, k: Value)
    ensures GroupOps(elem, g, p + q, k) == GroupOps(elem, GroupOps(elem, g, p, k), q, k)
    decreases |q|
  {
    if q == [] {
      assert p + q == p;
    } else {
      GroupOpsAppend(elem, g, p, DropLast(q), k);
      assert DropLast(p + q) == p + DropLast(q);
    }
  }

  lemma {:induction false} GroupOpsOther(elem: Schema, g: seq<Value>, ops: seq<Op>, k: Value)
    requires forall op | op in ops :: op.at != Id(k)
    ensures GroupOps(elem, g, ops, k) == g
  {
    if ops != [] {
      assert ops == DropLast(ops) + [Last(ops)];
      GroupOpsOther(elem, g, DropLast(ops), k);
    }
  }

  // The operations of a diff

  /** A diff sends the old key, so what it patches keeps its key. */
  lemma DiffKeepsKey(elem: Schema, o: Value, n: Value)
    ensures KeepsKeyField(elem, Diff(elem, o, n), KeyOf(elem, o))
  {
    if elem.RecordType? && KeyIndex(elem.fields) < |elem.fields| && Diff(elem, o, n).Fields? {
      var i := KeyIndex(elem.fields);
      assert Diff(elem, o, n).fields == DiffFields(elem.fields, o, n);
      assert DiffFields(elem.fields, o, n)[i] == DiffField(elem.fields[i], Sub(o, i), Sub(n, i));
    }
  }

  lemma {:induction false} UpsertsKeepKeys(elem: Schema, os: seq<Value>, ns: seq<Value>)
    ensures forall op | op in Upserts(elem, os, ns) :: KeepsKey(elem, op)
  {
    if ns != [] {
      var n := Last(ns);
      UpsertsKeepKeys(elem, os, DropLast(ns));
      var o := Find(elem, os, KeyOf(elem, n));
      if o.Some? {
        DiffKeepsKey(elem, o.value, n);
      }
    }
  }

  lemma {:induction false} RemovalsKeepKeys(elem: Schema, os: seq<Value>, ns: seq<Value>)
    ensures forall op | op in Removals(elem, os, ns) :: KeepsKey(elem, op)
  {
    if os != [] {
      RemovalsKeepKeys(elem, DropLast(os), ns);
    }
  }

  lemma DiffOpsKeepKeys(elem: Schema, os: seq<Value>, ns: seq<Value>)
    requires IdBased(elem)
    ensures forall op | op in DiffOps(elem, os, ns) :: KeepsKey(elem, op)
  {
    UpsertsKeepKeys(elem, os, ns);
    RemovalsKeepKeys(elem, os, ns);
  }
}
