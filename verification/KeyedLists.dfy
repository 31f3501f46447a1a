/** Lists with distinct keys, read as maps. */
module KeyedLists {
  import opened Prelude
  import opened Schemas
  import opened Patches

  /** The items whose key does (or does not) occur in `other`, in order. */
  function Select(elem: Schema, items: seq<Value>, other: seq<Value>, present: bool): (r: seq<Value>)
    ensures |r| <= |items|
  {
    if items == [] then []
    else
      Select(elem, DropLast(items), other, present) +
      if Find(elem, other, KeyOf(elem, Last(items))).Some? == present then [Last(items)] else []
  }

  /** The last item with key `k`. */
  function LastWith(elem: Schema, items: seq<Value>, k: Value): Option<Value> {
    if items == [] then None
    else if KeyOf(elem, Last(items)) == k then Some(Last(items))
    else LastWith(elem, DropLast(items), k)
  }

  /** How many items have key `k`. */
  function Count(elem: Schema, items: seq<Value>, k: Value): nat {
    if items == [] then 0 else Count(elem, DropLast(items), k) + if KeyOf(elem, Last(items)) == k then 1 else 0
  }

  lemma {:induction false} PositionIsFirst(elem: Schema, items: seq<Value>, k: Value)
    ensures forall j | 0 <= j < Position(elem, items, k) :: KeyOf(elem, items[j]) != k
  {
    if items != [] && KeyOf(elem, items[0]) != k {
      PositionIsFirst(elem, items[1..], k);
      forall j | 0 <= j < Position(elem, items, k) ensures KeyOf(elem, items[j]) != k {
        if j > 0 {
          assert items[j] == items[1..][j - 1];
        }
      }
    }
  }

  lemma FindMiss(elem: Schema, items: seq<Value>, k: Value)
    ensures Find(elem, items, k).None? <==> forall x | x in items :: KeyOf(elem, x) != k
  {
    PositionIsFirst(elem, items, k);
    if Find(elem, items, k).None? {
      forall x | x in items ensures KeyOf(elem, x) != k {
        var j :| 0 <= j < |items| && items[j] == x;
      }
    }
  }

  lemma FindHit(elem: Schema, items: seq<Value>, i: nat)
    requires UniqueKeys(elem, items) && i < |items|
    ensures Position(elem, items, KeyOf(elem, items[i])) == i
    ensures Find(elem, items, KeyOf(elem, items[i])) == Some(items[i])
  {
    PositionUnique(elem, items, KeyOf(elem, items[i]), i);
  }

  lemma PositionUnique(elem: Schema, items: seq<Value>, k: Value, i: nat)
    requires i <= |items|
    requires i < |items| ==> KeyOf(elem, items[i]) == k
    requires forall j | 0 <= j < i :: KeyOf(elem, items[j]) != k
    ensures Position(elem, items, k) == i
  {
    PositionIsFirst(elem, items, k);
  }

  lemma PositionAppend(elem: Schema, a: seq<Value>, b: seq<Value>, k: Value)
    ensures Position(elem, a + b, k) ==
            if Position(elem, a, k) < |a| then Position(elem, a, k) else |a| + Position(elem, b, k)
  {
    var i, j := Position(elem, a, k), Position(elem, b, k);
    PositionIsFirst(elem, a, k);
    PositionIsFirst(elem, b, k);
    PositionUnique(elem, a + b, k, if i < |a| then i else |a| + j);
  }

  lemma FindAppend(elem: Schema, a: seq<Value>, b: seq<Value>, k: Value)
    ensures Find(elem, a + b, k) ==
            if Find(elem, a, k).Some? then Find(elem, a, k) else Find(elem, b, k)
  {
    PositionAppend(elem, a, b, k);
  }

  lemma FindSnoc(elem: Schema, a: seq<Value>, x: Value, k: Value)
    ensures Find(elem, a + [x], k) ==
            if Find(elem, a, k).Some? then Find(elem, a, k)
            else if KeyOf(elem, x) == k then Some(x) else None
  {
    FindAppend(elem, a, [x], k);
  }

  lemma SelectSnoc(elem: Schema, items: seq<Value>, x: Value, other: seq<Value>, present: bool)
    ensures Select(elem, items + [x], other, present) ==
            if Find(elem, other, KeyOf(elem, x)).Some? == present
            then Select(elem, items, other, present) + [x]
            else Select(elem, items, other, present)
  {
    assert DropLast(items + [x]) == items;
  }

  lemma {:induction false} SelectMember(elem: Schema, items: seq<Value>, other: seq<Value>, present: bool, x: Value)
    ensures x in Select(elem, items, other, present) <==>
            x in items && Find(elem, other, KeyOf(elem, x)).Some? == present
  {
    if items != [] {
      SelectMember(elem, DropLast(items), other, present, x);
      assert items == DropLast(items) + [Last(items)];
    }
  }

  lemma {:induction false} FindSelect(elem: Schema, items: seq<Value>, other: seq<Value>, present: bool, k: Value)
    ensures Find(elem, Select(elem, items, other, present), k) ==
            if Find(elem, other, k).Some? == present then Find(elem, items, k) else None
  {
    if items != [] {
      var front, x := DropLast(items), Last(items);
      FindSelect(elem, front, other, present, k);
      FindSnoc(elem, front, x, k);
      FindSnoc(elem, Select(elem, front, other, present), x, k);
      assert items == front + [x];
      SelectSnoc(elem, front, x, other, present);
    }
  }

  lemma {:induction false} SelectUnique(elem: Schema, items: seq<Value>, other: seq<Value>, present: bool)
    requires UniqueKeys(elem, items)
    ensures UniqueKeys(elem, Select(elem, items, other, present))
  {
    if items != [] {
      var front := DropLast(items);
      SelectUnique(elem, front, other, present);
      forall y | y in Select(elem, front, other, present)
        ensures KeyOf(elem, y) != KeyOf(elem, Last(items))
      {
        SelectMember(elem, front, other, present, y);
      }
    }
  }

  /** Removing by key, in a list with distinct keys, is selecting one key fewer. */
  lemma {:induction false} RemoveByKey(elem: Schema, items: seq<Value>, gone: seq<Value>, o: Value)
    requires UniqueKeys(elem, items)
    ensures ApplyOp(elem, Select(elem, items, gone, false), Remove(Id(KeyOf(elem, o)))) ==
            Select(elem, items, gone + [o], false)
  {
    if items != [] {
      var front, x := DropLast(items), Last(items);
      assert front + [x] == items;
      LastIsOnly(elem, items);
      RemoveByKey(elem, front, gone, o);
      RemoveByKeyStep(elem, front, x, gone, o);
    }
  }

  lemma RemoveByKeyStep(elem: Schema, items: seq<Value>, x: Value, gone: seq<Value>, o: Value)
    requires Find(elem, items, KeyOf(elem, x)).None?
    requires ApplyOp(elem, Select(elem, items, gone, false), Remove(Id(KeyOf(elem, o)))) ==
             Select(elem, items, gone + [o], false)
    ensures ApplyOp(elem, Select(elem, items + [x], gone, false), Remove(Id(KeyOf(elem, o)))) ==
            Select(elem, items + [x], gone + [o], false)
  {
    var k, s := KeyOf(elem, o), Select(elem, items, gone, false);
    FindSnoc(elem, gone, o, KeyOf(elem, x));
    SelectSnoc(elem, items, x, gone, false);
    SelectSnoc(elem, items, x, gone + [o], false);
    if KeyOf(elem, x) == k {
      FindSelect(elem, items, gone, false, k);
      RemoveLast(elem, s, x);
    } else if Find(elem, gone, KeyOf(elem, x)).None? {
      RemoveSnoc(elem, s, x, k);
    }
  }

  lemma LastIsOnly(elem: Schema, items: seq<Value>)
    requires items != [] && UniqueKeys(elem, items)
    ensures UniqueKeys(elem, DropLast(items))
    ensures Find(elem, DropLast(items), KeyOf(elem, Last(items))).None?
  {
    FindMiss(elem, DropLast(items), KeyOf(elem, Last(items)));
  }

  lemma RemoveLast(elem: Schema, s: seq<Value>, x: Value)
    requires Find(elem, s, KeyOf(elem, x)).None?
    ensures ApplyOp(elem, s + [x], Remove(Id(KeyOf(elem, x)))) == s
    ensures ApplyOp(elem, s, Remove(Id(KeyOf(elem, x)))) == s
  {
    PositionAppend(elem, s, [x], KeyOf(elem, x));
    assert (s + [x])[..|s|] + (s + [x])[|s| + 1..] == s;
  }

  lemma RemoveSnoc(elem: Schema, s: seq<Value>, x: Value, k: Value)
    requires KeyOf(elem, x) != k
    ensures ApplyOp(elem, s + [x], Remove(Id(k))) == ApplyOp(elem, s, Remove(Id(k))) + [x]
  {
    PositionAppend(elem, s, [x], k);
    var i := Position(elem, s, k);
    if i < |s| {
      assert (s + [x])[..i] == s[..i] && (s + [x])[i + 1..] == s[i + 1..] + [x];
    }
  }

  lemma {:induction false} ApplyRemovals(elem: Schema, items: seq<Value>, old': seq<Value>, new': seq<Value>)
    requires UniqueKeys(elem, items)
    ensures ApplyOps(elem, items, Removals(elem, old', new')) ==
            Select(elem, items, Select(elem, old', new', false), false)
  {
    if old' == [] {
      SelectNothing(elem, items);
    } else {
      var front, o := DropLast(old'), Last(old');
      ApplyRemovals(elem, items, front, new');
      var ops, gone := Removals(elem, front, new'), Select(elem, front, new', false);
      if Find(elem, new', KeyOf(elem, o)).None? {
        var op := Remove(Id(KeyOf(elem, o)));
        assert Removals(elem, old', new') == ops + [op];
        assert DropLast(ops + [op]) == ops;
        RemoveByKey(elem, items, gone, o);
      } else {
        assert Removals(elem, old', new') == ops;
        assert Select(elem, old', new', false) == gone;
      }
    }
  }

  lemma {:induction false} SelectNothing(elem: Schema, items: seq<Value>)
    ensures Select(elem, items, [], false) == items
  {
    if items != [] {
      var front, x := DropLast(items), Last(items);
      SelectNothing(elem, front);
      assert items == front + [x];
      assert Find(elem, [], KeyOf(elem, x)) == None;
      SelectSnoc(elem, front, x, [], false);
    }
  }

  /** Two selections by keys that agree on every item are the same. */
  lemma {:induction false} SelectSame(
      elem: Schema, items: seq<Value>, a: seq<Value>, pa: bool, b: seq<Value>, pb: bool)
    requires forall x | x in items ::
      (Find(elem, a, KeyOf(elem, x)).Some? == pa) == (Find(elem, b, KeyOf(elem, x)).Some? == pb)
    ensures Select(elem, items, a, pa) == Select(elem, items, b, pb)
  {
    if items != [] {
      SelectSame(elem, DropLast(items), a, pa, b, pb);
    }
  }

  lemma {:induction false} SelectAppend(elem: Schema, a: seq<Value>, b: seq<Value>, other: seq<Value>, present: bool)
    ensures Select(elem, a + b, other, present) ==
            Select(elem, a, other, present) + Select(elem, b, other, present)
  {
    if b == [] {
      assert a + b == a;
    } else {
      var front, x := DropLast(b), Last(b);
      SelectAppend(elem, a, front, other, present);
      assert b == front + [x];
      assert a + b == (a + front) + [x];
      SelectSnoc(elem, a + front, x, other, present);
      SelectSnoc(elem, front, x, other, present);
      Reassociate(Select(elem, a, other, present), Select(elem, front, other, present), x);
    }
  }

  lemma Reassociate(a: seq<Value>, b: seq<Value>, x: Value)
    ensures (a + b) + [x] == a + (b + [x])
  {
  }
}
