/** Which operations a list diff consists of, and what one operation does to a list, position by position. */
module Operations {
  import opened Prelude
  import opened Schemas
  import opened Patches
  import opened KeyedLists

  // Lists by index: exactly what changed

  /** What a diff by index may contain: an update where elements differ, inserts and removals beyond the common part. */
  predicate ByIndex(elem: Schema, os: seq<Value>, ns: seq<Value>, op: Op) {
    op.at.At? &&
    var i := op.at.index;
    match op
    case Update(_, p) => i < |os| && i < |ns| && os[i] != ns[i] && p == Diff(elem, os[i], ns[i])
    case Insert(_, v) => |os| <= i < |ns| && v == ns[i]
    case Remove(_) => |ns| <= i < |os|
  }

  lemma {:induction false} UpdatesExactly(elem: Schema, os: seq<Value>, ns: seq<Value>, n: nat, op: Op)
    requires n <= |os| && n <= |ns|
    ensures op in UpdatesUpTo(elem, os, ns, n) <==>
            op.Update? && op.at.At? && op.at.index < n && ByIndex(elem, os, ns, op)
  {
    if n > 0 {
      UpdatesExactly(elem, os, ns, n - 1, op);
    }
  }

  lemma {:induction false} InsertsExactly(ns: seq<Value>, lo: nat, n: nat, op: Op)
    requires lo <= n <= |ns|
    ensures op in InsertsUpTo(ns, lo, n) <==>
            op.Insert? && op.at.At? && lo <= op.at.index < n && op.value == ns[op.at.index]
    decreases n - lo
  {
    if lo < n {
      InsertsExactly(ns, lo, n - 1, op);
    }
  }

  lemma {:induction false} RemovesExactly(lo: nat, hi: nat, op: Op)
    ensures op in RemovesDownTo(lo, hi) <==> op.Remove? && op.at.At? && lo <= op.at.index < hi
    decreases hi - lo
  {
    if lo < hi {
      RemovesExactly(lo + 1, hi, op);
    }
  }

  /** A diff by index sends what changed, and nothing else. */
  lemma {:induction false} SentByIndex(elem: Schema, os: seq<Value>, ns: seq<Value>, op: Op)
    requires !IdBased(elem)
    ensures op in DiffOps(elem, os, ns) <==> ByIndex(elem, os, ns, op)
  {
    UpdatesExactly(elem, os, ns, Min(|os|, |ns|), op);
    if |ns| > |os| {
      InsertsExactly(ns, |os|, |ns|, op);
    } else {
      RemovesExactly(|ns|, |os|, op);
    }
  }

  /** When an operation by index is due: updates and inserts in ascending order, then removals in descending order. */
  function TurnByIndex(os: seq<Value>, op: Op): int {
    if op.at.Id? then 0 else if op.Remove? then 2 * |os| - op.at.index else op.at.index
  }

  /** Every operation is due before those after it. */
  predicate InTurn(ops: seq<Op>, turn: Op -> int) {
    forall p, q | 0 <= p < q < |ops| :: turn(ops[p]) < turn(ops[q])
  }

  lemma InTurnAppend(a: seq<Op>, b: seq<Op>, turn: Op -> int)
    requires InTurn(a, turn) && InTurn(b, turn)
    requires forall x, y | x in a && y in b :: turn(x) < turn(y)
    ensures InTurn(a + b, turn)
  {
    forall p, q | 0 <= p < q < |a + b| ensures turn((a + b)[p]) < turn((a + b)[q]) {
      if p < |a| <= q {
        assert (a + b)[p] in a && (a + b)[q] in b;
      }
    }
  }

  lemma InTurnOne(op: Op, turn: Op -> int)
    ensures InTurn([op], turn) && InTurn([], turn)
  {
  }

  lemma {:induction false} UpdatesInTurn(elem: Schema, os: seq<Value>, ns: seq<Value>, n: nat)
    requires n <= |os| && n <= |ns|
    ensures InTurn(UpdatesUpTo(elem, os, ns, n), op => TurnByIndex(os, op))
  {
    if n > 0 {
      UpdatesInTurn(elem, os, ns, n - 1);
      if os[n - 1] != ns[n - 1] {
        var front, op := UpdatesUpTo(elem, os, ns, n - 1), Update(At(n - 1), Diff(elem, os[n - 1], ns[n - 1]));
        forall x | x in front ensures TurnByIndex(os, x) < n - 1 {
          UpdatesExactly(elem, os, ns, n - 1, x);
        }
        InTurnOne(op, x => TurnByIndex(os, x));
        InTurnAppend(front, [op], x => TurnByIndex(os, x));
      }
    }
  }

  lemma {:induction false} InsertsInTurn(os: seq<Value>, ns: seq<Value>, lo: nat, n: nat)
    requires lo <= n <= |ns|
    ensures InTurn(InsertsUpTo(ns, lo, n), op => TurnByIndex(os, op))
    decreases n - lo
  {
    if lo < n {
      InsertsInTurn(os, ns, lo, n - 1);
      forall x | x in InsertsUpTo(ns, lo, n - 1) ensures TurnByIndex(os, x) < n - 1 {
        InsertsExactly(ns, lo, n - 1, x);
      }
      InTurnOne(Insert(At(n - 1), ns[n - 1]), x => TurnByIndex(os, x));
      InTurnAppend(InsertsUpTo(ns, lo, n - 1), [Insert(At(n - 1), ns[n - 1])], x => TurnByIndex(os, x));
    }
  }

  lemma {:induction false} RemovesInTurn(os: seq<Value>, lo: nat, hi: nat)
    ensures InTurn(RemovesDownTo(lo, hi), op => TurnByIndex(os, op))
    decreases hi - lo
  {
    if lo < hi {
      RemovesInTurn(os, lo + 1, hi);
      forall x | x in RemovesDownTo(lo + 1, hi) ensures TurnByIndex(os, x) < 2 * |os| - lo {
        RemovesExactly(lo + 1, hi, x);
      }
      InTurnOne(Remove(At(lo)), x => TurnByIndex(os, x));
      InTurnAppend(RemovesDownTo(lo + 1, hi), [Remove(At(lo))], x => TurnByIndex(os, x));
    }
  }

  /** And in this order, which with `SentByIndex` leaves no freedom. */
  lemma {:induction false} OrderByIndex(elem: Schema, os: seq<Value>, ns: seq<Value>)
    requires !IdBased(elem)
    ensures InTurn(DiffOps(elem, os, ns), op => TurnByIndex(os, op))
  {
    var n, turn := Min(|os|, |ns|), op => TurnByIndex(os, op);
    var a := UpdatesUpTo(elem, os, ns, n);
    var b := if |ns| > |os| then InsertsUpTo(ns, |os|, |ns|) else RemovesDownTo(|ns|, |os|);
    UpdatesInTurn(elem, os, ns, n);
    if |ns| > |os| {
      InsertsInTurn(os, ns, |os|, |ns|);
    } else {
      RemovesInTurn(os, |ns|, |os|);
    }
    forall x, y | x in a && y in b ensures turn(x) < turn(y) {
      UpdatesExactly(elem, os, ns, n, x);
      if |ns| > |os| {
        InsertsExactly(ns, |os|, |ns|, y);
      } else {
        RemovesExactly(|ns|, |os|, y);
      }
    }
    InTurnAppend(a, b, turn);
  }

  // Keyed lists: exactly what changed

  predicate ByKey(elem: Schema, os: seq<Value>, ns: seq<Value>, op: Op) {
    op.at.Id? &&
    var o := Find(elem, os, op.at.key);
    match op
    case Update(_, p) => exists n | n in ns :: UpdateFor(elem, o, n, op.at.key, p)
    case Insert(_, v) => v in ns && KeyOf(elem, v) == op.at.key && o.None?
    case Remove(_) => o.Some? && Find(elem, ns, op.at.key).None?
  }

  predicate UpdateFor(elem: Schema, o: Option<Value>, n: Value, k: Value, p: Patch) {
    KeyOf(elem, n) == k && o.Some? && o.value != n && p == Diff(elem, o.value, n)
  }

  lemma {:induction false} UpsertsExactly(elem: Schema, os: seq<Value>, ns: seq<Value>, op: Op)
    ensures op in Upserts(elem, os, ns) <==> !op.Remove? && ByKey(elem, os, ns, op)
  {
    if ns != [] {
      var front, n := DropLast(ns), Last(ns);
      UpsertsExactly(elem, os, front, op);
      UpsertExactly(elem, os, n, op);
      assert ns == front + [n];
      if op.Update? && op.at.Id? {
        var o := Find(elem, os, op.at.key);
        if ByKey(elem, os, front, op) {
          var m :| m in front && UpdateFor(elem, o, m, op.at.key, op.patch);
          assert m in ns;
        }
      }
    }
  }

  lemma UpsertExactly(elem: Schema, os: seq<Value>, n: Value, op: Op)
    ensures op in Upsert(elem, os, n) <==>
            op.at.Id? && !op.Remove? &&
            (if op.Update? then UpdateFor(elem, Find(elem, os, op.at.key), n, op.at.key, op.patch)
             else op.value == n && KeyOf(elem, n) == op.at.key && Find(elem, os, op.at.key).None?)
  {
  }

  lemma {:induction false} RemovalsExactly(elem: Schema, os: seq<Value>, ns: seq<Value>, op: Op)
    ensures op in Removals(elem, os, ns) <==> op.Remove? && ByKey(elem, os, ns, op)
  {
    if os != [] {
      var front, o := DropLast(os), Last(os);
      RemovalsExactly(elem, front, ns, op);
      assert os == front + [o];
      if op.at.Id? {
        FindSnoc(elem, front, o, op.at.key);
      }
    }
  }

  /** A diff by key sends what changed, and nothing else. */
  lemma {:induction false} SentByKey(elem: Schema, os: seq<Value>, ns: seq<Value>, op: Op)
    requires IdBased(elem)
    ensures op in DiffOps(elem, os, ns) <==> ByKey(elem, os, ns, op)
  {
    UpsertsExactly(elem, os, ns, op);
    RemovalsExactly(elem, os, ns, op);
  }

  /** When an operation by key is due: in the order of the new list, then removals in the order of the old one. */
  function TurnByKey(elem: Schema, os: seq<Value>, ns: seq<Value>, op: Op): int {
    if op.at.At? then 0
    else if op.Remove? then |ns| + Position(elem, os, op.at.key)
    else Position(elem, ns, op.at.key)
  }

  lemma {:induction false} UpsertsInTurn(elem: Schema, os: seq<Value>, ns: seq<Value>, i: nat)
    requires UniqueKeys(elem, ns) && i <= |ns|
    ensures InTurn(Upserts(elem, os, ns[..i]), op => TurnByKey(elem, os, ns, op))
    ensures forall op | op in Upserts(elem, os, ns[..i]) :: TurnByKey(elem, os, ns, op) < i
  {
    if i > 0 {
      var turn, n := op => TurnByKey(elem, os, ns, op), ns[i - 1];
      UpsertsInTurn(elem, os, ns, i - 1);
      FindHit(elem, ns, i - 1);
      assert DropLast(ns[..i]) == ns[..i - 1] && Last(ns[..i]) == n;
      forall op | op in Upsert(elem, os, n) ensures turn(op) == i - 1 {
        UpsertExactly(elem, os, n, op);
      }
      InTurnAppend(Upserts(elem, os, ns[..i - 1]), Upsert(elem, os, n), turn);
    }
  }

  lemma RemovalsSnoc(elem: Schema, os: seq<Value>, ns: seq<Value>, i: nat)
    requires 0 < i <= |os|
    ensures Removals(elem, os[..i], ns) ==
            Removals(elem, os[..i - 1], ns) +
            if Find(elem, ns, KeyOf(elem, os[i - 1])).None? then [Remove(Id(KeyOf(elem, os[i - 1])))] else []
  {
    assert DropLast(os[..i]) == os[..i - 1] && Last(os[..i]) == os[i - 1];
  }

  lemma {:induction false} RemovalsInTurn(elem: Schema, os: seq<Value>, ns: seq<Value>, i: nat)
    requires UniqueKeys(elem, os) && i <= |os|
    ensures InTurn(Removals(elem, os[..i], ns), op => TurnByKey(elem, os, ns, op))
    ensures forall op | op in Removals(elem, os[..i], ns) :: |ns| <= TurnByKey(elem, os, ns, op) < |ns| + i
  {
    if i > 0 {
      var turn, o := op => TurnByKey(elem, os, ns, op), os[i - 1];
      RemovalsInTurn(elem, os, ns, i - 1);
      FindHit(elem, os, i - 1);
      RemovalsSnoc(elem, os, ns, i);
      if Find(elem, ns, KeyOf(elem, o)).None? {
        InTurnOne(Remove(Id(KeyOf(elem, o))), turn);
        InTurnAppend(Removals(elem, os[..i - 1], ns), [Remove(Id(KeyOf(elem, o)))], turn);
      }
    }
  }

  /** And in this order, which with `SentByKey` leaves no freedom. */
  lemma {:induction false} OrderByKey(elem: Schema, os: seq<Value>, ns: seq<Value>)
    requires IdBased(elem) && UniqueKeys(elem, os) && UniqueKeys(elem, ns)
    ensures InTurn(DiffOps(elem, os, ns), op => TurnByKey(elem, os, ns, op))
  {
    UpsertsInTurn(elem, os, ns, |ns|);
    RemovalsInTurn(elem, os, ns, |os|);
    assert ns[..|ns|] == ns && os[..|os|] == os;
    InTurnAppend(Upserts(elem, os, ns), Removals(elem, os, ns), op => TurnByKey(elem, os, ns, op));
  }

  // How many operations

  /** The common positions below `n` at which two lists differ. */
  function Differing(os: seq<Value>, ns: seq<Value>, n: nat): set<nat> {
    set i: nat | i < n && i < |os| && i < |ns| && os[i] != ns[i]
  }

  /** The positions of new elements that are unknown or changed. */
  function NewOrChanged(elem: Schema, os: seq<Value>, ns: seq<Value>, n: nat): set<nat> {
    set i: nat | i < n && i < |ns| && Find(elem, os, KeyOf(elem, ns[i])) != Some(ns[i])
  }

  /** The positions of old elements whose keys are gone. */
  function Gone(elem: Schema, os: seq<Value>, ns: seq<Value>, n: nat): set<nat> {
    set i: nat | i < n && i < |os| && Find(elem, ns, KeyOf(elem, os[i])).None?
  }

  lemma DifferingStep(os: seq<Value>, ns: seq<Value>, n: nat)
    requires 0 < n <= |os| && n <= |ns|
    ensures |Differing(os, ns, n)| == |Differing(os, ns, n - 1)| + if os[n - 1] != ns[n - 1] then 1 else 0
  {
    var before, more := Differing(os, ns, n - 1), os[n - 1] != ns[n - 1];
    forall j: nat ensures j in Differing(os, ns, n) <==> j in before || (more && j == n - 1) {
    }
    OneMore(before, n - 1, Differing(os, ns, n), more);
  }

  lemma {:induction false} CountUpdates(elem: Schema, os: seq<Value>, ns: seq<Value>, n: nat)
    requires n <= |os| && n <= |ns|
    ensures |UpdatesUpTo(elem, os, ns, n)| == |Differing(os, ns, n)|
  {
    if n > 0 {
      CountUpdates(elem, os, ns, n - 1);
      DifferingStep(os, ns, n);
    }
  }

  lemma {:induction false} CountInserts(ns: seq<Value>, lo: nat, n: nat)
    requires lo <= n <= |ns|
    ensures |InsertsUpTo(ns, lo, n)| == n - lo
    decreases n - lo
  {
    if lo < n {
      CountInserts(ns, lo, n - 1);
    }
  }

  lemma {:induction false} CountRemoves(lo: nat, hi: nat)
    requires lo <= hi
    ensures |RemovesDownTo(lo, hi)| == hi - lo
    decreases hi - lo
  {
    if lo < hi {
      CountRemoves(lo + 1, hi);
    }
  }

  /** As many operations as differing common positions, and one for each position more or less. */
  lemma {:induction false} CountByIndex(elem: Schema, os: seq<Value>, ns: seq<Value>)
    requires !IdBased(elem)
    ensures |DiffOps(elem, os, ns)| ==
            |Differing(os, ns, Min(|os|, |ns|))| + if |ns| > |os| then |ns| - |os| else |os| - |ns|
  {
    CountUpdates(elem, os, ns, Min(|os|, |ns|));
    if |ns| > |os| {
      CountInserts(ns, |os|, |ns|);
    } else {
      CountRemoves(|ns|, |os|);
    }
  }

  lemma UpsertsSlice(elem: Schema, os: seq<Value>, ns: seq<Value>, i: nat)
    requires 0 < i <= |ns|
    ensures Upserts(elem, os, ns[..i]) == Upserts(elem, os, ns[..i - 1]) + Upsert(elem, os, ns[i - 1])
  {
    assert DropLast(ns[..i]) == ns[..i - 1] && Last(ns[..i]) == ns[i - 1];
  }

  lemma UpsertCount(elem: Schema, os: seq<Value>, n: Value)
    ensures |Upsert(elem, os, n)| == if Find(elem, os, KeyOf(elem, n)) != Some(n) then 1 else 0
  {
  }

  lemma NewOrChangedStep(elem: Schema, os: seq<Value>, ns: seq<Value>, i: nat)
    requires 0 < i <= |ns|
    ensures |NewOrChanged(elem, os, ns, i)| ==
            |NewOrChanged(elem, os, ns, i - 1)| +
            if Find(elem, os, KeyOf(elem, ns[i - 1])) != Some(ns[i - 1]) then 1 else 0
  {
    var before, more := NewOrChanged(elem, os, ns, i - 1), Find(elem, os, KeyOf(elem, ns[i - 1])) != Some(ns[i - 1]);
    forall j: nat ensures j in NewOrChanged(elem, os, ns, i) <==> j in before || (more && j == i - 1) {
    }
    OneMore(before, i - 1, NewOrChanged(elem, os, ns, i), more);
  }

  lemma {:induction false} CountUpserts(elem: Schema, os: seq<Value>, ns: seq<Value>, i: nat)
    requires i <= |ns|
    ensures |Upserts(elem, os, ns[..i])| == |NewOrChanged(elem, os, ns, i)|
  {
    if i > 0 {
      CountUpserts(elem, os, ns, i - 1);
      UpsertsSlice(elem, os, ns, i);
      UpsertCount(elem, os, ns[i - 1]);
      NewOrChangedStep(elem, os, ns, i);
    }
  }

  lemma GoneStep(elem: Schema, os: seq<Value>, ns: seq<Value>, i: nat)
    requires 0 < i <= |os|
    ensures |Gone(elem, os, ns, i)| ==
            |Gone(elem, os, ns, i - 1)| + if Find(elem, ns, KeyOf(elem, os[i - 1])).None? then 1 else 0
  {
    var before, more := Gone(elem, os, ns, i - 1), Find(elem, ns, KeyOf(elem, os[i - 1])).None?;
    forall j: nat ensures j in Gone(elem, os, ns, i) <==> j in before || (more && j == i - 1) {
    }
    OneMore(before, i - 1, Gone(elem, os, ns, i), more);
  }

  lemma {:induction false} CountRemovals(elem: Schema, os: seq<Value>, ns: seq<Value>, i: nat)
    requires i <= |os|
    ensures |Removals(elem, os[..i], ns)| == |Gone(elem, os, ns, i)|
  {
    if i > 0 {
      CountRemovals(elem, os, ns, i - 1);
      RemovalsSnoc(elem, os, ns, i);
      GoneStep(elem, os, ns, i);
    }
  }

  /** One operation for each new or changed element, and one for each that is gone. */
  lemma {:induction false} CountByKey(elem: Schema, os: seq<Value>, ns: seq<Value>)
    requires IdBased(elem)
    ensures |DiffOps(elem, os, ns)| == |NewOrChanged(elem, os, ns, |ns|)| + |Gone(elem, os, ns, |os|)|
  {
    CountUpserts(elem, os, ns, |ns|);
    CountRemovals(elem, os, ns, |os|);
    assert ns[..|ns|] == ns && os[..|os|] == os;
  }

  // One operation, position by position

  /** The position an operation concerns; at or beyond the end if there is none. */
  function Target(elem: Schema, items: seq<Value>, at: OpKey): nat {
    match at
    case Id(k) => Position(elem, items, k)
    case At(i) => i
  }

  /** An insert by index makes room, wherever in the list; beyond the end, or by an unknown key, it appends. */
  lemma InsertMakesRoom(elem: Schema, items: seq<Value>, at: OpKey, v: Value, j: nat)
    requires at.At? || Target(elem, items, at) == |items|
    ensures var i, r := Min(Target(elem, items, at), |items|), ApplyOp(elem, items, Insert(at, v));
            |r| == |items| + 1 && r[i] == v &&
            (j < i ==> r[j] == items[j]) && (i <= j < |items| ==> r[j + 1] == items[j])
  {
  }

  /** An insert by a known key, or an update, replaces one element. */
  lemma ReplacesOne(elem: Schema, items: seq<Value>, op: Op, j: nat)
    requires (op.Insert? && op.at.Id?) || op.Update?
    requires Target(elem, items, op.at) < |items| && j < |items|
    ensures var i, r := Target(elem, items, op.at), ApplyOp(elem, items, op);
            |r| == |items| &&
            r[j] == if j != i then items[j] else if op.Insert? then op.value else Apply(elem, items[i], op.patch)
  {
  }

  /** A removal closes the gap. */
  lemma RemoveClosesGap(elem: Schema, items: seq<Value>, at: OpKey, j: nat)
    requires Target(elem, items, at) < |items|
    ensures var i, r := Target(elem, items, at), ApplyOp(elem, items, Remove(at));
            |r| == |items| - 1 && (j < i ==> r[j] == items[j]) && (i < j < |items| ==> r[j - 1] == items[j])
  {
    var i := Target(elem, items, at);
    assert ApplyOp(elem, items, Remove(at)) == items[..i] + items[i + 1..];
  }

  /** An update or removal of nothing does nothing. */
  lemma NoTarget(elem: Schema, items: seq<Value>, op: Op)
    requires !op.Insert? && Target(elem, items, op.at) >= |items|
    ensures ApplyOp(elem, items, op) == items
  {
  }

  /** By index, an insert and a removal undo each other, anywhere in the list. */
  lemma InsertRemoveUndo(elem: Schema, items: seq<Value>, i: nat, v: Value)
    ensures i <= |items| ==> ApplyOp(elem, ApplyOp(elem, items, Insert(At(i), v)), Remove(At(i))) == items
    ensures i < |items| ==> ApplyOp(elem, ApplyOp(elem, items, Remove(At(i))), Insert(At(i), items[i])) == items
  {
    if i <= |items| {
      Undo(items[..i], [v], items[i..]);
      assert items[..i] + items[i..] == items;
    }
    if i < |items| {
      Undo(items[..i], [items[i]], items[i + 1..]);
      assert items[..i] + [items[i]] + items[i + 1..] == items;
    }
  }

  lemma Undo(a: seq<Value>, m: seq<Value>, b: seq<Value>)
    requires |m| == 1
    ensures (a + m + b)[..|a|] + (a + m + b)[|a| + 1..] == a + b
    ensures (a + b)[..|a|] + m + (a + b)[|a|..] == a + m + b
  {
  }
}
