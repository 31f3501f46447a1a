/**
 The operations as the code runs them: diffs built by pushing operations,
 targets and patches updated in place.  Each is proved to compute the function
 of the same purpose in `Patches`.
 */
module Resolve {
  import opened Prelude
  import opened Schemas
  import opened Patches

  // resolve_diff

  method ResolveDiff(sch: Schema, old': Value, new': Value) returns (p: Patch)
    ensures p == Diff(sch, old', new')
    decreases sch, 1
  {
    match sch {
      case LeafType =>
        p := if old' != new' then Replace(new') else Keep;
      case RecordType(fs) =>
        p := DiffRecord(sch, old', new');
      case ListType(elem) =>
        if old' == new' {
          p := NoChange;
        } else if IdBased(elem) {
          var ops := DiffById(elem, Items(old'), Items(new'));
          p := Incremental(ops);
        } else {
          var ops := DiffByIndex(elem, Items(old'), Items(new'));
          p := Incremental(ops);
        }
    }
  }

  /** The generated `diff`: one patch per field, `None` unless a mutable field changed. */
  method DiffRecord(sch: Schema, old': Value, new': Value) returns (p: Patch)
    requires sch.RecordType?
    ensures p == Diff(sch, old', new')
    decreases sch, 0
  {
    var fs := sch.fields;
    var ps: seq<Patch>, changed := [], false;
    for i := 0 to |fs|
      invariant |ps| == i
      invariant forall j | 0 <= j < i :: ps[j] == DiffField(fs[j], Sub(old', j), Sub(new', j))
      invariant changed <==> exists j | 0 <= j < i :: fs[j].Mutable? && IsSome(ps[j])
    {
      var f;
      match fs[i] {
        case Key => f := KeyIs(Sub(old', i));
        case Immutable => f := Keep;
        case Mutable(ty) =>
          f := ResolveDiff(ty, Sub(old', i), Sub(new', i));
          changed := changed || IsSome(f);
      }
      ghost var before := ps;
      ps := ps + [f];
      assert forall j | 0 <= j < i :: ps[j] == before[j];
    }
    assert ps == DiffFields(fs, old', new');
    p := if changed then Fields(ps) else Keep;
  }

  /** `iter().find(|o| o.resolve_key() == k)` */
  method FindItem(elem: Schema, items: seq<Value>, k: Value) returns (r: Option<Value>)
    ensures r == Find(elem, items, k)
  {
    var i := FindPosition(elem, items, k);
    r := if i < |items| then Some(items[i]) else None;
  }

  /** `iter().position(|o| o.resolve_key() == k)`, the length standing for `None`. */
  method FindPosition(elem: Schema, items: seq<Value>, k: Value) returns (i: nat)
    ensures i == Position(elem, items, k)
  {
    i := 0;
    while i < |items| && KeyOf(elem, items[i]) != k
      invariant i <= |items|
      invariant Position(elem, items, k) == i + Position(elem, items[i..], k)
    {
      assert items[i..][1..] == items[i + 1..];
      i := i + 1;
    }
  }

  method DiffById(elem: Schema, old': seq<Value>, new': seq<Value>) returns (ops: seq<Op>)
    requires IdBased(elem)
    ensures ops == DiffOps(elem, old', new')
    decreases elem, 2
  {
    ops := [];
    for i := 0 to |new'|
      invariant ops == Upserts(elem, old', new'[..i])
    {
      assert DropLast(new'[..i + 1]) == new'[..i];
      var found := FindItem(elem, old', KeyOf(elem, new'[i]));
      match found {
        case Some(o) =>
          if o != new'[i] {
            var patch := ResolveDiff(elem, o, new'[i]);
            ops := ops + [Update(Id(KeyOf(elem, new'[i])), patch)];
          }
        case None =>
          ops := ops + [Insert(Id(KeyOf(elem, new'[i])), new'[i])];
      }
    }
    assert new'[..|new'|] == new';
    ghost var upserts := ops;
    for i := 0 to |old'|
      invariant ops == upserts + Removals(elem, old'[..i], new')
    {
      assert DropLast(old'[..i + 1]) == old'[..i];
      var found := FindItem(elem, new', KeyOf(elem, old'[i]));
      if found.None? {
        ops := ops + [Remove(Id(KeyOf(elem, old'[i])))];
      }
    }
    assert old'[..|old'|] == old';
  }

  method DiffByIndex(elem: Schema, old': seq<Value>, new': seq<Value>) returns (ops: seq<Op>)
    requires !IdBased(elem)
    ensures ops == DiffOps(elem, old', new')
    decreases elem, 2
  {
    ops := [];
    var common := Min(|old'|, |new'|);
    for i := 0 to common
      invariant ops == UpdatesUpTo(elem, old', new', i)
    {
      if old'[i] != new'[i] {
        var patch := ResolveDiff(elem, old'[i], new'[i]);
        ops := ops + [Update(At(i), patch)];
      }
    }
    ghost var updates := ops;
    if |new'| > |old'| {
      for i := common to |new'|
        invariant ops == updates + InsertsUpTo(new', common, i)
      {
        ops := ops + [Insert(At(i), new'[i])];
      }
    } else if |old'| > |new'| {
      for i := |old'| downto common
        invariant ops + RemovesDownTo(common, i) == updates + RemovesDownTo(common, |old'|)
      {
        RemovesFirst(common, i + 1);
        ops := ops + [Remove(At(i))];
      }
    }
  }

  /** Descending removals start with the highest index. */
  lemma {:induction false} RemovesFirst(lo: nat, hi: nat)
    requires lo < hi
    ensures RemovesDownTo(lo, hi) == [Remove(At(hi - 1))] + RemovesDownTo(lo, hi - 1)
    decreases hi - lo
  {
    if lo + 1 < hi {
      RemovesFirst(lo + 1, hi);
    }
  }

  // resolve_apply

  method ResolveApply(sch: Schema, target: Ref<Value>, patch: Patch)
    modifies target
    ensures target.value == Apply(sch, old(target.value), patch)
    decreases sch, 1
  {
    match sch {
      case LeafType =>
        if patch.Replace? {
          target.value := patch.value;
        }
      case RecordType(fs) =>
        if patch.Fields? {
          ApplyPatch(sch, target, patch);
        }
      case ListType(elem) =>
        match patch {
          case Full(items) => target.value := List(items);
          case Incremental(ops) => ApplyAll(elem, target, ops);
          case _ =>
        }
    }
  }

  /** The generated `apply_patch`: assigns the fields one after the other. */
  method ApplyPatch(sch: Schema, target: Ref<Value>, patch: Patch)
    requires sch.RecordType? && patch.Fields?
    modifies target
    ensures target.value == Apply(sch, old(target.value), patch)
    decreases sch, 0
  {
    var fs := sch.fields;
    var v := target.value;
    var fields := seq(|fs|, i requires 0 <= i < |fs| => Sub(v, i));
    for i := 0 to |fs|
      invariant |fields| == |fs|
      invariant forall j | 0 <= j < i :: fields[j] == ApplyField(fs[j], Sub(v, j), SubPatch(patch, j))
      invariant forall j | i <= j < |fs| :: fields[j] == Sub(v, j)
    {
      match fs[i] {
        case Key =>
          if SubPatch(patch, i).KeyIs? {
            fields := fields[i := SubPatch(patch, i).key];
          }
        case Immutable =>
        case Mutable(ty) =>
          var field := new Ref(fields[i]);
          ResolveApply(ty, field, SubPatch(patch, i));
          fields := fields[i := field.value];
      }
    }
    assert fields == ApplyFields(fs, v, patch);
    target.value := Record(fields);
  }

  method ApplyAll(elem: Schema, target: Ref<Value>, ops: seq<Op>)
    modifies target
    ensures target.value == List(ApplyOps(elem, Items(old(target.value)), ops))
    decreases elem, 3
  {
    ghost var items := Items(target.value);
    target.value := List(Items(target.value));
    for i := 0 to |ops|
      invariant target.value == List(ApplyOps(elem, items, ops[..i]))
    {
      assert DropLast(ops[..i + 1]) == ops[..i];
      ApplyOne(elem, target, ops[i]);
    }
    assert ops[..|ops|] == ops;
  }

  method ApplyOne(elem: Schema, target: Ref<Value>, op: Op)
    requires target.value.List?
    modifies target
    ensures target.value == List(ApplyOp(elem, old(target.value).items, op))
    decreases elem, 2
  {
    var items := target.value.items;
    var i: nat;
    if op.at.Id? {
      i := FindPosition(elem, items, op.at.key);
    } else {
      i := op.at.index;
    }
    match op {
      case Insert(at, value) =>
        if at.Id? && i < |items| {
          target.value := List(items[i := value]);
        } else if at.At? && i <= |items| {
          target.value := List(items[..i] + [value] + items[i..]);
        } else {
          target.value := List(items + [value]);
        }
      case Remove(_) =>
        if i < |items| {
          target.value := List(items[..i] + items[i + 1..]);
        }
      case Update(_, patch) =>
        if i < |items| {
          var item := new Ref(items[i]);
          ResolveApply(elem, item, patch);
          target.value := List(items[i := item.value]);
        }
    }
  }

  // resolve_merge

  method ResolveMerge(sch: Schema, old': Ref<Patch>, new': Patch)
    modifies old'
    ensures old'.value == Merge(sch, old(old'.value), new')
    decreases sch, 1
  {
    match sch {
      case LeafType =>
        if new'.Replace? {
          old'.value := new';
        }
      case RecordType(fs) =>
        if new'.Fields? {
          if old'.value.Fields? {
            MergePatch(sch, old', new');
          } else {
            old'.value := new';
          }
        }
      case ListType(elem) =>
        match new' {
          case Full(_) => old'.value := new';
          case Incremental(ops) =>
            match old'.value {
              case Full(items) =>
                var full := new Ref(List(items));
                ApplyAll(elem, full, ops);
                old'.value := Full(full.value.items);
              case Incremental(earlier) => old'.value := Incremental(earlier + ops);
              case _ => old'.value := new';
            }
          case _ =>
        }
    }
  }

  /** The generated `merge_patch`: assigns the fields of the old patch one after the other. */
  method MergePatch(sch: Schema, old': Ref<Patch>, new': Patch)
    requires sch.RecordType? && old'.value.Fields? && new'.Fields?
    modifies old'
    ensures old'.value == Merge(sch, old(old'.value), new')
    decreases sch, 0
  {
    var fs := sch.fields;
    var p := old'.value;
    var fields := seq(|fs|, i requires 0 <= i < |fs| => SubPatch(p, i));
    for i := 0 to |fs|
      invariant |fields| == |fs|
      invariant forall j | 0 <= j < i :: fields[j] == MergeField(fs[j], SubPatch(p, j), SubPatch(new', j))
      invariant forall j | i <= j < |fs| :: fields[j] == SubPatch(p, j)
    {
      match fs[i] {
        case Key =>
          if SubPatch(new', i).KeyIs? {
            fields := fields[i := SubPatch(new', i)];
          }
        case Immutable =>
        case Mutable(ty) =>
          var field := new Ref(fields[i]);
          ResolveMerge(ty, field, SubPatch(new', i));
          fields := fields[i := field.value];
      }
    }
    assert fields == MergeFields(fs, p, new');
    old'.value := Fields(fields);
  }
}
