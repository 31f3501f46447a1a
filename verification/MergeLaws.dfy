/** Merging patches is composing them, and is associative with a unit. */
module MergeLaws {
  import opened Prelude
  import opened Schemas
  import opened Patches

  lemma {:induction false} ApplyOpsAppend(elem: Schema, items: seq<Value>, p: seq<Op>, q: seq<Op>)
    ensures ApplyOps(elem, items, p + q) == ApplyOps(elem, ApplyOps(elem, items, p), q)
    decreases |q|
  {
    if q == [] {
      assert p + q == p;
    } else {
      ApplyOpsAppend(elem, items, p, DropLast(q));
      assert DropLast(p + q) == p + DropLast(q);
    }
  }

  lemma AppliedField(sch: Schema, x: Value, p: Patch, i: nat)
    requires sch.RecordType? && p.Fields? && i < |sch.fields|
    ensures Sub(Apply(sch, x, p), i) == ApplyField(sch.fields[i], Sub(x, i), SubPatch(p, i))
  {
    assert Apply(sch, x, p) == Record(ApplyFields(sch.fields, x, p));
  }

  lemma MergedField(sch: Schema, p: Patch, q: Patch, i: nat)
    requires sch.RecordType? && p.Fields? && q.Fields? && i < |sch.fields|
    ensures SubPatch(Merge(sch, p, q), i) == MergeField(sch.fields[i], SubPatch(p, i), SubPatch(q, i))
  {
    assert Merge(sch, p, q) == Fields(MergeFields(sch.fields, p, q));
  }

  /** A merged patch names the later key and keeps the earlier content of an immutable slot. */
  lemma MergedSlots(sch: Schema, p: Patch, q: Patch, i: nat)
    requires PatchOf(sch, p, false) && PatchOf(sch, q, false)
    requires sch.RecordType? && p.Fields? && q.Fields? && i < |sch.fields|
    ensures sch.fields[i].Key? ==> SubPatch(Merge(sch, p, q), i) == SubPatch(q, i)
    ensures sch.fields[i].Immutable? ==> SubPatch(Merge(sch, p, q), i) == SubPatch(p, i)
  {
    MergedField(sch, p, q, i);
    assert FieldPatchOf(sch.fields[i], q.fields[i], false);
  }

  /** For any two patches and any target, whether or not a diff produced them. */
  lemma {:induction false} MergeIsComposition(sch: Schema, x: Value, p: Patch, q: Patch)
    ensures Apply(sch, x, Merge(sch, p, q)) == Apply(sch, Apply(sch, x, p), q)
  {
    match sch
    case LeafType =>
    case RecordType(fs) =>
      if p.Fields? && q.Fields? {
        var m := Merge(sch, p, q);
        var y := Apply(sch, x, p);
        forall i | 0 <= i < |fs|
          ensures ApplyFields(fs, x, m)[i] == ApplyFields(fs, y, q)[i]
        {
          MergedField(sch, p, q, i);
          AppliedField(sch, x, p, i);
          if fs[i].Mutable? {
            MergeIsComposition(fs[i].ty, Sub(x, i), SubPatch(p, i), SubPatch(q, i));
          }
        }
        assert ApplyFields(fs, x, m) == ApplyFields(fs, y, q);
      }
    case ListType(elem) =>
      if p.Incremental? && q.Incremental? {
        ApplyOpsAppend(elem, Items(x), p.ops, q.ops);
      }
  }

  /** Any grouping of conflations gives the identical patch. */
  lemma {:induction false} MergeAssociative(sch: Schema, p: Patch, q: Patch, r: Patch)
    ensures Merge(sch, Merge(sch, p, q), r) == Merge(sch, p, Merge(sch, q, r))
  {
    match sch
    case LeafType =>
    case RecordType(fs) =>
      if p.Fields? && q.Fields? && r.Fields? {
        var pq, qr := Merge(sch, p, q), Merge(sch, q, r);
        forall i | 0 <= i < |fs|
          ensures MergeFields(fs, pq, r)[i] == MergeFields(fs, p, qr)[i]
        {
          MergedField(sch, p, q, i);
          MergedField(sch, q, r, i);
          if fs[i].Mutable? {
            MergeAssociative(fs[i].ty, SubPatch(p, i), SubPatch(q, i), SubPatch(r, i));
          }
        }
        assert MergeFields(fs, pq, r) == MergeFields(fs, p, qr);
      }
    case ListType(elem) =>
      if q.Incremental? && r.Incremental? {
        if p.Full? {
          ApplyOpsAppend(elem, p.items, q.ops, r.ops);
        } else if p.Incremental? {
          assert (p.ops + q.ops) + r.ops == p.ops + (q.ops + r.ops);
        }
      }
  }

  /** `None` of leaves and records, `NoChange` of lists. */
  function EmptyPatch(sch: Schema): Patch {
    if sch.ListType? then NoChange else Keep
  }

  lemma EmptyPatchIsUnit(sch: Schema, p: Patch, x: Value)
    requires PatchOf(sch, p, false)
    ensures Merge(sch, EmptyPatch(sch), p) == p == Merge(sch, p, EmptyPatch(sch))
    ensures Apply(sch, x, EmptyPatch(sch)) == x
    ensures IsSome(p) <==> p != EmptyPatch(sch)
  {
  }

  lemma {:induction false} MergeKeepsType(sch: Schema, p: Patch, q: Patch, closed: bool)
    requires PatchOf(sch, p, closed) && PatchOf(sch, q, closed)
    ensures PatchOf(sch, Merge(sch, p, q), closed)
    ensures IsSome(Merge(sch, p, q)) <==> IsSome(p) || IsSome(q)
  {
    if sch.RecordType? && p.Fields? && q.Fields? {
      forall i | 0 <= i < |sch.fields|
        ensures FieldPatchOf(sch.fields[i], MergeField(sch.fields[i], p.fields[i], q.fields[i]), closed)
      {
        assert FieldPatchOf(sch.fields[i], p.fields[i], closed) && FieldPatchOf(sch.fields[i], q.fields[i], closed);
        if sch.fields[i].Mutable? {
          MergeKeepsType(sch.fields[i].ty, p.fields[i], q.fields[i], closed);
        }
      }
    }
  }

  // Diffs have the patch type and send no immutable field

  lemma {:induction false} DiffOfType(sch: Schema, old': Value, new': Value)
    ensures PatchOf(sch, Diff(sch, old', new'), true)
    decreases sch, 0
  {
    match sch
    case LeafType =>
    case RecordType(fs) =>
      var ps := DiffFields(fs, old', new');
      forall i | 0 <= i < |fs| ensures FieldPatchOf(fs[i], ps[i], true) {
        assert ps[i] == DiffField(fs[i], Sub(old', i), Sub(new', i));
        if fs[i].Mutable? {
          DiffOfType(fs[i].ty, Sub(old', i), Sub(new', i));
        }
      }
    case ListType(elem) =>
      forall o, n ensures PatchOf(elem, Diff(elem, o, n), true) {
        DiffOfType(elem, o, n);
      }
      if IdBased(elem) {
        UpsertsOfType(elem, Items(old'), Items(new'));
        RemovalsOfType(elem, Items(old'), Items(new'));
      } else {
        UpdatesOfType(elem, Items(old'), Items(new'), Min(|Items(old')|, |Items(new')|));
        InsertsOfType(elem, Items(new'), Min(|Items(old')|, |Items(new')|), |Items(new')|);
        RemovesOfType(elem, |Items(new')|, |Items(old')|);
      }
  }

  ghost predicate DiffsTyped(elem: Schema) {
    forall o, n :: PatchOf(elem, Diff(elem, o, n), true)
  }

  predicate OpsOf(elem: Schema, ops: seq<Op>) {
    forall i | 0 <= i < |ops| :: OpOf(elem, ops[i], true)
  }

  lemma {:induction false} UpsertsOfType(elem: Schema, old': seq<Value>, new': seq<Value>)
    requires IdBased(elem) && DiffsTyped(elem)
    ensures OpsOf(elem, Upserts(elem, old', new'))
  {
    if new' != [] {
      UpsertsOfType(elem, old', DropLast(new'));
      var n := Last(new');
      var o := Find(elem, old', KeyOf(elem, n));
      if o.Some? {
        assert PatchOf(elem, Diff(elem, o.value, n), true);
      }
      assert OpsOf(elem, Upsert(elem, old', n));
    }
  }

  lemma {:induction false} RemovalsOfType(elem: Schema, old': seq<Value>, new': seq<Value>)
    requires IdBased(elem)
    ensures OpsOf(elem, Removals(elem, old', new'))
  {
    if old' != [] {
      RemovalsOfType(elem, DropLast(old'), new');
    }
  }

  lemma {:induction false} UpdatesOfType(elem: Schema, old': seq<Value>, new': seq<Value>, n: nat)
    requires !IdBased(elem) && DiffsTyped(elem) && n <= |old'| && n <= |new'|
    ensures OpsOf(elem, UpdatesUpTo(elem, old', new', n))
  {
    if n > 0 {
      UpdatesOfType(elem, old', new', n - 1);
    }
  }

  lemma {:induction false} InsertsOfType(elem: Schema, new': seq<Value>, lo: nat, n: nat)
    requires !IdBased(elem) && lo <= n <= |new'|
    ensures OpsOf(elem, InsertsUpTo(new', lo, n))
    decreases n - lo
  {
    if n > lo {
      InsertsOfType(elem, new', lo, n - 1);
    }
  }

  lemma {:induction false} RemovesOfType(elem: Schema, lo: nat, hi: nat)
    requires !IdBased(elem)
    ensures OpsOf(elem, RemovesDownTo(lo, hi))
    decreases hi - lo
  {
    if lo < hi {
      RemovesOfType(elem, lo + 1, hi);
    }
  }

  // Full patches

  /** `y`'s keys and mutable content over `x`'s own immutable fields. */
  function Overlay(sch: Schema, x: Value, y: Value): Value
    decreases sch, 0
  {
    match sch
    case LeafType => y
    case RecordType(fs) =>
      Record(seq(|fs|, i requires 0 <= i < |fs| => OverlayField(fs[i], Sub(x, i), Sub(y, i))))
    case ListType(_) => List(Items(y))
  }

  function OverlayField(f: Field, x: Value, y: Value): Value
    decreases f, 0
  {
    match f
    case Key => y
    case Immutable => x
    case Mutable(ty) => Overlay(ty, x, y)
  }

  lemma {:induction false} FullPatchOverlays(sch: Schema, x: Value, y: Value)
    ensures Apply(sch, x, FullPatch(sch, y)) == Overlay(sch, x, y)
    ensures Equivalent(sch, Overlay(sch, x, y), y)
    ensures PatchOf(sch, FullPatch(sch, y), true)
  {
    match sch
    case LeafType =>
    case RecordType(fs) =>
      var p, o := FullPatch(sch, y), Overlay(sch, x, y);
      forall i | 0 <= i < |fs|
        ensures ApplyFields(fs, x, p)[i] == o.fields[i]
        ensures SameField(fs[i], Sub(o, i), Sub(y, i))
        ensures FieldPatchOf(fs[i], p.fields[i], true)
      {
        assert SubPatch(p, i) == FullField(fs[i], Sub(y, i));
        assert Sub(o, i) == OverlayField(fs[i], Sub(x, i), Sub(y, i));
        if fs[i].Mutable? {
          FullPatchOverlays(fs[i].ty, Sub(x, i), Sub(y, i));
        }
      }
      assert ApplyFields(fs, x, p) == o.fields;
    case ListType(elem) =>
      EquivalentRefl(sch, y);
  }

  lemma {:induction false} OverlayForgetsPatches(sch: Schema, x: Value, p: Patch, y: Value)
    ensures Overlay(sch, Apply(sch, x, p), y) == Overlay(sch, x, y)
  {
    if sch.RecordType? && p.Fields? {
      var fs, z := sch.fields, Apply(sch, x, p);
      forall i | 0 <= i < |fs|
        ensures OverlayField(fs[i], Sub(z, i), Sub(y, i)) == OverlayField(fs[i], Sub(x, i), Sub(y, i))
      {
        AppliedField(sch, x, p, i);
        if fs[i].Mutable? {
          OverlayForgetsPatches(fs[i].ty, Sub(x, i), SubPatch(p, i), Sub(y, i));
        }
      }
      assert Overlay(sch, z, y).fields == Overlay(sch, x, y).fields;
    }
  }

  /** A full patch makes every patch merged before it irrelevant. */
  lemma FullPatchAbsorbs(sch: Schema, x: Value, p: Patch, y: Value)
    ensures Apply(sch, x, Merge(sch, p, FullPatch(sch, y))) == Apply(sch, x, FullPatch(sch, y))
  {
    MergeIsComposition(sch, x, p, FullPatch(sch, y));
    FullPatchOverlays(sch, Apply(sch, x, p), y);
    FullPatchOverlays(sch, x, y);
    OverlayForgetsPatches(sch, x, p, y);
  }
}
