/** When the order of two patches is immaterial: for the value, and for what the value means. */
module Commuting {
  import opened Prelude
  import opened Schemas
  import opened Patches
  import opened KeyedLists
  import opened KeyedOps
  import MergeLaws

  // For the value

  /**
   Whatever both patches set they set to the same value.  The target matters
   only to a list that both change by operations.
   */
  predicate Agree(sch: Schema, x: Value, p: Patch, q: Patch)
    decreases sch, 0
  {
    match sch
    case LeafType => p.Replace? && q.Replace? ==> p.value == q.value
    case RecordType(fs) =>
      p.Fields? && q.Fields? ==>
        forall i | 0 <= i < |fs| :: AgreeField(fs[i], Sub(x, i), SubPatch(p, i), SubPatch(q, i))
    case ListType(elem) =>
      match (p, q)
      case (Full(a), Full(b)) => a == b
      case (Full(a), Incremental(ops)) => ApplyOps(elem, a, ops) == a
      case (Incremental(ops), Full(a)) => ApplyOps(elem, a, ops) == a
      case (Incremental(a), Incremental(b)) => ApplyOps(elem, Items(x), a + b) == ApplyOps(elem, Items(x), b + a)
      case _ => true
  }

  predicate AgreeField(f: Field, x: Value, p: Patch, q: Patch)
    decreases f, 0
  {
    match f
    case Key => p.KeyIs? && q.KeyIs? ==> p.key == q.key
    case Immutable => true
    case Mutable(ty) => Agree(ty, x, p, q)
  }

  /** The order of two patches is immaterial exactly if they agree. */
  lemma {:induction false} CommuteExactly(sch: Schema, x: Value, p: Patch, q: Patch)
    ensures Apply(sch, Apply(sch, x, p), q) == Apply(sch, Apply(sch, x, q), p) <==> Agree(sch, x, p, q)
  {
    match sch
    case LeafType =>
    case RecordType(fs) =>
      if p.Fields? && q.Fields? {
        var y, z := Apply(sch, x, p), Apply(sch, x, q);
        var a, b := ApplyFields(fs, y, q), ApplyFields(fs, z, p);
        forall i | 0 <= i < |fs|
          ensures a[i] == b[i] <==> AgreeField(fs[i], Sub(x, i), SubPatch(p, i), SubPatch(q, i))
        {
          MergeLaws.AppliedField(sch, x, p, i);
          MergeLaws.AppliedField(sch, x, q, i);
          assert a[i] == ApplyField(fs[i], Sub(y, i), SubPatch(q, i));
          assert b[i] == ApplyField(fs[i], Sub(z, i), SubPatch(p, i));
          if fs[i].Mutable? {
            CommuteExactly(fs[i].ty, Sub(x, i), SubPatch(p, i), SubPatch(q, i));
          }
        }
        assert a == b <==> Agree(sch, x, p, q);
      }
    case ListType(elem) =>
      if p.Incremental? && q.Incremental? {
        MergeLaws.ApplyOpsAppend(elem, Items(x), p.ops, q.ops);
        MergeLaws.ApplyOpsAppend(elem, Items(x), q.ops, p.ops);
      }
  }

  predicate ListFree(sch: Schema) {
    match sch
    case LeafType => true
    case RecordType(fs) => forall i | 0 <= i < |fs| && fs[i].Mutable? :: ListFree(fs[i].ty)
    case ListType(_) => false
  }

  /** Without lists, agreement can be read off the two patches. */
  lemma {:induction false} AgreeAnywhere(sch: Schema, x: Value, y: Value, p: Patch, q: Patch)
    requires ListFree(sch)
    ensures Agree(sch, x, p, q) <==> Agree(sch, y, p, q)
  {
    if sch.RecordType? {
      forall i | 0 <= i < |sch.fields|
        ensures AgreeField(sch.fields[i], Sub(x, i), SubPatch(p, i), SubPatch(q, i)) <==>
                AgreeField(sch.fields[i], Sub(y, i), SubPatch(p, i), SubPatch(q, i))
      {
        if sch.fields[i].Mutable? {
          AgreeAnywhere(sch.fields[i].ty, Sub(x, i), Sub(y, i), SubPatch(p, i), SubPatch(q, i));
        }
      }
    }
  }

  // For what the value means

  /**
   Whatever both patches set they set to equivalent content.  The target
   matters only to a list that both change by operations.
   */
  ghost predicate Compatible(sch: Schema, x: Value, p: Patch, q: Patch)
    decreases sch, 0
  {
    match sch
    case LeafType => p.Replace? && q.Replace? ==> p.value == q.value
    case RecordType(fs) =>
      p.Fields? && q.Fields? ==>
        forall i | 0 <= i < |fs| :: CompatibleField(fs[i], Sub(x, i), SubPatch(p, i), SubPatch(q, i))
    case ListType(elem) =>
      match (p, q)
      case (Full(a), Full(b)) => Equivalent(sch, List(a), List(b))
      case (Full(a), Incremental(ops)) => Equivalent(sch, List(ApplyOps(elem, a, ops)), List(a))
      case (Incremental(ops), Full(a)) => Equivalent(sch, List(a), List(ApplyOps(elem, a, ops)))
      case (Incremental(a), Incremental(b)) =>
        Equivalent(sch, List(ApplyOps(elem, Items(x), a + b)), List(ApplyOps(elem, Items(x), b + a)))
      case _ => true
  }

  ghost predicate CompatibleField(f: Field, x: Value, p: Patch, q: Patch)
    decreases f, 0
  {
    match f
    case Key => p.KeyIs? && q.KeyIs? ==> p.key == q.key
    case Immutable => true
    case Mutable(ty) => Compatible(ty, x, p, q)
  }

  /** Two patches lead to equivalent values in either order exactly if they are compatible. */
  lemma {:induction false} EquivalentExactly(sch: Schema, x: Value, p: Patch, q: Patch)
    ensures Equivalent(sch, Apply(sch, Apply(sch, x, p), q), Apply(sch, Apply(sch, x, q), p)) <==>
            Compatible(sch, x, p, q)
  {
    match sch
    case LeafType =>
    case RecordType(fs) =>
      if p.Fields? && q.Fields? {
        var y, z := Apply(sch, x, p), Apply(sch, x, q);
        var a, b := Apply(sch, y, q), Apply(sch, z, p);
        forall i | 0 <= i < |fs|
          ensures SameField(fs[i], Sub(a, i), Sub(b, i)) <==>
                  CompatibleField(fs[i], Sub(x, i), SubPatch(p, i), SubPatch(q, i))
        {
          MergeLaws.AppliedField(sch, x, p, i);
          MergeLaws.AppliedField(sch, x, q, i);
          MergeLaws.AppliedField(sch, y, q, i);
          MergeLaws.AppliedField(sch, z, p, i);
          if fs[i].Mutable? {
            EquivalentExactly(fs[i].ty, Sub(x, i), SubPatch(p, i), SubPatch(q, i));
          }
        }
        SamePointwise(fs, x, a, b, p, q);
      } else {
        EquivalentRefl(sch, Apply(sch, Apply(sch, x, p), q));
      }
    case ListType(elem) =>
      ListsExactly(elem, x, p, q);
  }

  lemma {:induction false} SamePointwise(fs: seq<Field>, x: Value, a: Value, b: Value, p: Patch, q: Patch)
    requires p.Fields? && q.Fields?
    requires forall i | 0 <= i < |fs| ::
      SameField(fs[i], Sub(a, i), Sub(b, i)) <==> CompatibleField(fs[i], Sub(x, i), SubPatch(p, i), SubPatch(q, i))
    ensures Equivalent(RecordType(fs), a, b) <==> Compatible(RecordType(fs), x, p, q)
  {
    if Equivalent(RecordType(fs), a, b) {
      forall i | 0 <= i < |fs| ensures CompatibleField(fs[i], Sub(x, i), SubPatch(p, i), SubPatch(q, i)) {
        assert SameField(fs[i], Sub(a, i), Sub(b, i));
      }
    }
    if Compatible(RecordType(fs), x, p, q) {
      forall i | 0 <= i < |fs| ensures SameField(fs[i], Sub(a, i), Sub(b, i)) {
        assert CompatibleField(fs[i], Sub(x, i), SubPatch(p, i), SubPatch(q, i));
      }
    }
  }

  lemma {:induction false} ListsExactly(elem: Schema, x: Value, p: Patch, q: Patch)
    ensures var sch := ListType(elem);
            Equivalent(sch, Apply(sch, Apply(sch, x, p), q), Apply(sch, Apply(sch, x, q), p)) <==>
            Compatible(sch, x, p, q)
  {
    var sch := ListType(elem);
    if p.Full? && q.Full? {
      if Equivalent(sch, List(p.items), List(q.items)) {
        EquivalentSym(sch, List(p.items), List(q.items));
      } else if Equivalent(sch, List(q.items), List(p.items)) {
        EquivalentSym(sch, List(q.items), List(p.items));
      }
    } else if p.Incremental? && q.Incremental? {
      MergeLaws.ApplyOpsAppend(elem, Items(x), p.ops, q.ops);
      MergeLaws.ApplyOpsAppend(elem, Items(x), q.ops, p.ops);
    } else if !(p.Full? || p.Incremental?) || !(q.Full? || q.Incremental?) {
      EquivalentRefl(sch, Apply(sch, Apply(sch, x, p), q));
    }
  }

  /** Patches that agree are compatible. */
  lemma AgreeCompatible(sch: Schema, x: Value, p: Patch, q: Patch)
    requires Agree(sch, x, p, q)
    ensures Compatible(sch, x, p, q)
  {
    CommuteExactly(sch, x, p, q);
    EquivalentExactly(sch, x, p, q);
    EquivalentRefl(sch, Apply(sch, Apply(sch, x, p), q));
  }

  // A keyed list that both patches change by operations

  /** The head of a group: what a keyed list holds under a key. */
  function Head(g: seq<Value>): Option<Value> {
    if g == [] then None else Some(g[0])
  }

  predicate Names(ops: seq<Op>, k: Value) {
    exists op :: op in ops && op.at == Id(k)
  }

  lemma {:induction false} FindAfterOps(elem: Schema, items: seq<Value>, ops: seq<Op>, k: Value)
    requires IdBased(elem) && forall op | op in ops :: KeepsKey(elem, op)
    ensures Find(elem, ApplyOps(elem, items, ops), k) == Head(GroupOps(elem, Group(elem, items, k), ops, k))
  {
    ApplyOpsByKey(elem, items, ops, k);
    GroupHead(elem, ApplyOps(elem, items, ops), k);
  }

  /** Under a key that only one of two lists of operations names their order is immaterial. */
  lemma NamedOnce(elem: Schema, g: seq<Value>, a: seq<Op>, b: seq<Op>, k: Value)
    requires !Names(a, k) || !Names(b, k)
    ensures GroupOps(elem, g, a + b, k) == GroupOps(elem, g, b + a, k)
  {
    GroupOpsAppend(elem, g, a, b, k);
    GroupOpsAppend(elem, g, b, a, k);
    if !Names(a, k) {
      GroupOpsOther(elem, g, a, k);
      GroupOpsOther(elem, GroupOps(elem, g, b, k), a, k);
    } else {
      GroupOpsOther(elem, g, b, k);
      GroupOpsOther(elem, GroupOps(elem, g, a, k), b, k);
    }
  }

  /** The two orders lead to equivalent content under key `k`. */
  ghost predicate SameUnder(elem: Schema, items: seq<Value>, a: seq<Op>, b: seq<Op>, k: Value) {
    var g := Group(elem, items, k);
    SameEntry(elem, Head(GroupOps(elem, g, a + b, k)), Head(GroupOps(elem, g, b + a, k)))
  }

  /**
   Two lists of operations by key, as every diff makes them, are compatible on
   a list exactly if under each key that both name the elements come out
   equivalent; so they always are if they name no key in common.
   */
  lemma {:induction false} OpsCompatibleExactly(elem: Schema, x: Value, a: seq<Op>, b: seq<Op>)
    requires IdBased(elem) && forall op | op in a + b :: KeepsKey(elem, op)
    ensures Compatible(ListType(elem), x, Incremental(a), Incremental(b)) <==>
            forall k | Names(a, k) && Names(b, k) :: SameUnder(elem, Items(x), a, b, k)
  {
    var l, r := List(ApplyOps(elem, Items(x), a + b)), List(ApplyOps(elem, Items(x), b + a));
    forall k
      ensures SameEntry(elem, Find(elem, Items(l), k), Find(elem, Items(r), k)) <==>
              (Names(a, k) && Names(b, k) ==> SameUnder(elem, Items(x), a, b, k))
    {
      UnderKey(elem, Items(x), a, b, k);
    }
    if Equivalent(ListType(elem), l, r) {
      forall k | Names(a, k) && Names(b, k) ensures SameUnder(elem, Items(x), a, b, k) {
        assert SameEntry(elem, Find(elem, Items(l), k), Find(elem, Items(r), k));
      }
    }
  }

  lemma {:induction false} UnderKey(elem: Schema, items: seq<Value>, a: seq<Op>, b: seq<Op>, k: Value)
    requires IdBased(elem) && forall op | op in a + b :: KeepsKey(elem, op)
    ensures SameEntry(elem, Find(elem, ApplyOps(elem, items, a + b), k), Find(elem, ApplyOps(elem, items, b + a), k)) <==>
            (Names(a, k) && Names(b, k) ==> SameUnder(elem, items, a, b, k))
  {
    FindAfterOps(elem, items, a + b, k);
    FindAfterOps(elem, items, b + a, k);
    if !(Names(a, k) && Names(b, k)) {
      var g := Group(elem, items, k);
      NamedOnce(elem, g, a, b, k);
      if Head(GroupOps(elem, g, a + b, k)).Some? {
        EquivalentRefl(elem, Head(GroupOps(elem, g, a + b, k)).value);
      }
    }
  }
}
