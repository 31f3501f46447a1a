/**
 Patches, and what the four operations on them compute: `Diff`, `Apply`,
 `Merge` and `FullPatch`, for every schema.  The record cases are the code the
 derive macro generates.
 */
module Patches {
  import opened Prelude
  import opened Schemas

  /** How an operation names its element: by key, or by index. */
  datatype OpKey = Id(key: Value) | At(index: nat)

  datatype Op =
    | Insert(at: OpKey, value: Value)
    | Remove(at: OpKey)
    | Update(at: OpKey, patch: Patch)

  datatype Patch =
    | Keep                       // None, for a leaf, a record or an immutable field
    | Replace(value: Value)      // Some(value), for a leaf or an immutable field
    | KeyIs(key: Value)          // a key field, always sent
    | Fields(fields: seq<Patch>) // Some(patch), for a record
    | NoChange                   // the three forms of a list patch
    | Full(items: seq<Value>)
    | Incremental(ops: seq<Op>)

  /** `is_some` of a field patch. */
  predicate IsSome(p: Patch) {
    !p.Keep? && !p.NoChange?
  }

  function SubPatch(p: Patch, i: nat): Patch {
    if p.Fields? && i < |p.fields| then p.fields[i] else Keep
  }

  // Diff

  function Diff(sch: Schema, old': Value, new': Value): Patch
    decreases sch, 0
  {
    match sch
    case LeafType => if old' != new' then Replace(new') else Keep
    case RecordType(fs) =>
      var ps := DiffFields(fs, old', new');
      if HasChanges(fs, ps) then Fields(ps) else Keep
    case ListType(elem) =>
      if old' == new' then NoChange
      else Incremental(DiffOps(elem, Items(old'), Items(new')))
  }

  function DiffFields(fs: seq<Field>, old': Value, new': Value): (ps: seq<Patch>)
    ensures |ps| == |fs|
    decreases fs, 0
  {
    seq(|fs|, i requires 0 <= i < |fs| => DiffField(fs[i], Sub(old', i), Sub(new', i)))
  }

  function DiffField(f: Field, old': Value, new': Value): Patch
    decreases f, 0
  {
    match f
    case Key => KeyIs(old')
    case Immutable => Keep
    case Mutable(ty) => Diff(ty, old', new')
  }

  predicate HasChanges(fs: seq<Field>, ps: seq<Patch>)
    requires |fs| == |ps|
  {
    exists i | 0 <= i < |fs| :: fs[i].Mutable? && IsSome(ps[i])
  }

  function DiffOps(elem: Schema, old': seq<Value>, new': seq<Value>): seq<Op>
    decreases elem, 3
  {
    if IdBased(elem) then
      Upserts(elem, old', new') + Removals(elem, old', new')
    else
      UpdatesUpTo(elem, old', new', Min(|old'|, |new'|)) +
      if |new'| > |old'| then InsertsUpTo(new', |old'|, |new'|)
      else RemovesDownTo(|new'|, |old'|)
  }

  function Min(a: nat, b: nat): nat {
    if a < b then a else b
  }

  /** One operation for each new element that is unknown or differs. */
  function Upserts(elem: Schema, old': seq<Value>, new': seq<Value>): seq<Op>
    decreases elem, 2, |new'|
  {
    if new' == [] then []
    else Upserts(elem, old', DropLast(new')) + Upsert(elem, old', Last(new'))
  }

  function Upsert(elem: Schema, old': seq<Value>, n: Value): seq<Op>
    decreases elem, 1
  {
    match Find(elem, old', KeyOf(elem, n))
    case Some(o) => if o != n then [Update(Id(KeyOf(elem, n)), Diff(elem, o, n))] else []
    case None => [Insert(Id(KeyOf(elem, n)), n)]
  }

  function Removals(elem: Schema, old': seq<Value>, new': seq<Value>): seq<Op> {
    if old' == [] then []
    else
      Removals(elem, DropLast(old'), new') +
      if Find(elem, new', KeyOf(elem, Last(old'))).None? then [Remove(Id(KeyOf(elem, Last(old'))))] else []
  }

  function UpdatesUpTo(elem: Schema, old': seq<Value>, new': seq<Value>, n: nat): seq<Op>
    requires n <= |old'| && n <= |new'|
    decreases elem, 2, n
  {
    if n == 0 then []
    else
      UpdatesUpTo(elem, old', new', n - 1) +
      if old'[n - 1] != new'[n - 1] then [Update(At(n - 1), Diff(elem, old'[n - 1], new'[n - 1]))] else []
  }

  /** Inserts at the tail, in ascending order of index. */
  function InsertsUpTo(new': seq<Value>, lo: nat, n: nat): seq<Op>
    requires lo <= n <= |new'|
    decreases n - lo
  {
    if n == lo then []
    else InsertsUpTo(new', lo, n - 1) + [Insert(At(n - 1), new'[n - 1])]
  }

  /** Removals of the tail, in descending order of index. */
  function RemovesDownTo(lo: nat, hi: nat): seq<Op>
    decreases hi - lo
  {
    if hi <= lo then []
    else RemovesDownTo(lo + 1, hi) + [Remove(At(lo))]
  }

  // Apply

  function Apply(sch: Schema, v: Value, p: Patch): Value
    decreases sch, 0
  {
    match sch
    case LeafType => if p.Replace? then p.value else v
    case RecordType(fs) => if p.Fields? then Record(ApplyFields(fs, v, p)) else v
    case ListType(elem) =>
      match p
      case Full(items) => List(items)
      case Incremental(ops) => List(ApplyOps(elem, Items(v), ops))
      case _ => v
  }

  function ApplyFields(fs: seq<Field>, v: Value, p: Patch): (vs: seq<Value>)
    ensures |vs| == |fs|
    decreases fs, 0
  {
    seq(|fs|, i requires 0 <= i < |fs| => ApplyField(fs[i], Sub(v, i), SubPatch(p, i)))
  }

  function ApplyField(f: Field, v: Value, p: Patch): Value
    decreases f, 0
  {
    match f
    case Key => if p.KeyIs? then p.key else v
    case Immutable => v
    case Mutable(ty) => Apply(ty, v, p)
  }

  function ApplyOps(elem: Schema, items: seq<Value>, ops: seq<Op>): seq<Value>
    decreases elem, 2, |ops|
  {
    if ops == [] then items
    else ApplyOp(elem, ApplyOps(elem, items, DropLast(ops)), Last(ops))
  }

  function ApplyOp(elem: Schema, items: seq<Value>, op: Op): seq<Value>
    decreases elem, 1
  {
    var i := if op.at.Id? then Position(elem, items, op.at.key) else op.at.index;
    match op
    case Insert(Id(_), v) => if i < |items| then items[i := v] else items + [v]
    case Insert(At(_), v) => if i <= |items| then items[..i] + [v] + items[i..] else items + [v]
    case Remove(_) => if i < |items| then items[..i] + items[i + 1..] else items
    case Update(_, p) => if i < |items| then items[i := Apply(elem, items[i], p)] else items
  }

  // Merge

  function Merge(sch: Schema, p: Patch, q: Patch): Patch
    decreases sch, 0
  {
    match sch
    case LeafType => if q.Replace? then q else p
    case RecordType(fs) =>
      if !q.Fields? then p
      else if !p.Fields? then q
      else Fields(MergeFields(fs, p, q))
    case ListType(elem) =>
      match q
      case Full(_) => q
      case Incremental(ops) => (
        match p
        case Full(items) => Full(ApplyOps(elem, items, ops))
        case Incremental(earlier) => Incremental(earlier + ops)
        case _ => q
      )
      case _ => p
  }

  function MergeFields(fs: seq<Field>, p: Patch, q: Patch): (ps: seq<Patch>)
    ensures |ps| == |fs|
    decreases fs, 0
  {
    seq(|fs|, i requires 0 <= i < |fs| => MergeField(fs[i], SubPatch(p, i), SubPatch(q, i)))
  }

  function MergeField(f: Field, p: Patch, q: Patch): Patch
    decreases f, 0
  {
    match f
    case Key => if q.KeyIs? then q else p
    case Immutable => p
    case Mutable(ty) => Merge(ty, p, q)
  }

  // Full patches

  function FullPatch(sch: Schema, v: Value): Patch
    decreases sch, 0
  {
    match sch
    case LeafType => Replace(v)
    case RecordType(fs) =>
      Fields(seq(|fs|, i requires 0 <= i < |fs| => FullField(fs[i], Sub(v, i))))
    case ListType(_) => Full(Items(v))
  }

  function FullField(f: Field, v: Value): Patch
    decreases f, 0
  {
    match f
    case Key => KeyIs(v)
    case Immutable => Keep
    case Mutable(ty) => FullPatch(ty, v)
  }

  /**
   The patches of the patch type that belongs to `sch`; a closed one sends no
   immutable field, though the type has room for it.
   */
  predicate PatchOf(sch: Schema, p: Patch, closed: bool)
    decreases sch, 0
  {
    match sch
    case LeafType => p.Keep? || p.Replace?
    case RecordType(fs) =>
      p.Keep? ||
      (p.Fields? && |p.fields| == |fs| && forall i | 0 <= i < |fs| :: FieldPatchOf(fs[i], p.fields[i], closed))
    case ListType(elem) =>
      match p
      case NoChange => true
      case Full(items) => true
      case Incremental(ops) => forall i | 0 <= i < |ops| :: OpOf(elem, ops[i], closed)
      case _ => false
  }

  predicate FieldPatchOf(f: Field, p: Patch, closed: bool)
    decreases f, 0
  {
    match f
    case Key => p.KeyIs?
    case Immutable => p.Keep? || (p.Replace? && !closed)
    case Mutable(ty) => PatchOf(ty, p, closed)
  }

  predicate OpOf(elem: Schema, op: Op, closed: bool)
    decreases elem, 1
  {
    op.at.Id? == IdBased(elem) && (op.Update? ==> PatchOf(elem, op.patch, closed))
  }
}
