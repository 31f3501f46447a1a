/**
 The types the synchronisation layer works over, as data: leaves, derived
 records with key, immutable and mutable fields, and lists.  A `Schema` plays
 the part of a Rust type, a `Value` of an inhabitant of it.
 */
module Schemas {
  import opened Prelude

  /** Content of a leaf.  An optional field is one leaf whatever it wraps. */
  datatype Atom =
    | Number(n: int)
    | Text(s: string)
    | Truth(b: bool)
    | Absent
    | Present(v: Value)

  datatype Value =
    | Leaf(atom: Atom)
    | Record(fields: seq<Value>)
    | List(items: seq<Value>)

  datatype Schema =
    | LeafType
    | RecordType(fields: seq<Field>)
    | ListType(elem: Schema)

  /** Field kinds of the derive macro: `#[diff(key)]`, `#[diff(immutable)]`, neither. */
  datatype Field = Key | Immutable | Mutable(ty: Schema)

  /** The key `()` of a record without a key field. */
  const UNIT: Value := Record([])

  /** Field `i` of a record value. */
  function Sub(v: Value, i: nat): Value {
    if v.Record? && i < |v.fields| then v.fields[i] else UNIT
  }

  function Items(v: Value): seq<Value> {
    if v.List? then v.items else []
  }

  /** Lists of records match elements by key, all other lists by index. */
  predicate IdBased(elem: Schema) {
    elem.RecordType?
  }

  /** Index of the first key field, or the number of fields. */
  function KeyIndex(fields: seq<Field>): (i: nat)
    ensures i <= |fields|
    ensures i < |fields| ==> fields[i].Key?
    ensures forall j | 0 <= j < i :: !fields[j].Key?
  {
    if fields == [] then 0
    else if fields[0].Key? then 0
    else 1 + KeyIndex(fields[1..])
  }

  function KeyOf(sch: Schema, v: Value): Value {
    if sch.RecordType? && KeyIndex(sch.fields) < |sch.fields|
    then Sub(v, KeyIndex(sch.fields))
    else UNIT
  }

  /** Index of the first element with key `k`, or the length of the list. */
  function Position(elem: Schema, items: seq<Value>, k: Value): (i: nat)
    ensures i <= |items|
    ensures i < |items| ==> KeyOf(elem, items[i]) == k
  {
    if items == [] then 0
    else if KeyOf(elem, items[0]) == k then 0
    else 1 + Position(elem, items[1..], k)
  }

  /** A keyed list read as a map: the first element with key `k`, if any. */
  function Find(elem: Schema, items: seq<Value>, k: Value): (r: Option<Value>)
    ensures r.Some? ==> KeyOf(elem, r.value) == k && r.value in items
  {
    var i := Position(elem, items, k);
    if i < |items| then Some(items[i]) else None
  }

  predicate UniqueKeys(elem: Schema, items: seq<Value>) {
    forall i, j | 0 <= i < j < |items| :: KeyOf(elem, items[i]) != KeyOf(elem, items[j])
  }

  /** `v` inhabits `sch`, and every keyed list inside it has distinct keys. */
  predicate WellFormed(sch: Schema, v: Value) {
    match sch
    case LeafType => v.Leaf?
    case RecordType(fs) =>
      v.Record? && |v.fields| == |fs| &&
      forall i | 0 <= i < |fs| && fs[i].Mutable? :: WellFormed(fs[i].ty, v.fields[i])
    case ListType(elem) =>
      v.List? &&
      (forall i | 0 <= i < |v.items| :: WellFormed(elem, v.items[i])) &&
      (IdBased(elem) ==> UniqueKeys(elem, v.items))
  }

  /**
   What synchronisation promises about two values: keys and mutable content
   agree, immutable fields are ignored, keyed lists agree as maps from key to
   element, other lists agree position by position.
   */
  ghost predicate Equivalent(sch: Schema, a: Value, b: Value)
    decreases sch, 0
  {
    match sch
    case LeafType => a == b
    case RecordType(fs) =>
      forall i | 0 <= i < |fs| :: SameField(fs[i], Sub(a, i), Sub(b, i))
    case ListType(elem) =>
      if IdBased(elem) then
        forall k :: SameEntry(elem, Find(elem, Items(a), k), Find(elem, Items(b), k))
      else
        |Items(a)| == |Items(b)| &&
        forall i | 0 <= i < |Items(a)| :: Equivalent(elem, Items(a)[i], Items(b)[i])
  }

  ghost predicate SameField(f: Field, a: Value, b: Value)
    decreases f, 0
  {
    match f
    case Key => a == b
    case Immutable => true
    case Mutable(ty) => Equivalent(ty, a, b)
  }

  ghost predicate SameEntry(elem: Schema, a: Option<Value>, b: Option<Value>)
    decreases elem, 1
  {
    (a.None? && b.None?) || (a.Some? && b.Some? && Equivalent(elem, a.value, b.value))
  }

  /**
   Keys stay put between two states: a record keeps its key fields, and so does
   everything the diff will match with its old self.
   */
  ghost predicate Stable(sch: Schema, old': Value, new': Value)
    decreases sch, 0
  {
    match sch
    case LeafType => true
    case RecordType(fs) =>
      forall i | 0 <= i < |fs| :: StableField(fs[i], Sub(old', i), Sub(new', i))
    case ListType(elem) =>
      if IdBased(elem) then
        forall k :: StableEntry(elem, Find(elem, Items(old'), k), Find(elem, Items(new'), k))
      else
        forall i | 0 <= i < |Items(old')| && i < |Items(new')| ::
          Stable(elem, Items(old')[i], Items(new')[i])
  }

  ghost predicate StableField(f: Field, old': Value, new': Value)
    decreases f, 0
  {
    match f
    case Key => old' == new'
    case Immutable => true
    case Mutable(ty) => Stable(ty, old', new')
  }

  ghost predicate StableEntry(elem: Schema, old': Option<Value>, new': Option<Value>)
    decreases elem, 1
  {
    old'.Some? && new'.Some? ==> Stable(elem, old'.value, new'.value)
  }

  // Equivalent is an equivalence relation

  lemma {:induction false} EquivalentRefl(sch: Schema, a: Value)
    ensures Equivalent(sch, a, a)
  {
    match sch
    case LeafType =>
    case RecordType(fs) =>
      forall i | 0 <= i < |fs| ensures SameField(fs[i], Sub(a, i), Sub(a, i)) {
        if fs[i].Mutable? {
          EquivalentRefl(fs[i].ty, Sub(a, i));
        }
      }
    case ListType(elem) =>
      forall x { EquivalentRefl(elem, x); }
  }

  lemma {:induction false} EquivalentSym(sch: Schema, a: Value, b: Value)
    requires Equivalent(sch, a, b)
    ensures Equivalent(sch, b, a)
  {
    match sch
    case LeafType =>
    case RecordType(fs) =>
      forall i | 0 <= i < |fs| ensures SameField(fs[i], Sub(b, i), Sub(a, i)) {
        assert SameField(fs[i], Sub(a, i), Sub(b, i));
        if fs[i].Mutable? {
          EquivalentSym(fs[i].ty, Sub(a, i), Sub(b, i));
        }
      }
    case ListType(elem) =>
      forall x, y | Equivalent(elem, x, y) ensures Equivalent(elem, y, x) {
        EquivalentSym(elem, x, y);
      }
      if IdBased(elem) {
        forall k ensures SameEntry(elem, Find(elem, Items(b), k), Find(elem, Items(a), k)) {
          assert SameEntry(elem, Find(elem, Items(a), k), Find(elem, Items(b), k));
        }
      }
  }

  lemma {:induction false} EquivalentTrans(sch: Schema, a: Value, b: Value, c: Value)
    requires Equivalent(sch, a, b) && Equivalent(sch, b, c)
    ensures Equivalent(sch, a, c)
  {
    match sch
    case LeafType =>
    case RecordType(fs) =>
      forall i | 0 <= i < |fs| ensures SameField(fs[i], Sub(a, i), Sub(c, i)) {
        assert SameField(fs[i], Sub(a, i), Sub(b, i)) && SameField(fs[i], Sub(b, i), Sub(c, i));
        if fs[i].Mutable? {
          EquivalentTrans(fs[i].ty, Sub(a, i), Sub(b, i), Sub(c, i));
        }
      }
    case ListType(elem) =>
      if IdBased(elem) {
        forall k ensures SameEntry(elem, Find(elem, Items(a), k), Find(elem, Items(c), k)) {
          var x, y, z := Find(elem, Items(a), k), Find(elem, Items(b), k), Find(elem, Items(c), k);
          assert SameEntry(elem, x, y) && SameEntry(elem, y, z);
          if x.Some? {
            EquivalentTrans(elem, x.value, y.value, z.value);
          }
        }
      } else {
        forall i | 0 <= i < |Items(a)| ensures Equivalent(elem, Items(a)[i], Items(c)[i]) {
          EquivalentTrans(elem, Items(a)[i], Items(b)[i], Items(c)[i]);
        }
      }
  }

  lemma {:induction false} StableRefl(sch: Schema, a: Value)
    ensures Stable(sch, a, a)
  {
    match sch
    case LeafType =>
    case RecordType(fs) =>
      forall i | 0 <= i < |fs| ensures StableField(fs[i], Sub(a, i), Sub(a, i)) {
        if fs[i].Mutable? {
          StableRefl(fs[i].ty, Sub(a, i));
        }
      }
    case ListType(elem) =>
      forall x { StableRefl(elem, x); }
  }
}
