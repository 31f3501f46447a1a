/** When a diff is empty, and when an empty diff means that the two values are identical. */
module EmptyDiffs {
  import opened Prelude
  import opened Schemas
  import opened Patches
  import opened Sync

  /** Equal in what a diff compares: mutable leaves and whole mutable lists, through nested records. */
  predicate Unnoticed(sch: Schema, a: Value, b: Value) {
    match sch
    case RecordType(fs) => forall i | 0 <= i < |fs| && fs[i].Mutable? :: Unnoticed(fs[i].ty, Sub(a, i), Sub(b, i))
    case _ => a == b
  }

  /** Equal in what it does not compare: key and immutable fields, through nested records. */
  predicate SameLabels(sch: Schema, a: Value, b: Value) {
    sch.RecordType? ==>
      forall i | 0 <= i < |sch.fields| ::
        if sch.fields[i].Mutable? then SameLabels(sch.fields[i].ty, Sub(a, i), Sub(b, i)) else Sub(a, i) == Sub(b, i)
  }

  /** A diff is empty exactly if no mutable leaf and no mutable list differs. */
  lemma {:induction false} EmptyExactly(sch: Schema, a: Value, b: Value)
    ensures !IsSome(Diff(sch, a, b)) <==> Unnoticed(sch, a, b)
  {
    if sch.RecordType? {
      var fs := sch.fields;
      var ps := DiffFields(fs, a, b);
      forall i | 0 <= i < |fs| && fs[i].Mutable?
        ensures !IsSome(ps[i]) <==> Unnoticed(fs[i].ty, Sub(a, i), Sub(b, i))
      {
        assert ps[i] == DiffField(fs[i], Sub(a, i), Sub(b, i));
        EmptyExactly(fs[i].ty, Sub(a, i), Sub(b, i));
      }
      assert IsSome(Diff(sch, a, b)) <==> HasChanges(fs, ps);
    }
  }

  /** An empty diff means identical values exactly if the fields it does not compare agree too. */
  lemma {:induction false} IdenticalExactly(sch: Schema, a: Value, b: Value)
    requires WellFormed(sch, a) && WellFormed(sch, b)
    ensures a == b <==> !IsSome(Diff(sch, a, b)) && SameLabels(sch, a, b)
  {
    EmptyExactly(sch, a, b);
    if sch.RecordType? {
      var fs := sch.fields;
      forall i | 0 <= i < |fs| && fs[i].Mutable?
        ensures Sub(a, i) == Sub(b, i) <==>
                Unnoticed(fs[i].ty, Sub(a, i), Sub(b, i)) && SameLabels(fs[i].ty, Sub(a, i), Sub(b, i))
      {
        EmptyExactly(fs[i].ty, Sub(a, i), Sub(b, i));
        IdenticalExactly(fs[i].ty, Sub(a, i), Sub(b, i));
      }
      if Unnoticed(sch, a, b) && SameLabels(sch, a, b) {
        assert a.fields == b.fields by {
          forall i | 0 <= i < |fs| ensures a.fields[i] == b.fields[i] {
            assert a.fields[i] == Sub(a, i) && b.fields[i] == Sub(b, i);
          }
        }
      }
    }
  }

  // The types for which an empty diff always means identical values

  /** No key and no immutable field, except inside lists. */
  predicate AllMutable(sch: Schema) {
    sch.RecordType? ==>
      forall i | 0 <= i < |sch.fields| :: sch.fields[i].Mutable? && AllMutable(sch.fields[i].ty)
  }

  /** Some value of the type. */
  function Sample(sch: Schema): Value {
    match sch
    case LeafType => Leaf(Absent)
    case RecordType(fs) =>
      Record(seq(|fs|, i requires 0 <= i < |fs| => if fs[i].Mutable? then Sample(fs[i].ty) else Leaf(Absent)))
    case ListType(_) => List([])
  }

  lemma {:induction false} SampleWellFormed(sch: Schema)
    ensures WellFormed(sch, Sample(sch))
  {
    if sch.RecordType? {
      forall i | 0 <= i < |sch.fields| && sch.fields[i].Mutable?
        ensures WellFormed(sch.fields[i].ty, Sample(sch).fields[i])
      {
        SampleWellFormed(sch.fields[i].ty);
      }
    }
  }

  lemma {:induction false} AllMutableLabels(sch: Schema, a: Value, b: Value)
    requires AllMutable(sch)
    ensures SameLabels(sch, a, b)
  {
    if sch.RecordType? {
      forall i | 0 <= i < |sch.fields| ensures SameLabels(sch.fields[i].ty, Sub(a, i), Sub(b, i)) {
        AllMutableLabels(sch.fields[i].ty, Sub(a, i), Sub(b, i));
      }
    }
  }

  /** A key or immutable field anywhere outside lists can change unnoticed. */
  lemma {:induction false} UnnoticedChange(sch: Schema) returns (a: Value, b: Value)
    requires !AllMutable(sch)
    ensures WellFormed(sch, a) && WellFormed(sch, b) && a != b && Unnoticed(sch, a, b)
  {
    var fs, v := sch.fields, Sample(sch);
    SampleWellFormed(sch);
    var i :| 0 <= i < |fs| && !(fs[i].Mutable? && AllMutable(fs[i].ty));
    var x, y := Leaf(Truth(false)), Leaf(Truth(true));
    if fs[i].Mutable? {
      x, y := UnnoticedChange(fs[i].ty);
    }
    a, b := Record(v.fields[i := x]), Record(v.fields[i := y]);
    assert a.fields[i] != b.fields[i];
    forall j | 0 <= j < |fs| && fs[j].Mutable? ensures Unnoticed(fs[j].ty, Sub(a, j), Sub(b, j)) {
      if j != i {
        DiffOfSame(fs[j].ty, Sub(a, j));
        EmptyExactly(fs[j].ty, Sub(a, j), Sub(a, j));
      }
    }
  }

  /**
   `None` means identical, as documented, for exactly the types without key
   and immutable fields outside lists.
   */
  lemma DocumentedExactly(sch: Schema)
    ensures (forall a, b | WellFormed(sch, a) && WellFormed(sch, b) :: !IsSome(Diff(sch, a, b)) <==> a == b) <==>
            AllMutable(sch)
  {
    if AllMutable(sch) {
      forall a, b | WellFormed(sch, a) && WellFormed(sch, b) ensures !IsSome(Diff(sch, a, b)) <==> a == b {
        IdenticalExactly(sch, a, b);
        AllMutableLabels(sch, a, b);
      }
    } else {
      var a, b := UnnoticedChange(sch);
      EmptyExactly(sch, a, b);
    }
  }

  // Inputs of each kind

  /** A changed key: the diff is empty, and a replica misses the change. */
  lemma KeyChangeUnnoticed(k: Value, k': Value, x: Value)
    requires k != k'
    ensures var sch, a, b := RecordType([Key, Mutable(LeafType)]), Record([k, x]), Record([k', x]);
            a != b && !IsSome(Diff(sch, a, b)) && !Equivalent(sch, a, b)
  {
    var sch, a, b := RecordType([Key, Mutable(LeafType)]), Record([k, x]), Record([k', x]);
    assert Sub(a, 0) == k && Sub(b, 0) == k' && Sub(a, 1) == x == Sub(b, 1);
    EmptyExactly(sch, a, b);
    assert !SameField(sch.fields[0], Sub(a, 0), Sub(b, 0));
  }

  /** A changed immutable field: the diff is empty, and the values are equivalent. */
  lemma ImmutableChangeUnnoticed(k: Value, x: Value, y: Value)
    requires x != y
    ensures var sch, a, b := RecordType([Key, Immutable]), Record([k, x]), Record([k, y]);
            a != b && !IsSome(Diff(sch, a, b)) && Equivalent(sch, a, b)
  {
    var sch, a, b := RecordType([Key, Immutable]), Record([k, x]), Record([k, y]);
    assert a.fields[1] != b.fields[1];
    EmptyExactly(sch, a, b);
    forall i | 0 <= i < 2 ensures SameField(sch.fields[i], Sub(a, i), Sub(b, i)) {
    }
  }

  /** A changed immutable field of a list element: a change is reported, although it patches nothing. */
  lemma ImmutableInListNoticed(e: Value, x: Value, y: Value)
    requires x != y
    ensures var sch := ListType(RecordType([Key, Immutable]));
            var a, b := List([Record([e, x])]), List([Record([e, y])]);
            Equivalent(sch, a, b) && Diff(sch, a, b) == Incremental([Update(Id(e), Keep)]) && IsSome(Diff(sch, a, b)) &&
            Apply(sch, a, Diff(sch, a, b)) == a
  {
    var elem := RecordType([Key, Immutable]);
    var sch := ListType(elem);
    var o, n := Record([e, x]), Record([e, y]);
    var a, b := List([o]), List([n]);
    assert o.fields[1] != n.fields[1];
    assert KeyIndex(elem.fields) == 0 && KeyOf(elem, o) == e && KeyOf(elem, n) == e;
    ImmutableChangeUnnoticed(e, x, y);
    assert Diff(elem, o, n) == Keep;
    forall k ensures SameEntry(elem, Find(elem, Items(a), k), Find(elem, Items(b), k)) {
      assert Find(elem, [o], k) == if k == e then Some(o) else None;
      assert Find(elem, [n], k) == if k == e then Some(n) else None;
    }
    assert DropLast([n]) == [] && DropLast([o]) == [];
    assert Find(elem, [o], e) == Some(o) && Find(elem, [n], e) == Some(n);
    var op := Update(Id(e), Keep);
    assert Upsert(elem, [o], n) == [op];
    assert Upserts(elem, [o], []) == [] && Removals(elem, [], [n]) == [];
    assert Upserts(elem, [o], [n]) == [op] && Removals(elem, [o], [n]) == [];
    assert DiffOps(elem, [o], [n]) == [op] + [] == [op];
    ApplySingle(elem, [o], op);
    assert [o][0 := o] == [o];
  }
}
