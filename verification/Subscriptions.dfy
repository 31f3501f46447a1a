/**
 The subscription tracker: the server's cache of what a subscriber has, and the
 deltas that turn the subscriber's replica of the old cache into the new one.
 */
module Subscriptions {
  import opened Prelude
  import opened Schemas
  import opened Patches
  import opened KeyedLists
  import opened Sync
  import EmptyDiffs
  import MergeLaws
  import NoDrift

  type Cache = map<Value, Value>

  /** The state of `update_list` after some items; `remaining` is the old cache without their keys. */
  datatype ListUpdate = ListUpdate(remaining: Cache, cache: Cache, added: seq<Value>, updated: seq<Patch>)

  function UpdatedBy(sch: Schema, cache: Cache, items: seq<Value>): ListUpdate {
    if items == [] then ListUpdate(cache, map[], [], [])
    else UpdateItem(sch, UpdatedBy(sch, cache, DropLast(items)), Last(items))
  }

  function UpdateItem(sch: Schema, u: ListUpdate, item: Value): ListUpdate {
    var k := KeyOf(sch, item);
    if k in u.remaining then
      var p := Diff(sch, u.remaining[k], item);
      ListUpdate(u.remaining - {k}, u.cache[k := item], u.added, if IsSome(p) then u.updated + [p] else u.updated)
    else
      ListUpdate(u.remaining, u.cache[k := item], u.added + [item], u.updated)
  }

  /** `None` if a tracked item is unchanged, its diff if it changed, a full patch if it is new. */
  function SinglePatch(sch: Schema, cache: Cache, item: Value): Patch {
    var k := KeyOf(sch, item);
    if k in cache then Diff(sch, cache[k], item) else FullPatch(sch, item)
  }

  /** An unchanged item is not stored, even if its immutable fields differ. */
  function AfterSingle(sch: Schema, cache: Cache, item: Value): Cache {
    var k := KeyOf(sch, item);
    if k in cache && !IsSome(Diff(sch, cache[k], item)) then cache else cache[k := item]
  }

  class SubscriptionTracker {
    const sch: Schema
    var cachedItems: Cache

    constructor (sch: Schema, initial: seq<Value>)
      ensures this.sch == sch && cachedItems == UpdatedBy(sch, map[], initial).cache
    {
      this.sch := sch;
      var cache: Cache := map[];
      for i := 0 to |initial|
        invariant cache == UpdatedBy(sch, map[], initial[..i]).cache
      {
        assert DropLast(initial[..i + 1]) == initial[..i];
        cache := cache[KeyOf(sch, initial[i]) := initial[i]];
      }
      assert initial[..|initial|] == initial;
      cachedItems := cache;
    }

    method UpdateList(current: seq<Value>) returns (added: seq<Value>, removed: seq<Value>, updated: seq<Patch>)
      modifies this
      ensures var u := UpdatedBy(sch, old(cachedItems), current);
              cachedItems == u.cache && added == u.added && updated == u.updated && Enumerates(removed, u.remaining.Keys)
    {
      ghost var cache := cachedItems;
      var newCache: Cache;
      newCache, added, updated := map[], [], [];
      for i := 0 to |current|
        invariant UpdatedBy(sch, cache, current[..i]) == ListUpdate(cachedItems, newCache, added, updated)
      {
        assert DropLast(current[..i + 1]) == current[..i];
        var item := current[i];
        var key := KeyOf(sch, item);
        if key in cachedItems {
          var oldItem := cachedItems[key];
          cachedItems := cachedItems - {key};
          var patch := Diff(sch, oldItem, item);
          if IsSome(patch) {
            updated := updated + [patch];
          }
        } else {
          added := added + [item];
        }
        newCache := newCache[key := item];
      }
      assert current[..|current|] == current;
      removed := KeysOf(cachedItems);
      cachedItems := newCache;
    }

    method UpdateSingle(item: Value) returns (patch: Patch)
      modifies this
      ensures patch == SinglePatch(sch, old(cachedItems), item)
      ensures cachedItems == AfterSingle(sch, old(cachedItems), item)
    {
      var key := KeyOf(sch, item);
      if key in cachedItems {
        patch := Diff(sch, cachedItems[key], item);
        if IsSome(patch) {
          cachedItems := cachedItems[key := item];
        }
      } else {
        cachedItems := cachedItems[key := item];
        patch := FullPatch(sch, item);
      }
    }

    method Remove(key: Value) returns (found: bool)
      modifies this
      ensures found == (key in old(cachedItems)) && cachedItems == old(cachedItems) - {key}
    {
      found := key in cachedItems;
      cachedItems := cachedItems - {key};
    }
  }

  /** `s` lists the elements of `keys`, each once, in some order. */
  predicate Enumerates(s: seq<Value>, keys: set<Value>) {
    (forall k | k in s :: k in keys) && (forall k | k in keys :: k in s) &&
    forall i, j | 0 <= i < j < |s| :: s[i] != s[j]
  }

  /** The keys of a hash map, in whatever order it yields them. */
  method KeysOf(m: Cache) returns (s: seq<Value>)
    ensures Enumerates(s, m.Keys)
  {
    s := [];
    var left := m.Keys;
    while left != {}
      invariant left <= m.Keys && Enumerates(s, m.Keys - left)
      decreases left
    {
      var k :| k in left;
      s, left := s + [k], left - {k};
    }
  }

  // The subscriber's side

  function PatchKey(sch: Schema, p: Patch): Value {
    if sch.RecordType? && KeyIndex(sch.fields) < |sch.fields| && SubPatch(p, KeyIndex(sch.fields)).KeyIs?
    then SubPatch(p, KeyIndex(sch.fields)).key
    else UNIT
  }

  function PatchOne(sch: Schema, r: Cache, p: Patch): Cache {
    var k := PatchKey(sch, p);
    if k in r then r[k := Apply(sch, r[k], p)] else r
  }

  function PatchAll(sch: Schema, r: Cache, ps: seq<Patch>): Cache {
    if ps == [] then r else PatchOne(sch, PatchAll(sch, r, DropLast(ps)), Last(ps))
  }

  function AddAll(sch: Schema, r: Cache, items: seq<Value>): Cache {
    if items == [] then r else AddAll(sch, r, DropLast(items))[KeyOf(sch, Last(items)) := Last(items)]
  }

  /** What a subscriber does with a delta: patches, then additions, then removals. */
  function Replay(sch: Schema, r: Cache, added: seq<Value>, removed: seq<Value>, updated: seq<Patch>): Cache {
    AddAll(sch, PatchAll(sch, r, updated), added) - (set k | k in removed)
  }

  /** Items are cached under their keys. */
  predicate Keyed(sch: Schema, c: Cache) {
    forall k | k in c :: KeyOf(sch, c[k]) == k
  }

  /** `r` is a replica of the cache `c`, item by item, but for the keys it missed. */
  ghost predicate MirrorsBut(sch: Schema, r: Cache, c: Cache, missed: set<Value>) {
    Keyed(sch, c) && missed <= c.Keys &&
    (forall k :: k in r <==> k in c && k !in missed) &&
    forall k | k in r :: Replica(sch, r[k], c[k])
  }

  ghost predicate Mirrors(sch: Schema, r: Cache, c: Cache) {
    MirrorsBut(sch, r, c, {})
  }

  /** Key `k` is known and occurs once, so it is updated by a diff and not added. */
  predicate Diffed(sch: Schema, cache: Cache, items: seq<Value>, k: Value) {
    k in cache && Count(sch, items, k) == 1
  }

  lemma DiffKey(sch: Schema, old': Value, new': Value)
    requires sch.RecordType? && IsSome(Diff(sch, old', new'))
    ensures PatchKey(sch, Diff(sch, old', new')) == KeyOf(sch, old')
  {
    var i := KeyIndex(sch.fields);
    assert Diff(sch, old', new') == Fields(DiffFields(sch.fields, old', new'));
    if i < |sch.fields| {
      assert DiffFields(sch.fields, old', new')[i] == DiffField(sch.fields[i], Sub(old', i), Sub(new', i));
    }
  }

  lemma FullPatchKey(sch: Schema, x: Value)
    requires sch.RecordType?
    ensures PatchKey(sch, FullPatch(sch, x)) == KeyOf(sch, x)
  {
    var i := KeyIndex(sch.fields);
    if i < |sch.fields| {
      assert SubPatch(FullPatch(sch, x), i) == FullField(sch.fields[i], Sub(x, i));
    }
  }

  function Lookup(m: Cache, k: Value): Option<Value> {
    if k in m then Some(m[k]) else None
  }

  // The new cache

  /** The new cache holds, per key, the last item of the list; what remains of the old one occurs nowhere in it. */
  lemma {:induction false} CacheKeys(sch: Schema, cache: Cache, items: seq<Value>, k: Value)
    ensures var u := UpdatedBy(sch, cache, items);
            Lookup(u.cache, k) == LastWith(sch, items, k) &&
            (k in u.cache <==> Count(sch, items, k) > 0) &&
            (k in u.cache ==> u.cache[k] in items && KeyOf(sch, u.cache[k]) == k) &&
            (k in u.remaining <==> k in cache && Count(sch, items, k) == 0) &&
            (k in u.remaining ==> u.remaining[k] == cache[k])
  {
    if items != [] {
      CacheKeys(sch, cache, DropLast(items), k);
      assert items == DropLast(items) + [Last(items)];
    }
  }

  // What the replica holds under one key

  lemma {:induction false} AddedAt(sch: Schema, r: Cache, items: seq<Value>, k: Value)
    ensures k in AddAll(sch, r, items) <==> k in r || Count(sch, items, k) > 0
    ensures Count(sch, items, k) == 0 ==> Lookup(AddAll(sch, r, items), k) == Lookup(r, k)
    ensures Count(sch, items, k) > 0 ==> AddAll(sch, r, items)[k] in items
  {
    if items != [] {
      AddedAt(sch, r, DropLast(items), k);
      assert items == DropLast(items) + [Last(items)];
    }
  }

  lemma {:induction false} AddedSame(sch: Schema, p: Cache, p': Cache, items: seq<Value>, k: Value)
    requires Lookup(p, k) == Lookup(p', k)
    ensures Lookup(AddAll(sch, p, items), k) == Lookup(AddAll(sch, p', items), k)
  {
    if items != [] {
      AddedSame(sch, p, p', DropLast(items), k);
    }
  }

  /** Where the replica is, under key `k`, once the delta for `items` so far is applied. */
  ghost predicate Tracks(sch: Schema, cache: Cache, r: Cache, items: seq<Value>, k: Value) {
    var u := UpdatedBy(sch, cache, items);
    var p := Lookup(PatchAll(sch, r, u.updated), k);
    var a := Lookup(AddAll(sch, PatchAll(sch, r, u.updated), u.added), k);
    (p.Some? <==> k in r) &&
    (k in cache && Count(sch, items, k) <= 1 ==> Count(sch, u.added, k) == 0) &&
    (Count(sch, items, k) == 0 ==> p == Lookup(r, k)) &&
    (Diffed(sch, cache, items, k) && k in r && k in u.cache ==>
       p == Some(Apply(sch, r[k], Diff(sch, cache[k], u.cache[k])))) &&
    (k in u.cache && !Diffed(sch, cache, items, k) ==> a == Some(u.cache[k]))
  }

  lemma {:induction false} TracksAll(sch: Schema, cache: Cache, r: Cache, items: seq<Value>, k: Value)
    requires sch.RecordType? && Keyed(sch, cache)
    ensures Tracks(sch, cache, r, items, k)
  {
    if items != [] {
      TracksAll(sch, cache, r, DropLast(items), k);
      TracksStep(sch, cache, r, DropLast(items), Last(items), k);
      assert items == DropLast(items) + [Last(items)];
    }
  }

  lemma UpdatedSnoc(sch: Schema, cache: Cache, pre: seq<Value>, n: Value, k: Value)
    ensures UpdatedBy(sch, cache, pre + [n]) == UpdateItem(sch, UpdatedBy(sch, cache, pre), n)
    ensures Count(sch, pre + [n], k) == Count(sch, pre, k) + if KeyOf(sch, n) == k then 1 else 0
  {
    assert DropLast(pre + [n]) == pre;
  }

  lemma PatchSnoc(sch: Schema, r: Cache, ps: seq<Patch>, d: Patch)
    ensures PatchAll(sch, r, ps + [d]) == PatchOne(sch, PatchAll(sch, r, ps), d)
  {
    assert DropLast(ps + [d]) == ps;
  }

  lemma AddSnoc(sch: Schema, r: Cache, items: seq<Value>, n: Value, k: Value)
    ensures AddAll(sch, r, items + [n]) == AddAll(sch, r, items)[KeyOf(sch, n) := n]
    ensures Count(sch, items + [n], k) == Count(sch, items, k) + if KeyOf(sch, n) == k then 1 else 0
  {
    assert DropLast(items + [n]) == items;
  }

  lemma TracksStep(sch: Schema, cache: Cache, r: Cache, pre: seq<Value>, n: Value, k: Value)
    requires sch.RecordType? && Keyed(sch, cache)
    requires Tracks(sch, cache, r, pre, k)
    ensures Tracks(sch, cache, r, pre + [n], k)
  {
    var u := UpdatedBy(sch, cache, pre);
    CacheKeys(sch, cache, pre, k);
    CacheKeys(sch, cache, pre, KeyOf(sch, n));
    UpdatedSnoc(sch, cache, pre, n, k);
    if KeyOf(sch, n) !in u.remaining {
      AddSnoc(sch, PatchAll(sch, r, u.updated), u.added, n, k);
    } else if KeyOf(sch, n) == k {
      TracksOwnDiff(sch, cache, r, pre, n, k);
    } else {
      TracksOtherDiff(sch, cache, r, pre, n, k);
    }
  }

  /** The diff of the first item with key `k`. */
  lemma TracksOwnDiff(sch: Schema, cache: Cache, r: Cache, pre: seq<Value>, n: Value, k: Value)
    requires sch.RecordType? && Keyed(sch, cache)
    requires Tracks(sch, cache, r, pre, k)
    requires KeyOf(sch, n) == k && k in UpdatedBy(sch, cache, pre).remaining
    ensures Tracks(sch, cache, r, pre + [n], k)
  {
    CacheKeys(sch, cache, pre, k);
    var u, d := UpdatedBy(sch, cache, pre), Diff(sch, cache[k], n);
    UpdatedSnoc(sch, cache, pre, n, k);
    if IsSome(d) {
      DiffKey(sch, cache[k], n);
      PatchSnoc(sch, r, u.updated, d);
    } else if k in r {
      ApplyEmpty(sch, r[k], d);
    }
  }

  /** The diff of an item with another key. */
  lemma TracksOtherDiff(sch: Schema, cache: Cache, r: Cache, pre: seq<Value>, n: Value, k: Value)
    requires sch.RecordType? && Keyed(sch, cache)
    requires Tracks(sch, cache, r, pre, k)
    requires KeyOf(sch, n) != k && KeyOf(sch, n) in UpdatedBy(sch, cache, pre).remaining
    ensures Tracks(sch, cache, r, pre + [n], k)
  {
    var u, j := UpdatedBy(sch, cache, pre), KeyOf(sch, n);
    CacheKeys(sch, cache, pre, j);
    var d, p := Diff(sch, cache[j], n), PatchAll(sch, r, u.updated);
    UpdatedSnoc(sch, cache, pre, n, k);
    if IsSome(d) {
      DiffKey(sch, cache[j], n);
      PatchSnoc(sch, r, u.updated, d);
      AddedSame(sch, p, PatchOne(sch, p, d), u.added, k);
    }
  }

  // Deltas reproduce the cache

  /**
   What the replica holds under one key: it gets every cached item except one
   it missed before and now is sent a diff of; and it mirrors the item iff
   that did not change a key inside in a diff.
   */
  lemma ReplayedEntry(
      sch: Schema, cache: Cache, r: Cache, missed: set<Value>, items: seq<Value>, removed: seq<Value>, k: Value)
    requires sch.RecordType? && MirrorsBut(sch, r, cache, missed)
    requires forall x | x in items :: WellFormed(sch, x)
    requires Enumerates(removed, UpdatedBy(sch, cache, items).remaining.Keys)
    ensures var u := UpdatedBy(sch, cache, items);
            var r' := Replay(sch, r, u.added, removed, u.updated);
            (k in r' <==> k in u.cache && !(k in missed && Diffed(sch, cache, items, k))) &&
            (k in u.cache ==> KeyOf(sch, u.cache[k]) == k) &&
            (k in r' ==>
               (Replica(sch, r'[k], u.cache[k]) <==>
                (Diffed(sch, cache, items, k) ==> Stable(sch, cache[k], u.cache[k]))))
  {
    var u := UpdatedBy(sch, cache, items);
    var p := PatchAll(sch, r, u.updated);
    CacheKeys(sch, cache, items, k);
    TracksAll(sch, cache, r, items, k);
    AddedAt(sch, p, u.added, k);
    AddedFromItems(sch, cache, items, k);
    if k in u.cache {
      if !Diffed(sch, cache, items, k) {
        EquivalentRefl(sch, u.cache[k]);
      } else if k in r {
        NoDrift.OneStep(sch, r[k], cache[k], u.cache[k]);
      }
    }
  }

  lemma {:induction false} AddedFromItems(sch: Schema, cache: Cache, items: seq<Value>, k: Value)
    ensures Count(sch, UpdatedBy(sch, cache, items).added, k) <= Count(sch, items, k)
  {
    if items != [] {
      var n := Last(items);
      AddedFromItems(sch, cache, DropLast(items), k);
      var u := UpdatedBy(sch, cache, DropLast(items));
      assert DropLast(u.added + [n]) == u.added;
      assert Count(sch, u.added + [n], k) == Count(sch, u.added, k) + if KeyOf(sch, n) == k then 1 else 0;
    }
  }

  /** Missed keys stay missed while lists name them once, since a diff cannot be applied to nothing. */
  function StillMissed(sch: Schema, cache: Cache, missed: set<Value>, items: seq<Value>): set<Value> {
    set k | k in missed && Diffed(sch, cache, items, k)
  }

  /**
   Replaying the delta on any replica of the old cache, even for a list with
   duplicate keys, gives a replica of the new cache exactly when every item
   that went out as a diff kept its keys.
   */
  lemma DeltaReproducesCache(
      sch: Schema, cache: Cache, r: Cache, missed: set<Value>, items: seq<Value>, removed: seq<Value>)
    requires sch.RecordType? && MirrorsBut(sch, r, cache, missed)
    requires forall x | x in items :: WellFormed(sch, x)
    requires Enumerates(removed, UpdatedBy(sch, cache, items).remaining.Keys)
    ensures var u := UpdatedBy(sch, cache, items);
            var r' := Replay(sch, r, u.added, removed, u.updated);
            MirrorsBut(sch, r', u.cache, StillMissed(sch, cache, missed, items)) <==>
            forall k | k in u.cache && k !in missed && Diffed(sch, cache, items, k) :: Stable(sch, cache[k], u.cache[k])
  {
    var u := UpdatedBy(sch, cache, items);
    var r' := Replay(sch, r, u.added, removed, u.updated);
    forall k ensures Replayed(sch, cache, items, missed, r', k) {
      ReplayedEntry(sch, cache, r, missed, items, removed, k);
      CacheKeys(sch, cache, items, k);
    }
    ReplayedAll(sch, cache, items, missed, r');
  }

  /** `ReplayedEntry`, for a replica `r` of the new cache. */
  ghost predicate Replayed(
      sch: Schema, cache: Cache, items: seq<Value>, missed: set<Value>, r: Cache, k: Value)
  {
    var c := UpdatedBy(sch, cache, items).cache;
    (k in r <==> k in c && k !in StillMissed(sch, cache, missed, items)) &&
    (k in c ==> KeyOf(sch, c[k]) == k) && (k in StillMissed(sch, cache, missed, items) ==> k in c) &&
    (k in r ==> (Replica(sch, r[k], c[k]) <==> (Diffed(sch, cache, items, k) ==> Stable(sch, cache[k], c[k]))))
  }

  lemma ReplayedKeys(sch: Schema, cache: Cache, items: seq<Value>, missed: set<Value>, r: Cache)
    requires forall k :: Replayed(sch, cache, items, missed, r, k)
    ensures var c, missed' := UpdatedBy(sch, cache, items).cache, StillMissed(sch, cache, missed, items);
            Keyed(sch, c) && missed' <= c.Keys && forall k :: k in r <==> k in c && k !in missed'
  {
    var c, missed' := UpdatedBy(sch, cache, items).cache, StillMissed(sch, cache, missed, items);
    forall k
      ensures k in r <==> k in c && k !in missed'
      ensures k in c ==> KeyOf(sch, c[k]) == k
      ensures k in missed' ==> k in c
    {
      assert Replayed(sch, cache, items, missed, r, k);
    }
  }

  lemma ReplayedStable(sch: Schema, cache: Cache, items: seq<Value>, missed: set<Value>, r: Cache)
    requires forall k :: Replayed(sch, cache, items, missed, r, k)
    requires var c := UpdatedBy(sch, cache, items).cache;
             forall k | k in c && k !in missed && Diffed(sch, cache, items, k) :: Stable(sch, cache[k], c[k])
    ensures MirrorsBut(sch, r, UpdatedBy(sch, cache, items).cache, StillMissed(sch, cache, missed, items))
  {
    var c := UpdatedBy(sch, cache, items).cache;
    ReplayedKeys(sch, cache, items, missed, r);
    forall k | k in r ensures Replica(sch, r[k], c[k]) {
      assert Replayed(sch, cache, items, missed, r, k);
    }
  }

  lemma ReplayedAll(sch: Schema, cache: Cache, items: seq<Value>, missed: set<Value>, r: Cache)
    requires forall k :: Replayed(sch, cache, items, missed, r, k)
    ensures var c := UpdatedBy(sch, cache, items).cache;
            MirrorsBut(sch, r, c, StillMissed(sch, cache, missed, items)) <==>
            forall k | k in c && k !in missed && Diffed(sch, cache, items, k) :: Stable(sch, cache[k], c[k])
  {
    var c := UpdatedBy(sch, cache, items).cache;
    if forall k | k in c && k !in missed && Diffed(sch, cache, items, k) :: Stable(sch, cache[k], c[k]) {
      ReplayedStable(sch, cache, items, missed, r);
    } else {
      var k :| k in c && k !in missed && Diffed(sch, cache, items, k) && !Stable(sch, cache[k], c[k]);
      assert Replayed(sch, cache, items, missed, r, k);
    }
  }

  /**
   What a single update answers and stores.  An untracked item is announced by
   a full patch, which gives any item its key and mutable content; a tracked
   one by its diff, which makes a replica of the cached item one of the new
   iff the change kept keys.  Only an unchanged item is not stored.
   */
  lemma {:induction false} SingleExactly(sch: Schema, cache: Cache, item: Value, x: Value)
    requires sch.RecordType? && Keyed(sch, cache) && WellFormed(sch, item)
    ensures var p, k := SinglePatch(sch, cache, item), KeyOf(sch, item);
            (!IsSome(p) <==> k in cache && EmptyDiffs.Unnoticed(sch, cache[k], item)) &&
            (IsSome(p) ==> PatchKey(sch, p) == k) &&
            (k !in cache ==>
               Apply(sch, x, p) == MergeLaws.Overlay(sch, x, item) && Equivalent(sch, Apply(sch, x, p), item)) &&
            (k in cache && Replica(sch, x, cache[k]) ==>
               (Replica(sch, Apply(sch, x, p), item) <==> Stable(sch, cache[k], item)))
    ensures var p, k := SinglePatch(sch, cache, item), KeyOf(sch, item);
            AfterSingle(sch, cache, item) == if IsSome(p) then cache[k := item] else cache
  {
    var k := KeyOf(sch, item);
    if k in cache {
      EmptyDiffs.EmptyExactly(sch, cache[k], item);
      if IsSome(Diff(sch, cache[k], item)) {
        DiffKey(sch, cache[k], item);
      }
      if Replica(sch, x, cache[k]) {
        NoDrift.OneStep(sch, x, cache[k], item);
      }
    } else {
      FullPatchKey(sch, item);
      MergeLaws.FullPatchOverlays(sch, x, item);
    }
  }

  /** Patch `p` is the diff of some listed item that was cached and changed. */
  ghost predicate ChangeOf(sch: Schema, cache: Cache, items: seq<Value>, p: Patch) {
    exists x :: x in items && IsChange(sch, cache, x, p)
  }

  predicate IsChange(sch: Schema, cache: Cache, x: Value, p: Patch) {
    KeyOf(sch, x) in cache && p == Diff(sch, cache[KeyOf(sch, x)], x) && IsSome(p)
  }

  /** For a list with distinct keys the delta is exactly what changed: nothing else is sent. */
  lemma {:induction false} DeltaExact(sch: Schema, cache: Cache, items: seq<Value>, x: Value, p: Patch)
    requires UniqueKeys(sch, items)
    ensures var u := UpdatedBy(sch, cache, items);
            (x in u.added <==> x in items && KeyOf(sch, x) !in cache) &&
            (p in u.updated <==> ChangeOf(sch, cache, items, p))
  {
    if items != [] {
      LastIsNew(sch, cache, items);
      DeltaExact(sch, cache, DropLast(items), x, p);
      DeltaStep(sch, cache, DropLast(items), Last(items), x, p);
      assert items == DropLast(items) + [Last(items)];
    }
  }

  lemma DeltaStep(sch: Schema, cache: Cache, pre: seq<Value>, n: Value, x: Value, p: Patch)
    requires Lookup(UpdatedBy(sch, cache, pre).remaining, KeyOf(sch, n)) == Lookup(cache, KeyOf(sch, n))
    requires x in UpdatedBy(sch, cache, pre).added <==> x in pre && KeyOf(sch, x) !in cache
    requires p in UpdatedBy(sch, cache, pre).updated <==> ChangeOf(sch, cache, pre, p)
    ensures var u, items := UpdatedBy(sch, cache, pre + [n]), pre + [n];
            (x in u.added <==> x in items && KeyOf(sch, x) !in cache) &&
            (p in u.updated <==> ChangeOf(sch, cache, items, p))
  {
    UpdatedSnoc(sch, cache, pre, n, UNIT);
    ChangeOfSnoc(sch, cache, pre, n, p);
    SentFor(sch, UpdatedBy(sch, cache, pre), n, x, p);
  }

  /** What one item adds to the delta. */
  lemma SentFor(sch: Schema, u: ListUpdate, n: Value, x: Value, p: Patch)
    ensures var u' := UpdateItem(sch, u, n);
            (x in u'.added <==> x in u.added || (x == n && KeyOf(sch, n) !in u.remaining)) &&
            (p in u'.updated <==> p in u.updated || IsChange(sch, u.remaining, n, p))
  {
  }

  lemma ChangeOfSnoc(sch: Schema, cache: Cache, items: seq<Value>, n: Value, p: Patch)
    ensures ChangeOf(sch, cache, items + [n], p) <==> ChangeOf(sch, cache, items, p) || IsChange(sch, cache, n, p)
  {
    if ChangeOf(sch, cache, items, p) {
      var y :| y in items && IsChange(sch, cache, y, p);
      assert y in items + [n];
    }
    if IsChange(sch, cache, n, p) {
      assert n in items + [n];
    }
  }

  /** In a list with distinct keys the last item meets the old cache untouched under its key. */
  lemma LastIsNew(sch: Schema, cache: Cache, items: seq<Value>)
    requires items != [] && UniqueKeys(sch, items)
    ensures UniqueKeys(sch, DropLast(items))
    ensures Lookup(UpdatedBy(sch, cache, DropLast(items)).remaining, KeyOf(sch, Last(items))) ==
            Lookup(cache, KeyOf(sch, Last(items)))
  {
    var front, k := DropLast(items), KeyOf(sch, Last(items));
    CacheKeys(sch, cache, front, k);
    assert forall i | 0 <= i < |front| :: KeyOf(sch, front[i]) != KeyOf(sch, items[|items| - 1]);
  }

  /** The positions below `n` of items that are not cached. */
  function Unknown(sch: Schema, cache: Cache, items: seq<Value>, n: nat): set<nat> {
    set i: nat | i < n && i < |items| && KeyOf(sch, items[i]) !in cache
  }

  /** The positions below `n` of items that are cached and changed. */
  function Changed(sch: Schema, cache: Cache, items: seq<Value>, n: nat): set<nat> {
    set i: nat |
      i < n && i < |items| && KeyOf(sch, items[i]) in cache &&
      IsSome(Diff(sch, cache[KeyOf(sch, items[i])], items[i]))
  }

  /** For a list with distinct keys each of them is sent once. */
  lemma {:induction false} DeltaCount(sch: Schema, cache: Cache, items: seq<Value>, n: nat)
    requires UniqueKeys(sch, items) && n <= |items|
    ensures var u := UpdatedBy(sch, cache, items[..n]);
            |u.added| == |Unknown(sch, cache, items, n)| && |u.updated| == |Changed(sch, cache, items, n)|
  {
    if n > 0 {
      DeltaCount(sch, cache, items, n - 1);
      PrefixLast(sch, cache, items, n);
      UnknownStep(sch, cache, items, n);
      ChangedStep(sch, cache, items, n);
    }
  }

  lemma UnknownStep(sch: Schema, cache: Cache, items: seq<Value>, n: nat)
    requires 0 < n <= |items|
    ensures |Unknown(sch, cache, items, n)| ==
            |Unknown(sch, cache, items, n - 1)| + if KeyOf(sch, items[n - 1]) !in cache then 1 else 0
  {
    var before, more := Unknown(sch, cache, items, n - 1), KeyOf(sch, items[n - 1]) !in cache;
    forall i: nat ensures i in Unknown(sch, cache, items, n) <==> i in before || (more && i == n - 1) {
    }
    OneMore(before, n - 1, Unknown(sch, cache, items, n), more);
  }

  lemma ChangedStep(sch: Schema, cache: Cache, items: seq<Value>, n: nat)
    requires 0 < n <= |items|
    ensures var x := items[n - 1];
            |Changed(sch, cache, items, n)| ==
            |Changed(sch, cache, items, n - 1)| +
            if KeyOf(sch, x) in cache && IsSome(Diff(sch, cache[KeyOf(sch, x)], x)) then 1 else 0
  {
    var before, x := Changed(sch, cache, items, n - 1), items[n - 1];
    var more := KeyOf(sch, x) in cache && IsSome(Diff(sch, cache[KeyOf(sch, x)], x));
    forall i: nat ensures i in Changed(sch, cache, items, n) <==> i in before || (more && i == n - 1) {
    }
    OneMore(before, n - 1, Changed(sch, cache, items, n), more);
  }

  /** What is sent keeps the order of the list. */
  lemma {:induction false} DeltaOrder(
      sch: Schema, cache: Cache, items: seq<Value>, x: Value, y: Value, p: Patch, q: Patch)
    requires UniqueKeys(sch, items)
    ensures Precedes(UpdatedBy(sch, cache, items).added, x, y) ==> Precedes(items, x, y)
    ensures Precedes(UpdatedBy(sch, cache, items).updated, p, q) ==> ChangesInOrder(sch, cache, items, p, q)
  {
    if items != [] {
      LastIsNew(sch, cache, items);
      DeltaOrder(sch, cache, DropLast(items), x, y, p, q);
      DeltaExact(sch, cache, DropLast(items), x, p);
      DeltaOrderStep(sch, cache, DropLast(items), Last(items), x, y, p, q);
      assert items == DropLast(items) + [Last(items)];
    }
  }

  /** `p` and `q` are the diffs of two listed items in this order. */
  ghost predicate ChangesInOrder(sch: Schema, cache: Cache, items: seq<Value>, p: Patch, q: Patch) {
    exists v, w :: Precedes(items, v, w) && IsChange(sch, cache, v, p) && IsChange(sch, cache, w, q)
  }

  lemma DeltaOrderStep(
      sch: Schema, cache: Cache, pre: seq<Value>, n: Value, x: Value, y: Value, p: Patch, q: Patch)
    requires Lookup(UpdatedBy(sch, cache, pre).remaining, KeyOf(sch, n)) == Lookup(cache, KeyOf(sch, n))
    requires x in UpdatedBy(sch, cache, pre).added ==> x in pre
    requires p in UpdatedBy(sch, cache, pre).updated ==> ChangeOf(sch, cache, pre, p)
    requires Precedes(UpdatedBy(sch, cache, pre).added, x, y) ==> Precedes(pre, x, y)
    requires Precedes(UpdatedBy(sch, cache, pre).updated, p, q) ==> ChangesInOrder(sch, cache, pre, p, q)
    ensures Precedes(UpdatedBy(sch, cache, pre + [n]).added, x, y) ==> Precedes(pre + [n], x, y)
    ensures Precedes(UpdatedBy(sch, cache, pre + [n]).updated, p, q) ==> ChangesInOrder(sch, cache, pre + [n], p, q)
  {
    var u := UpdatedBy(sch, cache, pre);
    UpdatedSnoc(sch, cache, pre, n, UNIT);
    PrecedesSnoc(u.added, n, x, y);
    PrecedesSnoc(pre, n, x, y);
    if Precedes(UpdatedBy(sch, cache, pre + [n]).updated, p, q) {
      if Precedes(u.updated, p, q) {
        var v, w :| Precedes(pre, v, w) && IsChange(sch, cache, v, p) && IsChange(sch, cache, w, q);
        PrecedesSnoc(pre, n, v, w);
      } else {
        PrecedesSnoc(u.updated, Diff(sch, u.remaining[KeyOf(sch, n)], n), p, q);
        var v :| v in pre && IsChange(sch, cache, v, p);
        PrecedesSnoc(pre, n, v, n);
      }
    }
  }

  lemma PrefixLast(sch: Schema, cache: Cache, items: seq<Value>, n: nat)
    requires UniqueKeys(sch, items) && 0 < n <= |items|
    ensures UpdatedBy(sch, cache, items[..n]) == UpdateItem(sch, UpdatedBy(sch, cache, items[..n - 1]), items[n - 1])
    ensures Lookup(UpdatedBy(sch, cache, items[..n - 1]).remaining, KeyOf(sch, items[n - 1])) ==
            Lookup(cache, KeyOf(sch, items[n - 1]))
  {
    assert DropLast(items[..n]) == items[..n - 1] && Last(items[..n]) == items[n - 1];
    LastIsNew(sch, cache, items[..n]);
  }

  // Whole runs

  datatype TrackerEvent = UpdateList(items: seq<Value>, removed: seq<Value>) | UpdateSingle(item: Value) | Drop(key: Value)

  /** The tracker's cache together with the replica of a subscriber who mirrors every step. */
  datatype Pair = Pair(cache: Cache, replica: Cache)

  function Next(sch: Schema, s: Pair, e: TrackerEvent): Pair {
    match e
    case UpdateList(items, removed) =>
      var u := UpdatedBy(sch, s.cache, items);
      Pair(u.cache, Replay(sch, s.replica, u.added, removed, u.updated))
    case UpdateSingle(item) =>
      var p := SinglePatch(sch, s.cache, item);
      Pair(AfterSingle(sch, s.cache, item), if IsSome(p) then PatchOne(sch, s.replica, p) else s.replica)
    case Drop(k) => Pair(s.cache - {k}, s.replica - {k})
  }

  function After(sch: Schema, s: Pair, es: seq<TrackerEvent>): Pair {
    if es == [] then s else Next(sch, After(sch, s, DropLast(es)), Last(es))
  }

  /** Items are well formed, and what goes out as a diff keeps its keys. */
  ghost predicate Proper(sch: Schema, cache: Cache, e: TrackerEvent) {
    match e
    case UpdateList(items, removed) =>
      (forall x | x in items :: WellFormed(sch, x)) &&
      Enumerates(removed, UpdatedBy(sch, cache, items).remaining.Keys) &&
      forall k | k in UpdatedBy(sch, cache, items).cache && Diffed(sch, cache, items, k) ::
        Stable(sch, cache[k], UpdatedBy(sch, cache, items).cache[k])
    case UpdateSingle(item) =>
      var k := KeyOf(sch, item);
      WellFormed(sch, item) && (k in cache && IsSome(Diff(sch, cache[k], item)) ==> Stable(sch, cache[k], item))
    case Drop(_) => true
  }

  ghost predicate ProperRun(sch: Schema, s: Pair, es: seq<TrackerEvent>) {
    es == [] ||
    (ProperRun(sch, s, DropLast(es)) && Proper(sch, After(sch, s, DropLast(es)).cache, Last(es)))
  }

  /** A single update of an untracked key cannot reach the subscriber: its full patch lacks immutable fields. */
  function MissedNext(sch: Schema, cache: Cache, missed: set<Value>, e: TrackerEvent): set<Value> {
    match e
    case UpdateList(items, _) => StillMissed(sch, cache, missed, items)
    case UpdateSingle(item) => if KeyOf(sch, item) in cache then missed else missed + {KeyOf(sch, item)}
    case Drop(k) => missed - {k}
  }

  function Missed(sch: Schema, s: Pair, es: seq<TrackerEvent>): set<Value> {
    if es == [] then {}
    else MissedNext(sch, After(sch, s, DropLast(es)).cache, Missed(sch, s, DropLast(es)), Last(es))
  }

  lemma SingleStep(sch: Schema, s: Pair, missed: set<Value>, item: Value)
    requires sch.RecordType? && MirrorsBut(sch, s.replica, s.cache, missed)
    requires Proper(sch, s.cache, UpdateSingle(item))
    ensures var s' := Next(sch, s, UpdateSingle(item));
            MirrorsBut(sch, s'.replica, s'.cache, MissedNext(sch, s.cache, missed, UpdateSingle(item)))
  {
    var k := KeyOf(sch, item);
    if k !in s.cache {
      FullPatchKey(sch, item);
    } else if IsSome(Diff(sch, s.cache[k], item)) {
      DiffKey(sch, s.cache[k], item);
      if k in s.replica {
        NoDrift.OneStep(sch, s.replica[k], s.cache[k], item);
      }
    }
  }

  lemma ProperStep(sch: Schema, s: Pair, missed: set<Value>, e: TrackerEvent)
    requires sch.RecordType? && MirrorsBut(sch, s.replica, s.cache, missed) && Proper(sch, s.cache, e)
    ensures MirrorsBut(sch, Next(sch, s, e).replica, Next(sch, s, e).cache, MissedNext(sch, s.cache, missed, e))
  {
    match e
    case UpdateList(items, removed) =>
      DeltaReproducesCache(sch, s.cache, s.replica, missed, items, removed);
    case UpdateSingle(item) => SingleStep(sch, s, missed, item);
    case Drop(_) =>
  }

  /**
   Over every run of list updates, single updates and removals the subscriber
   mirrors the cache but for the keys it missed; so it mirrors the cache
   exactly when it missed none.
   */
  lemma {:induction false} SubscriberMirrors(sch: Schema, s: Pair, es: seq<TrackerEvent>)
    requires sch.RecordType? && Mirrors(sch, s.replica, s.cache) && ProperRun(sch, s, es)
    ensures var s', missed := After(sch, s, es), Missed(sch, s, es);
            MirrorsBut(sch, s'.replica, s'.cache, missed) &&
            (Mirrors(sch, s'.replica, s'.cache) <==> missed == {})
  {
    if es != [] {
      SubscriberMirrors(sch, s, DropLast(es));
      ProperStep(sch, After(sch, s, DropLast(es)), Missed(sch, s, DropLast(es)), Last(es));
    }
    OnlyMissed(sch, After(sch, s, es).replica, After(sch, s, es).cache, Missed(sch, s, es));
  }

  lemma OnlyMissed(sch: Schema, r: Cache, c: Cache, missed: set<Value>)
    requires MirrorsBut(sch, r, c, missed)
    ensures Mirrors(sch, r, c) <==> missed == {}
  {
    if Mirrors(sch, r, c) {
      forall k ensures k !in missed {
        assert k in r <==> k in c && k !in missed;
      }
    }
  }

  /** Nothing is missed if single updates are of tracked keys only. */
  lemma {:induction false} NothingMissed(sch: Schema, s: Pair, es: seq<TrackerEvent>)
    requires forall i | 0 <= i < |es| && es[i].UpdateSingle? :: KeyOf(sch, es[i].item) in After(sch, s, es[..i]).cache
    ensures Missed(sch, s, es) == {}
  {
    if es != [] {
      var front := DropLast(es);
      forall i | 0 <= i < |front| && front[i].UpdateSingle?
        ensures KeyOf(sch, front[i].item) in After(sch, s, front[..i]).cache
      {
        assert front[i] == es[i] && front[..i] == es[..i];
      }
      NothingMissed(sch, s, front);
      assert es[..|es| - 1] == front;
      assert es[|es| - 1].UpdateSingle? ==> KeyOf(sch, es[|es| - 1].item) in After(sch, s, es[..|es| - 1]).cache;
    }
  }
}
