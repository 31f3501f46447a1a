/** The endpoint manager: which endpoints are known, and in what order they are tried. */
module Endpoints {
  import opened Prelude
  import opened Uuids

  datatype Priority = Local | Remote | Dev

  datatype Endpoint = Endpoint(id: Uuid, url: string, priority: Priority)

  datatype Registry = Registry(endpoints: seq<Endpoint>, forced: Option<Uuid>, last: Option<Uuid>)

  function Rank(e: Endpoint): nat {
    match e.priority
    case Local => 0
    case Remote => 1
    case Dev => 2
  }

  // A stable sort: each element goes behind everything it is not less than

  function Insert(s: seq<Endpoint>, x: Endpoint, less: (Endpoint, Endpoint) -> bool): seq<Endpoint> {
    if s == [] then [x]
    else if less(x, Last(s)) then Insert(DropLast(s), x, less) + [Last(s)]
    else s + [x]
  }

  function Sorted(s: seq<Endpoint>, less: (Endpoint, Endpoint) -> bool): seq<Endpoint> {
    if s == [] then [] else Insert(Sorted(DropLast(s), less), Last(s), less)
  }

  method InsertInto(s: seq<Endpoint>, x: Endpoint, less: (Endpoint, Endpoint) -> bool) returns (r: seq<Endpoint>)
    ensures r == Insert(s, x, less)
  {
    var j := |s|;
    assert s[..j] == s && Insert(s, x, less) + [] == Insert(s, x, less);
    while j > 0 && less(x, s[j - 1])
      invariant j <= |s|
      invariant Insert(s, x, less) == Insert(s[..j], x, less) + s[j..]
    {
      assert DropLast(s[..j]) == s[..j - 1];
      assert [s[j - 1]] + s[j..] == s[j - 1..];
      j := j - 1;
    }
    r := s[..j] + [x] + s[j..];
  }

  method SortBy(s: seq<Endpoint>, less: (Endpoint, Endpoint) -> bool) returns (r: seq<Endpoint>)
    ensures r == Sorted(s, less)
  {
    r := [];
    for i := 0 to |s|
      invariant r == Sorted(s[..i], less)
    {
      assert DropLast(s[..i + 1]) == s[..i];
      r := InsertInto(r, s[i], less);
    }
    assert s[..|s|] == s;
  }

  // Stable sorting by a rank, specified without an algorithm

  /** The elements of rank `i`, in order. */
  function Bucket(s: seq<Endpoint>, rank: Endpoint -> nat, i: nat): seq<Endpoint> {
    if s == [] then []
    else Bucket(DropLast(s), rank, i) + if rank(Last(s)) == i then [Last(s)] else []
  }

  predicate Ascending(s: seq<Endpoint>, rank: Endpoint -> nat) {
    forall i, j | 0 <= i < j < |s| :: rank(s[i]) <= rank(s[j])
  }

  /** `r` is `s` by ascending rank, with the elements of each rank in their old order. */
  ghost predicate Arranged(r: seq<Endpoint>, s: seq<Endpoint>, rank: Endpoint -> nat) {
    Ascending(r, rank) && forall i: nat :: Bucket(r, rank, i) == Bucket(s, rank, i)
  }

  function ByRank(rank: Endpoint -> nat): (Endpoint, Endpoint) -> bool {
    (a, b) => rank(a) < rank(b)
  }

  lemma BucketSnoc(s: seq<Endpoint>, x: Endpoint, rank: Endpoint -> nat, i: nat)
    ensures Bucket(s + [x], rank, i) == if rank(x) == i then Bucket(s, rank, i) + [x] else Bucket(s, rank, i)
  {
    assert DropLast(s + [x]) == s;
  }

  lemma {:induction false} BucketMembers(s: seq<Endpoint>, rank: Endpoint -> nat, i: nat, e: Endpoint)
    ensures e in Bucket(s, rank, i) <==> e in s && rank(e) == i
  {
    if s != [] {
      BucketMembers(DropLast(s), rank, i, e);
      assert s == DropLast(s) + [Last(s)];
    }
  }

  lemma ArrangedMembers(r: seq<Endpoint>, s: seq<Endpoint>, rank: Endpoint -> nat, e: Endpoint)
    requires Arranged(r, s, rank)
    ensures e in r <==> e in s
  {
    BucketMembers(r, rank, rank(e), e);
    BucketMembers(s, rank, rank(e), e);
  }

  /** There is only one such arrangement, so every stable sort computes it. */
  lemma {:induction false} ArrangementUnique(a: seq<Endpoint>, b: seq<Endpoint>, rank: Endpoint -> nat)
    requires Ascending(a, rank) && Arranged(a, b, rank) && Ascending(b, rank)
    ensures a == b
  {
    if a == [] || b == [] {
      if b != [] {
        ArrangedMembers(a, b, rank, b[0]);
      } else if a != [] {
        ArrangedMembers(a, b, rank, a[0]);
      }
    } else {
      var front, x, front', y := DropLast(a), Last(a), DropLast(b), Last(b);
      assert a == front + [x] && b == front' + [y];
      SameLast(front, x, front', y, rank);
      forall i: nat ensures Bucket(front, rank, i) == Bucket(front', rank, i) {
        assert Bucket(a, rank, i) == Bucket(b, rank, i);
        BucketSnoc(front, x, rank, i);
        BucketSnoc(front', y, rank, i);
        if i == rank(x) {
          assert DropLast(Bucket(a, rank, i)) == Bucket(front, rank, i);
          assert DropLast(Bucket(b, rank, i)) == Bucket(front', rank, i);
        }
      }
      ArrangementUnique(front, front', rank);
    }
  }

  lemma SameLast(s: seq<Endpoint>, x: Endpoint, t: seq<Endpoint>, y: Endpoint, rank: Endpoint -> nat)
    requires Ascending(s + [x], rank) && Arranged(s + [x], t + [y], rank) && Ascending(t + [y], rank)
    ensures x == y
  {
    var a, b := s + [x], t + [y];
    ArrangedMembers(a, b, rank, x);
    ArrangedMembers(a, b, rank, y);
    assert a[|s|] == x && b[|t|] == y;
    var i :| 0 <= i < |a| && a[i] == y;
    var j :| 0 <= j < |b| && b[j] == x;
    assert rank(a[i]) <= rank(x) && rank(b[j]) <= rank(y);
    BucketSnoc(s, x, rank, rank(x));
    BucketSnoc(t, y, rank, rank(x));
    assert Last(Bucket(a, rank, rank(x))) == x && Last(Bucket(b, rank, rank(x))) == y;
  }

  /** Neighbours of different ranks may be swapped. */
  lemma BucketSwap(s: seq<Endpoint>, x: Endpoint, y: Endpoint, rank: Endpoint -> nat, i: nat)
    requires rank(x) != rank(y)
    ensures Bucket((s + [x]) + [y], rank, i) == Bucket((s + [y]) + [x], rank, i)
  {
    BucketSnoc(s, x, rank, i);
    BucketSnoc(s, y, rank, i);
    BucketSnoc(s + [x], y, rank, i);
    BucketSnoc(s + [y], x, rank, i);
  }

  lemma {:induction false} InsertBucket(s: seq<Endpoint>, x: Endpoint, rank: Endpoint -> nat, i: nat)
    ensures Bucket(Insert(s, x, ByRank(rank)), rank, i) == Bucket(s + [x], rank, i)
  {
    if s == [] {
      assert s + [x] == [x];
    } else if rank(x) < rank(Last(s)) {
      InsertBucket(DropLast(s), x, rank, i);
      InsertBucketStep(DropLast(s), Last(s), x, Insert(DropLast(s), x, ByRank(rank)), rank, i);
      assert s == DropLast(s) + [Last(s)];
    }
  }

  lemma InsertBucketStep(
      front: seq<Endpoint>, y: Endpoint, x: Endpoint, r: seq<Endpoint>, rank: Endpoint -> nat, i: nat)
    requires rank(x) != rank(y) && Bucket(r, rank, i) == Bucket(front + [x], rank, i)
    ensures Bucket(r + [y], rank, i) == Bucket((front + [y]) + [x], rank, i)
  {
    BucketSnoc(r, y, rank, i);
    BucketSnoc(front + [x], y, rank, i);
    BucketSwap(front, x, y, rank, i);
  }

  lemma {:induction false} InsertMembers(s: seq<Endpoint>, x: Endpoint, less: (Endpoint, Endpoint) -> bool)
    ensures forall e :: e in Insert(s, x, less) <==> e in s || e == x
  {
    if s != [] {
      assert s == DropLast(s) + [Last(s)];
      InsertMembers(DropLast(s), x, less);
    }
  }

  lemma {:induction false} InsertAscending(s: seq<Endpoint>, x: Endpoint, rank: Endpoint -> nat)
    requires Ascending(s, rank)
    ensures Ascending(Insert(s, x, ByRank(rank)), rank)
  {
    if s != [] && rank(x) < rank(Last(s)) {
      var front, y := DropLast(s), Last(s);
      assert s == front + [y];
      InsertAscending(front, x, rank);
      InsertMembers(front, x, ByRank(rank));
      AscendingSnoc(Insert(front, x, ByRank(rank)), y, rank);
    } else {
      AscendingSnoc(s, x, rank);
    }
  }

  lemma AscendingSnoc(s: seq<Endpoint>, y: Endpoint, rank: Endpoint -> nat)
    requires Ascending(s, rank)
    requires (s == [] || rank(Last(s)) <= rank(y)) || forall e | e in s :: rank(e) <= rank(y)
    ensures Ascending(s + [y], rank)
  {
    forall i | 0 <= i < |s| ensures rank(s[i]) <= rank(y) {
      assert s[i] in s;
    }
  }

  /** The insertion sort is a stable sort. */
  lemma {:induction false} SortedArranged(s: seq<Endpoint>, rank: Endpoint -> nat)
    ensures Arranged(Sorted(s, ByRank(rank)), s, rank)
  {
    if s != [] {
      var front, x := DropLast(s), Last(s);
      var r := Sorted(front, ByRank(rank));
      assert s == front + [x];
      SortedArranged(front, rank);
      InsertAscending(r, x, rank);
      forall i: nat ensures Bucket(Sorted(s, ByRank(rank)), rank, i) == Bucket(s, rank, i) {
        InsertBucket(r, x, rank, i);
        BucketSnoc(r, x, rank, i);
        BucketSnoc(front, x, rank, i);
      }
    }
  }

  // The manager

  /** `retain(|e| e.id != id)` */
  function Dropped(s: seq<Endpoint>, id: Uuid): seq<Endpoint> {
    if s == [] then []
    else Dropped(DropLast(s), id) + if Last(s).id != id then [Last(s)] else []
  }

  predicate Knows(s: seq<Endpoint>, id: Uuid) {
    exists i | 0 <= i < |s| :: s[i].id == id
  }

  function Added(r: Registry, e: Endpoint): Registry {
    r.(endpoints := Sorted(r.endpoints + [e], ByRank(Rank)))
  }

  function Removed(r: Registry, id: Uuid): Registry {
    Registry(Dropped(r.endpoints, id), if r.forced == Some(id) then None else r.forced, r.last)
  }

  function Switched(r: Registry, id: Uuid): Registry {
    if Knows(r.endpoints, id) then r.(forced := Some(id)) else r
  }

  /** The comparator of the second sort; on the last-connected endpoint itself it is not consistent. */
  predicate TriedBefore(last: Uuid, a: Endpoint, b: Endpoint) {
    if a.priority != b.priority then Rank(a) < Rank(b) else a.id == last
  }

  function TriedFirst(last: Uuid): (Endpoint, Endpoint) -> bool {
    (a, b) => TriedBefore(last, a, b)
  }

  function Selected(s: seq<Endpoint>, id: Uuid): seq<Endpoint> {
    if s == [] then []
    else Selected(DropLast(s), id) + if Last(s).id == id then [Last(s)] else []
  }

  function Ordered(r: Registry): seq<Endpoint> {
    if r.forced.Some? then Selected(r.endpoints, r.forced.value)
    else if r.last.Some? && Knows(r.endpoints, r.last.value) then Sorted(r.endpoints, TriedFirst(r.last.value))
    else r.endpoints
  }

  class EndpointManager {
    var endpoints: seq<Endpoint>
    var forcedEndpoint: Option<Uuid>
    var lastConnected: Option<Uuid>

    ghost function Model(): Registry
      reads this
    {
      Registry(endpoints, forcedEndpoint, lastConnected)
    }

    constructor ()
      ensures Model() == Registry([], None, None)
    {
      endpoints, forcedEndpoint, lastConnected := [], None, None;
    }

    /** `url` is the parsed address, `None` if parsing failed; `id` is newly drawn. */
    method AddEndpoint(url: Option<string>, priority: Priority, id: Uuid) returns (handle: Option<Uuid>)
      modifies this
      ensures url.None? ==> handle == None && Model() == old(Model())
      ensures url.Some? ==> handle == Some(id) && Model() == Added(old(Model()), Endpoint(id, url.value, priority))
    {
      if url.None? {
        return None;
      }
      endpoints := endpoints + [Endpoint(id, url.value, priority)];
      endpoints := SortBy(endpoints, ByRank(Rank));
      handle := Some(id);
    }

    method RemoveEndpoint(id: Uuid)
      modifies this
      ensures Model() == Removed(old(Model()), id)
    {
      var kept := [];
      for i := 0 to |endpoints|
        invariant endpoints == old(endpoints) && Model() == old(Model())
        invariant kept == Dropped(endpoints[..i], id)
      {
        assert DropLast(endpoints[..i + 1]) == endpoints[..i];
        if endpoints[i].id != id {
          kept := kept + [endpoints[i]];
        }
      }
      assert endpoints[..|endpoints|] == endpoints;
      endpoints := kept;
      if forcedEndpoint == Some(id) {
        forcedEndpoint := None;
      }
    }

    method SwitchToEndpoint(id: Uuid) returns (ok: bool)
      modifies this
      ensures ok == Knows(old(endpoints), id) && Model() == Switched(old(Model()), id)
    {
      ok := exists i | 0 <= i < |endpoints| :: endpoints[i].id == id;
      if ok {
        forcedEndpoint := Some(id);
      }
    }

    method ClearForcedEndpoint()
      modifies this
      ensures Model() == old(Model()).(forced := None)
    {
      forcedEndpoint := None;
    }

    method MarkConnected(id: Uuid)
      modifies this
      ensures Model() == old(Model()).(last := Some(id))
    {
      lastConnected := Some(id);
    }

    method OrderedUrls() returns (result: seq<(Uuid, string)>)
      ensures |result| == |Ordered(Model())|
      ensures forall i | 0 <= i < |result| ::
        result[i] == (Ordered(Model())[i].id, Ordered(Model())[i].url)
    {
      var sorted := endpoints;
      if forcedEndpoint.Some? {
        sorted := [];
        for i := 0 to |endpoints|
          invariant sorted == Selected(endpoints[..i], forcedEndpoint.value)
        {
          assert DropLast(endpoints[..i + 1]) == endpoints[..i];
          if endpoints[i].id == forcedEndpoint.value {
            sorted := sorted + [endpoints[i]];
          }
        }
        assert endpoints[..|endpoints|] == endpoints;
      } else if lastConnected.Some? && Knows(endpoints, lastConnected.value) {
        sorted := SortBy(sorted, TriedFirst(lastConnected.value));
      }
      result := [];
      for i := 0 to |sorted|
        invariant |result| == i
        invariant forall j | 0 <= j < i :: result[j] == (sorted[j].id, sorted[j].url)
      {
        result := result + [(sorted[i].id, sorted[i].url)];
      }
    }
  }

  // The order, from the history of additions

  predicate UniqueIds(s: seq<Endpoint>) {
    forall i, j | 0 <= i < j < |s| :: s[i].id != s[j].id
  }

  /** Priority first; within a priority the last-connected endpoint first. */
  function TierRank(last: Option<Uuid>): Endpoint -> nat {
    e => 2 * Rank(e) + if last == Some(e.id) then 0 else 1
  }

  /** Of two endpoints with different identifiers the comparator puts first the one of lower tier rank. */
  lemma TriedBeforeIsRank(last: Uuid, a: Endpoint, b: Endpoint)
    requires a.id != b.id
    ensures TriedBefore(last, a, b) <==> TierRank(Some(last))(a) < TierRank(Some(last))(b)
  {
    assert a.priority != b.priority <==> Rank(a) != Rank(b);
  }

  lemma DistinctIds(s: seq<Endpoint>, a: Endpoint, b: Endpoint)
    requires UniqueIds(s) && a in s && b in s && a != b
    ensures a.id != b.id
  {
    var i :| 0 <= i < |s| && s[i] == a;
    var j :| 0 <= j < |s| && s[j] == b;
    assert if i < j then s[i].id != s[j].id else s[j].id != s[i].id;
  }

  /**
   On distinct endpoints the comparator is exactly the comparison of tier
   ranks, so any stable sort by it gives the one arrangement by tier rank.
   */
  lemma ComparatorIsRank(s: seq<Endpoint>, last: Uuid, r: seq<Endpoint>)
    requires UniqueIds(s)
    ensures forall a, b | a in s && b in s && a != b ::
      TriedBefore(last, a, b) <==> TierRank(Some(last))(a) < TierRank(Some(last))(b)
    ensures Arranged(r, s, TierRank(Some(last))) <==> r == Sorted(s, TriedFirst(last))
  {
    var rank := TierRank(Some(last));
    forall a, b | a in s && b in s && a != b ensures TriedBefore(last, a, b) <==> rank(a) < rank(b) {
      DistinctIds(s, a, b);
      TriedBeforeIsRank(last, a, b);
    }
    SameSorted(s, last);
    SortedArranged(s, rank);
    if Arranged(r, s, rank) {
      ArrangementUnique(r, Sorted(s, ByRank(rank)), rank);
    }
  }

  lemma {:induction false} SameSorted(s: seq<Endpoint>, last: Uuid)
    requires UniqueIds(s)
    ensures Sorted(s, TriedFirst(last)) == Sorted(s, ByRank(TierRank(Some(last))))
  {
    if s != [] {
      var front, x := DropLast(s), Last(s);
      assert s == front + [x];
      SameSorted(front, last);
      SortedUnique(front, TriedFirst(last));
      SameInsert(Sorted(front, TriedFirst(last)), x, last);
    }
  }

  lemma {:induction false} SameInsert(s: seq<Endpoint>, x: Endpoint, last: Uuid)
    requires forall e | e in s :: e.id != x.id
    ensures Insert(s, x, TriedFirst(last)) == Insert(s, x, ByRank(TierRank(Some(last))))
  {
    if s != [] {
      assert s == DropLast(s) + [Last(s)];
      TriedBeforeIsRank(last, x, Last(s));
      SameInsert(DropLast(s), x, last);
    }
  }

  lemma {:induction false} SortedUnique(s: seq<Endpoint>, less: (Endpoint, Endpoint) -> bool)
    requires UniqueIds(s)
    ensures UniqueIds(Sorted(s, less))
    ensures forall e :: e in Sorted(s, less) <==> e in s
  {
    if s != [] {
      var front, x := DropLast(s), Last(s);
      assert s == front + [x];
      SortedUnique(front, less);
      InsertUnique(Sorted(front, less), x, less);
      InsertMembers(Sorted(front, less), x, less);
    }
  }

  lemma {:induction false} InsertUnique(s: seq<Endpoint>, x: Endpoint, less: (Endpoint, Endpoint) -> bool)
    requires UniqueIds(s) && forall e | e in s :: e.id != x.id
    ensures UniqueIds(Insert(s, x, less))
  {
    if s != [] && less(x, Last(s)) {
      var front, y := DropLast(s), Last(s);
      UniqueFront(s);
      InsertUnique(front, x, less);
      InsertMembers(front, x, less);
      UniqueSnoc(Insert(front, x, less), y);
    } else {
      UniqueSnoc(s, x);
    }
  }

  lemma UniqueSnoc(s: seq<Endpoint>, y: Endpoint)
    requires UniqueIds(s) && forall e | e in s :: e.id != y.id
    ensures UniqueIds(s + [y])
  {
  }

  lemma UniqueFront(s: seq<Endpoint>)
    requires UniqueIds(s) && s != []
    ensures UniqueIds(DropLast(s)) && Last(s) in s
    ensures forall e | e in DropLast(s) :: e in s && e.id != Last(s).id
  {
  }

  datatype Op =
    | Add(endpoint: Endpoint)
    | Remove(id: Uuid)
    | SwitchTo(id: Uuid)
    | ClearForced
    | MarkConnected(id: Uuid)

  function Step(r: Registry, op: Op): Registry {
    match op
    case Add(e) => Added(r, e)
    case Remove(id) => Removed(r, id)
    case SwitchTo(id) => Switched(r, id)
    case ClearForced => r.(forced := None)
    case MarkConnected(id) => r.(last := Some(id))
  }

  function Run(ops: seq<Op>): Registry {
    if ops == [] then Registry([], None, None) else Step(Run(DropLast(ops)), Last(ops))
  }

  /** The endpoints added and not removed, in the order of their addition. */
  function Surviving(ops: seq<Op>): seq<Endpoint> {
    if ops == [] then []
    else
      match Last(ops)
      case Add(e) => Surviving(DropLast(ops)) + [e]
      case Remove(id) => Dropped(Surviving(DropLast(ops)), id)
      case _ => Surviving(DropLast(ops))
  }

  /** The endpoint a run has forced: switched to while known, and neither cleared nor removed since. */
  function ForcedBy(ops: seq<Op>): Option<Uuid> {
    if ops == [] then None
    else
      var before := ForcedBy(DropLast(ops));
      match Last(ops)
      case SwitchTo(id) => if Knows(Surviving(DropLast(ops)), id) then Some(id) else before
      case ClearForced => None
      case Remove(id) => if before == Some(id) then None else before
      case _ => before
  }

  function LastMarked(ops: seq<Op>): Option<Uuid> {
    if ops == [] then None
    else if Last(ops).MarkConnected? then Some(Last(ops).id)
    else LastMarked(DropLast(ops))
  }

  /** Handles are drawn anew for each addition. */
  predicate NewIds(ops: seq<Op>) {
    ops == [] ||
    (NewIds(DropLast(ops)) && (Last(ops).Add? ==> !Knows(Surviving(DropLast(ops)), Last(ops).endpoint.id)))
  }

  lemma {:induction false} DroppedMembers(s: seq<Endpoint>, id: Uuid)
    ensures forall e :: e in Dropped(s, id) <==> e in s && e.id != id
    ensures UniqueIds(s) ==> UniqueIds(Dropped(s, id))
  {
    if s != [] {
      DroppedMembers(DropLast(s), id);
      assert s == DropLast(s) + [Last(s)];
    }
  }

  lemma DroppedSnoc(s: seq<Endpoint>, x: Endpoint, id: Uuid)
    ensures Dropped(s + [x], id) == if x.id != id then Dropped(s, id) + [x] else Dropped(s, id)
  {
    assert DropLast(s + [x]) == s;
  }

  lemma {:induction false} DroppedBucket(s: seq<Endpoint>, rank: Endpoint -> nat, i: nat, id: Uuid)
    ensures Bucket(Dropped(s, id), rank, i) == Dropped(Bucket(s, rank, i), id)
  {
    if s != [] {
      var front, x := DropLast(s), Last(s);
      assert s == front + [x];
      DroppedBucket(front, rank, i, id);
      BucketSnoc(front, x, rank, i);
      BucketSnoc(Dropped(front, id), x, rank, i);
      DroppedSnoc(front, x, id);
      DroppedSnoc(Bucket(front, rank, i), x, id);
    }
  }

  lemma {:induction false} DroppedAscending(s: seq<Endpoint>, rank: Endpoint -> nat, id: Uuid)
    requires Ascending(s, rank)
    ensures Ascending(Dropped(s, id), rank)
  {
    if s != [] {
      var front, x := DropLast(s), Last(s);
      assert s == front + [x];
      DroppedAscending(front, rank, id);
      DroppedMembers(front, id);
      forall e | e in Dropped(front, id) ensures rank(e) <= rank(x) {
        var i :| 0 <= i < |front| && front[i] == e;
        assert s[i] == e && s[|s| - 1] == x;
      }
      AscendingSnoc(Dropped(front, id), x, rank);
    }
  }

  lemma AddedArranged(r: seq<Endpoint>, log: seq<Endpoint>, e: Endpoint)
    requires Arranged(r, log, Rank)
    ensures Arranged(Sorted(r + [e], ByRank(Rank)), log + [e], Rank)
  {
    SortedArranged(r + [e], Rank);
    forall i: nat ensures Bucket(r + [e], Rank, i) == Bucket(log + [e], Rank, i) {
      BucketSnoc(r, e, Rank, i);
      BucketSnoc(log, e, Rank, i);
    }
  }

  lemma DroppedArranged(r: seq<Endpoint>, log: seq<Endpoint>, id: Uuid)
    requires Arranged(r, log, Rank)
    ensures Arranged(Dropped(r, id), Dropped(log, id), Rank)
  {
    DroppedAscending(r, Rank, id);
    forall i: nat ensures Bucket(Dropped(r, id), Rank, i) == Bucket(Dropped(log, id), Rank, i) {
      DroppedBucket(r, Rank, i, id);
      DroppedBucket(log, Rank, i, id);
    }
  }

  lemma KnowsMember(s: seq<Endpoint>, e: Endpoint)
    requires e in s
    ensures Knows(s, e.id)
  {
    var i :| 0 <= i < |s| && s[i] == e;
    assert s[i].id == e.id;
  }

  /** Whether an identifier is known depends only on the members. */
  lemma KnowsSame(s: seq<Endpoint>, t: seq<Endpoint>, id: Uuid)
    requires forall e :: e in s <==> e in t
    ensures Knows(s, id) <==> Knows(t, id)
  {
    if Knows(s, id) {
      var i :| 0 <= i < |s| && s[i].id == id;
      KnowsMember(t, s[i]);
    }
    if Knows(t, id) {
      var i :| 0 <= i < |t| && t[i].id == id;
      KnowsMember(s, t[i]);
    }
  }

  ghost predicate Grouped(r: Registry, log: seq<Endpoint>) {
    Arranged(r.endpoints, log, Rank) && UniqueIds(r.endpoints) &&
    (forall e :: e in r.endpoints <==> e in log) &&
    (r.forced.Some? ==> Knows(r.endpoints, r.forced.value))
  }

  lemma GroupedAdd(r: Registry, log: seq<Endpoint>, e: Endpoint)
    requires Grouped(r, log) && !Knows(log, e.id)
    ensures Grouped(Added(r, e), log + [e])
  {
    AddedArranged(r.endpoints, log, e);
    forall x | x in r.endpoints ensures x.id != e.id {
      KnowsMember(log, x);
    }
    SortedUnique(r.endpoints + [e], ByRank(Rank));
    if r.forced.Some? {
      var i :| 0 <= i < |r.endpoints| && r.endpoints[i].id == r.forced.value;
      assert r.endpoints[i] in r.endpoints + [e];
      KnowsMember(Added(r, e).endpoints, r.endpoints[i]);
    }
  }

  lemma GroupedRemove(r: Registry, log: seq<Endpoint>, id: Uuid)
    requires Grouped(r, log)
    ensures Grouped(Removed(r, id), Dropped(log, id))
  {
    DroppedArranged(r.endpoints, log, id);
    DroppedMembers(r.endpoints, id);
    DroppedMembers(log, id);
    if r.forced.Some? && r.forced.value != id {
      var i :| 0 <= i < |r.endpoints| && r.endpoints[i].id == r.forced.value;
      KnowsMember(Dropped(r.endpoints, id), r.endpoints[i]);
    }
  }

  /**
   Over every run the stored list is the surviving additions grouped by
   priority, each group in insertion order, and a forced endpoint is a stored one.
   */
  lemma {:induction false} RunIsGrouped(ops: seq<Op>)
    requires NewIds(ops)
    ensures Grouped(Run(ops), Surviving(ops))
    ensures Run(ops).forced == ForcedBy(ops) && Run(ops).last == LastMarked(ops)
  {
    if ops != [] {
      var front := DropLast(ops);
      RunIsGrouped(front);
      match Last(ops)
      case Add(e) => GroupedAdd(Run(front), Surviving(front), e);
      case Remove(id) => GroupedRemove(Run(front), Surviving(front), id);
      case SwitchTo(id) => KnowsSame(Run(front).endpoints, Surviving(front), id);
      case _ =>
    }
  }

  /** A tier lies inside one priority. */
  lemma {:induction false} TierInPriority(s: seq<Endpoint>, last: Option<Uuid>, i: nat)
    ensures Bucket(Bucket(s, Rank, i / 2), TierRank(last), i) == Bucket(s, TierRank(last), i)
  {
    if s != [] {
      var front, x := DropLast(s), Last(s);
      assert s == front + [x];
      TierInPriority(front, last, i);
      BucketSnoc(front, x, Rank, i / 2);
      BucketSnoc(front, x, TierRank(last), i);
      BucketSnoc(Bucket(front, Rank, i / 2), x, TierRank(last), i);
      assert TierRank(last)(x) == i ==> Rank(x) == i / 2;
    }
  }

  lemma {:induction false} SelectedMembers(s: seq<Endpoint>, id: Uuid)
    ensures forall e :: e in Selected(s, id) <==> e in s && e.id == id
  {
    if s != [] {
      SelectedMembers(DropLast(s), id);
      assert s == DropLast(s) + [Last(s)];
    }
  }

  lemma FirstMember(s: seq<Endpoint>)
    requires s != []
    ensures s[0] in s
  {
  }

  lemma {:induction false} SelectedOnly(s: seq<Endpoint>, id: Uuid)
    requires UniqueIds(s)
    ensures |Selected(s, id)| <= 1
  {
    if s != [] {
      var front := DropLast(s);
      SelectedOnly(front, id);
      UniqueFront(s);
      SelectedMembers(front, id);
      if Last(s).id == id && Selected(front, id) != [] {
        FirstMember(Selected(front, id));
      }
    }
  }

  /**
   The order in which endpoints are tried, over every run: the forced endpoint
   alone if there is one; otherwise all survivors by priority, in each priority
   the last-connected endpoint first and the others in insertion order.
   */
  lemma TriedInOrder(ops: seq<Op>)
    requires NewIds(ops)
    ensures var r, log := Run(ops), Surviving(ops);
            if ForcedBy(ops).Some? then
              |Ordered(r)| == 1 && Ordered(r)[0] in log && Ordered(r)[0].id == ForcedBy(ops).value
            else
              Arranged(Ordered(r), log, TierRank(LastMarked(ops)))
  {
    var r, log := Run(ops), Surviving(ops);
    RunIsGrouped(ops);
    if r.forced.Some? {
      SelectedOnly(r.endpoints, r.forced.value);
      SelectedMembers(r.endpoints, r.forced.value);
      var i :| 0 <= i < |r.endpoints| && r.endpoints[i].id == r.forced.value;
      assert r.endpoints[i] in Ordered(r);
      assert Ordered(r)[0] in Ordered(r);
    } else {
      var rank := TierRank(r.last);
      if r.last.Some? && Knows(r.endpoints, r.last.value) {
        SameSorted(r.endpoints, r.last.value);
        SortedArranged(r.endpoints, rank);
      } else {
        NoLast(r.endpoints, r.last);
      }
      forall i: nat ensures Bucket(Ordered(r), rank, i) == Bucket(log, rank, i) {
        TierInPriority(r.endpoints, r.last, i);
        TierInPriority(log, r.last, i);
      }
    }
  }

  // The order said without ranks

  /** Local before remote before developer endpoints. */
  predicate Sooner(p: Priority, q: Priority) {
    (p.Local? && !q.Local?) || (p.Remote? && q.Dev?)
  }

  lemma {:induction false} BucketPrecedes(s: seq<Endpoint>, rank: Endpoint -> nat, i: nat, a: Endpoint, b: Endpoint)
    ensures Precedes(Bucket(s, rank, i), a, b) <==> Precedes(s, a, b) && rank(a) == i && rank(b) == i
  {
    if s != [] {
      var front, x := DropLast(s), Last(s);
      assert s == front + [x];
      BucketPrecedes(front, rank, i, a, b);
      BucketMembers(front, rank, i, a);
      PrecedesSnoc(front, x, a, b);
      PrecedesSnoc(Bucket(front, rank, i), x, a, b);
      BucketSnoc(front, x, rank, i);
    }
  }

  lemma LowerIsEarlier(r: seq<Endpoint>, rank: Endpoint -> nat, i: nat, j: nat)
    requires Ascending(r, rank) && i < |r| && j < |r| && rank(r[i]) < rank(r[j])
    ensures i < j
  {
  }

  /** In an arrangement lower ranks come first, and equal ranks in their old order. */
  lemma ArrangedPrecedes(r: seq<Endpoint>, s: seq<Endpoint>, rank: Endpoint -> nat, a: Endpoint, b: Endpoint)
    requires Arranged(r, s, rank) && a in s && b in s && a != b
    ensures Precedes(r, a, b) <==> rank(a) < rank(b) || (rank(a) == rank(b) && Precedes(s, a, b))
  {
    ArrangedMembers(r, s, rank, a);
    ArrangedMembers(r, s, rank, b);
    if rank(a) == rank(b) {
      BucketPrecedes(r, rank, rank(a), a, b);
      BucketPrecedes(s, rank, rank(a), a, b);
    } else {
      var i :| 0 <= i < |r| && r[i] == a;
      var j :| 0 <= j < |r| && r[j] == b;
      if Precedes(r, a, b) {
        var i', j' :| 0 <= i' < j' < |r| && r[i'] == a && r[j'] == b;
        assert rank(r[i']) <= rank(r[j']);
      }
      if rank(a) < rank(b) {
        LowerIsEarlier(r, rank, i, j);
      }
    }
  }

  /** Stored endpoints: local, then remote, then developer ones, each in the order of their addition. */
  lemma StoredExactly(ops: seq<Op>, a: Endpoint, b: Endpoint)
    requires NewIds(ops) && a in Surviving(ops) && b in Surviving(ops) && a != b
    ensures forall e :: e in Run(ops).endpoints <==> e in Surviving(ops)
    ensures UniqueIds(Run(ops).endpoints)
    ensures Precedes(Run(ops).endpoints, a, b) <==>
            Sooner(a.priority, b.priority) || (a.priority == b.priority && Precedes(Surviving(ops), a, b))
  {
    RunIsGrouped(ops);
    ArrangedPrecedes(Run(ops).endpoints, Surviving(ops), Rank, a, b);
  }

  lemma TierOrder(last: Option<Uuid>, a: Endpoint, b: Endpoint)
    requires a.id != b.id
    ensures TierRank(last)(a) < TierRank(last)(b) <==>
            Sooner(a.priority, b.priority) || (a.priority == b.priority && last == Some(a.id))
    ensures TierRank(last)(a) == TierRank(last)(b) <==>
            a.priority == b.priority && last != Some(a.id) && last != Some(b.id)
  {
  }

  /**
   Endpoints tried, if none is forced: all of them, local, then remote, then
   developer ones; of each kind the last-connected one first, and the others
   in the order of their addition.
   */
  lemma TriedExactly(ops: seq<Op>, a: Endpoint, b: Endpoint)
    requires NewIds(ops) && ForcedBy(ops) == None
    requires a in Surviving(ops) && b in Surviving(ops) && a != b
    ensures forall e :: e in Ordered(Run(ops)) <==> e in Surviving(ops)
    ensures |Ordered(Run(ops))| == |Run(ops).endpoints|
    ensures var last := LastMarked(ops);
            Precedes(Ordered(Run(ops)), a, b) <==>
            Sooner(a.priority, b.priority) ||
            (a.priority == b.priority &&
             (last == Some(a.id) || (last != Some(b.id) && Precedes(Surviving(ops), a, b))))
  {
    var r, log, rank := Run(ops), Surviving(ops), TierRank(LastMarked(ops));
    RunIsGrouped(ops);
    TriedInOrder(ops);
    forall e ensures e in Ordered(r) <==> e in log {
      ArrangedMembers(Ordered(r), log, rank, e);
    }
    ArrangedPrecedes(Ordered(r), log, rank, a, b);
    DistinctIds(r.endpoints, a, b);
    TierOrder(LastMarked(ops), a, b);
    if r.last.Some? && Knows(r.endpoints, r.last.value) {
      SortedLength(r.endpoints, TriedFirst(r.last.value));
    }
  }

  lemma {:induction false} SortedLength(s: seq<Endpoint>, less: (Endpoint, Endpoint) -> bool)
    ensures |Sorted(s, less)| == |s|
  {
    if s != [] {
      SortedLength(DropLast(s), less);
      InsertLength(Sorted(DropLast(s), less), Last(s), less);
    }
  }

  lemma {:induction false} InsertLength(s: seq<Endpoint>, x: Endpoint, less: (Endpoint, Endpoint) -> bool)
    ensures |Insert(s, x, less)| == |s| + 1
  {
    if s != [] {
      InsertLength(DropLast(s), x, less);
    }
  }

  /** If no stored endpoint is the last-connected one, grouping by priority is already the order. */
  lemma NoLast(s: seq<Endpoint>, last: Option<Uuid>)
    requires Ascending(s, Rank)
    requires last.Some? ==> !Knows(s, last.value)
    ensures Ascending(s, TierRank(last))
  {
    forall i | 0 <= i < |s| ensures TierRank(last)(s[i]) == 2 * Rank(s[i]) + 1 {
      KnowsMember(s, s[i]);
    }
  }
}
