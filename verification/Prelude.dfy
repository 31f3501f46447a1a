/** Shared vocabulary: optional values, mutable references, the ends of a sequence, order in it, counting. */
module Prelude {

  datatype Option<+T> = None | Some(value: T)

  /** A `&mut T` of the source: a place whose content a callee may replace. */
  class Ref<T> {
    var value: T

    constructor (value: T)
      ensures this.value == value
    {
      this.value := value;
    }
  }

  function Last<T>(s: seq<T>): T
    requires s != []
  {
    s[|s| - 1]
  }

  function DropLast<T>(s: seq<T>): seq<T>
    requires s != []
  {
    s[..|s| - 1]
  }

  /** Counting: `t` has element `i` more than `s`, or not. */
  lemma OneMore(s: set<nat>, i: nat, t: set<nat>, more: bool)
    requires i !in s && forall j: nat :: j in t <==> j in s || (more && j == i)
    ensures |t| == |s| + if more then 1 else 0
  {
    assert t == s + if more then {i} else {};
  }

  /** `a` comes before `b` in `s`. */
  predicate Precedes<T(==)>(s: seq<T>, a: T, b: T) {
    exists i, j | 0 <= i < j < |s| :: s[i] == a && s[j] == b
  }

  lemma PrecedesSnoc<T>(s: seq<T>, x: T, a: T, b: T)
    ensures Precedes(s + [x], a, b) <==> Precedes(s, a, b) || (b == x && a in s)
  {
    var all := s + [x];
    if Precedes(all, a, b) {
      var i, j :| 0 <= i < j < |all| && all[i] == a && all[j] == b;
      assert i < |s| && s[i] == a;
      assert j < |s| ==> s[j] == b;
    }
    if Precedes(s, a, b) {
      var i, j :| 0 <= i < j < |s| && s[i] == a && s[j] == b;
      assert all[i] == a && all[j] == b;
    }
    if b == x && a in s {
      var i :| 0 <= i < |s| && s[i] == a;
      assert all[i] == a && all[|s|] == b;
    }
  }
}
