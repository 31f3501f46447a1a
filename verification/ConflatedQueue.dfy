/**
 The conflating queue: messages with the same key are merged in place while
 they wait.  For whoever applies the popped messages it is a plain FIFO.
 */
module Queues {
  import opened Prelude
  import opened Uuids

  datatype ConflationKey = Unique(id: Uuid) | Entity(kind: string, id: Uuid) | Custom(name: string)

  /** What a message type says about conflation. */
  datatype Conflation<!M> = Conflation(
    keyOf: M -> Option<ConflationKey>,
    mergeWith: (M, M) -> Option<M>)

  datatype Queue<M> = Queue(order: seq<ConflationKey>, messages: map<ConflationKey, M>)

  /** The key a message is queued under; `drawn` is the identifier drawn if it has none. */
  function KeyFor<M>(rules: Conflation<M>, m: M, drawn: Uuid): ConflationKey {
    match rules.keyOf(m)
    case Some(k) => k
    case None => Unique(drawn)
  }

  function PushTo<M>(rules: Conflation<M>, q: Queue<M>, m: M, drawn: Uuid): Queue<M> {
    var k := KeyFor(rules, m, drawn);
    if k in q.messages then
      match rules.mergeWith(q.messages[k], m)
      case Some(merged) => q.(messages := q.messages[k := merged])
      case None => q.(messages := q.messages[k := m])
    else
      Queue(q.order + [k], q.messages[k := m])
  }

  /** Skips keys without a message, then removes the first message. */
  function PopFrom<M>(q: Queue<M>): (Option<M>, Queue<M>)
    decreases |q.order|
  {
    if q.order == [] then (None, q)
    else
      var k, rest := q.order[0], q.order[1..];
      if k in q.messages then (Some(q.messages[k]), Queue(rest, q.messages - {k}))
      else PopFrom(Queue(rest, q.messages))
  }

  class ConflatedQueue<M> {
    const rules: Conflation<M>
    var order: seq<ConflationKey>
    var messages: map<ConflationKey, M>

    ghost function Model(): Queue<M>
      reads this
    {
      Queue(order, messages)
    }

    constructor (rules: Conflation<M>)
      ensures this.rules == rules && Model() == Queue([], map[])
    {
      this.rules := rules;
      order, messages := [], map[];
    }

    method Push(message: M, drawn: Uuid)
      modifies this
      ensures Model() == PushTo(rules, old(Model()), message, drawn)
    {
      var found := rules.keyOf(message);
      var key := if found.Some? then found.value else Unique(drawn);
      if key in messages {
        var merged := rules.mergeWith(messages[key], message);
        if merged.Some? {
          messages := messages[key := merged.value];
        } else {
          messages := messages[key := message];
        }
      } else {
        order := order + [key];
        messages := messages[key := message];
      }
    }

    method Pop() returns (r: Option<M>)
      modifies this
      ensures (r, Model()) == PopFrom(old(Model()))
    {
      r := None;
      while order != []
        invariant PopFrom(Model()) == PopFrom(old(Model()))
        decreases |order|
      {
        var key := order[0];
        order := order[1..];
        if key in messages {
          r := Some(messages[key]);
          messages := messages - {key};
          return;
        }
      }
    }

    method IsEmpty() returns (r: bool)
      requires Valid(Model())
      ensures r <==> Queued(Model()) == []
    {
      r := messages == map[];
      SizesAgree(Model());
    }

    method Len() returns (n: nat)
      requires Valid(Model())
      ensures n == |Queued(Model())|
    {
      n := |messages|;
      SizesAgree(Model());
    }

    method Clear()
      modifies this
      ensures Model() == Queue([], map[])
    {
      order := [];
      messages := map[];
    }
  }

  // Every reachable queue is valid

  ghost predicate Valid<M>(q: Queue<M>) {
    (forall i, j | 0 <= i < j < |q.order| :: q.order[i] != q.order[j]) &&
    (forall k :: k in q.order <==> k in q.messages)
  }

  /** The waiting messages in the order in which they will be popped. */
  ghost function Queued<M>(q: Queue<M>): (r: seq<M>)
    requires Valid(q)
    ensures |r| == |q.order|
  {
    seq(|q.order|, i requires 0 <= i < |q.order| => q.messages[q.order[i]])
  }

  lemma PushValid<M>(rules: Conflation<M>, q: Queue<M>, m: M, drawn: Uuid)
    requires Valid(q)
    ensures Valid(PushTo(rules, q, m, drawn))
    ensures q.order <= PushTo(rules, q, m, drawn).order
  {
    var k, q' := KeyFor(rules, m, drawn), PushTo(rules, q, m, drawn);
    forall x ensures x in q'.order <==> x in q'.messages {
      assert x in q.order <==> x in q.messages;
    }
  }

  lemma WithoutHead<M>(q: Queue<M>)
    requires Valid(q) && q.order != []
    ensures q.order[0] in q.messages
    ensures Valid(Queue(q.order[1..], q.messages - {q.order[0]}))
  {
    var q' := Queue(q.order[1..], q.messages - {q.order[0]});
    assert q.order[0] in q.order;
    forall x ensures x in q'.order <==> x in q'.messages {
      InTail(q.order, x);
      assert x in q.order <==> x in q.messages;
    }
  }

  /** `pop` never skips: it returns the head of the queue and nothing else moves. */
  lemma PopTakesHead<M>(q: Queue<M>)
    requires Valid(q)
    ensures q.order == [] ==> PopFrom(q) == (None, q)
    ensures q.order != [] ==>
              Valid(PopFrom(q).1) && PopFrom(q).1.order == q.order[1..] &&
              PopFrom(q).0 == Some(Queued(q)[0]) && Queued(PopFrom(q).1) == Queued(q)[1..]
  {
    if q.order != [] {
      WithoutHead(q);
      var q' := Queue(q.order[1..], q.messages - {q.order[0]});
      assert PopFrom(q) == (Some(q.messages[q.order[0]]), q');
      assert Queued(q') == Queued(q)[1..];
    }
  }

  /**
   In any queue, valid or not, `pop` returns the message of the first key that
   has one, with the keys before it; if no key has one it empties the order.
   */
  lemma {:induction false} PopSkips<M>(q: Queue<M>, i: nat)
    requires i <= |q.order| && forall j | 0 <= j < i :: q.order[j] !in q.messages
    requires i < |q.order| ==> q.order[i] in q.messages
    ensures PopFrom(q) ==
            if i < |q.order| then
              (Some(q.messages[q.order[i]]), Queue(q.order[i + 1..], q.messages - {q.order[i]}))
            else (None, Queue([], q.messages))
    decreases |q.order|
  {
    if i > 0 {
      var rest := Queue(q.order[1..], q.messages);
      assert q.order[0] !in q.messages;
      PopSkips(rest, i - 1);
      assert i < |q.order| ==> rest.order[i - 1] == q.order[i] && rest.order[i..] == q.order[i + 1..];
    }
  }

  lemma PopSingle<M>(k: ConflationKey, m: M)
    ensures PopFrom(Queue([k], map[k := m])) == (Some(m), Queue([], map[]))
  {
    var q := Queue([k], map[k := m]);
    assert q.order[1..] == [];
    assert q.messages - {k} == map[];
  }

  lemma InTail<T>(s: seq<T>, x: T)
    requires s != [] && forall i, j | 0 <= i < j < |s| :: s[i] != s[j]
    ensures x in s[1..] <==> x in s && x != s[0]
  {
    assert s == [s[0]] + s[1..];
  }

  lemma {:induction false} SizesAgree<M>(q: Queue<M>)
    requires Valid(q)
    ensures |q.messages| == |q.order|
    decreases |q.order|
  {
    if q.order == [] {
      assert q.messages.Keys == {};
    } else {
      PopTakesHead(q);
      var k := q.order[0];
      assert k in q.order;
      assert q.messages.Keys == (q.messages - {k}).Keys + {k};
      SizesAgree(Queue(q.order[1..], q.messages - {k}));
    }
  }

  // Runs

  datatype Event<M> = Pushed(message: M, drawn: Uuid) | Popped

  /** The queue, and the messages pushed into and popped from it so far. */
  datatype Run<M> = Run(queue: Queue<M>, pushed: seq<M>, popped: seq<M>)

  function Step<M>(rules: Conflation<M>, r: Run<M>, e: Event<M>): Run<M> {
    match e
    case Pushed(m, drawn) => Run(PushTo(rules, r.queue, m, drawn), r.pushed + [m], r.popped)
    case Popped =>
      var (m, q) := PopFrom(r.queue);
      Run(q, r.pushed, r.popped + if m.Some? then [m.value] else [])
  }

  function PlayFrom<M>(rules: Conflation<M>, r: Run<M>, es: seq<Event<M>>): Run<M> {
    if es == [] then r
    else Step(rules, PlayFrom(rules, r, DropLast(es)), Last(es))
  }

  function Play<M>(rules: Conflation<M>, es: seq<Event<M>>): Run<M> {
    PlayFrom(rules, Run(Queue([], map[]), [], []), es)
  }

  /** Under every key but that of a pushed message there is after a step what was there before. */
  lemma StepKeys<M>(rules: Conflation<M>, r: Run<M>, e: Event<M>)
    requires Valid(r.queue)
    ensures forall k | k in Step(rules, r, e).queue.messages ::
      (e.Pushed? && k == KeyFor(rules, e.message, e.drawn)) ||
      (k in r.queue.messages && Step(rules, r, e).queue.messages[k] == r.queue.messages[k])
  {
    if e.Popped? && r.queue.order != [] {
      assert r.queue.order[0] in r.queue.order;
    }
  }

  lemma {:induction false} PlayValid<M>(rules: Conflation<M>, r: Run<M>, es: seq<Event<M>>)
    requires Valid(r.queue)
    ensures Valid(PlayFrom(rules, r, es).queue)
  {
    if es != [] {
      PlayValid(rules, r, DropLast(es));
      var q := PlayFrom(rules, r, DropLast(es)).queue;
      if Last(es).Pushed? {
        PushValid(rules, q, Last(es).message, Last(es).drawn);
      } else {
        PopTakesHead(q);
      }
    }
  }

  function Pops<M>(es: seq<Event<M>>): nat {
    if es == [] then 0 else Pops(DropLast(es)) + if Last(es).Popped? then 1 else 0
  }

  /** A push moves nothing, a pop moves every key but the first one place forward. */
  lemma KeyMoves<M>(rules: Conflation<M>, r: Run<M>, e: Event<M>, p: nat)
    requires Valid(r.queue) && p < |r.queue.order| && (e.Popped? ==> p > 0)
    ensures var q', p' := Step(rules, r, e).queue, if e.Popped? then p - 1 else p;
            Valid(q') && p' < |q'.order| && q'.order[p'] == r.queue.order[p]
  {
    if e.Pushed? {
      PushValid(rules, r.queue, e.message, e.drawn);
    } else {
      PopTakesHead(r.queue);
    }
  }

  lemma HeadPopped<M>(q: Queue<M>)
    requires Valid(q) && q.order != []
    ensures q.order[0] in q.messages && PopFrom(q).0 == Some(q.messages[q.order[0]])
  {
    assert q.order[0] in q.order;
  }

  lemma {:induction false} KeyMovesOn<M>(rules: Conflation<M>, r: Run<M>, es: seq<Event<M>>, i: nat)
    requires Valid(r.queue) && i < |r.queue.order| && Pops(es) <= i
    ensures var q := PlayFrom(rules, r, es).queue;
            Valid(q) && i - Pops(es) < |q.order| && q.order[i - Pops(es)] == r.queue.order[i]
  {
    if es != [] {
      KeyMovesOn(rules, r, DropLast(es), i);
      KeyMoves(rules, PlayFrom(rules, r, DropLast(es)), Last(es), i - Pops(DropLast(es)));
      assert PlayFrom(rules, r, es) == Step(rules, PlayFrom(rules, r, DropLast(es)), Last(es));
    }
  }

  /**
   No overtaking: whatever is pushed meanwhile, the key at position `i` is at
   position `i - n` after `n <= i` pops, so the following pop `i + 1` returns it.
   */
  lemma {:induction false} NoOvertaking<M>(rules: Conflation<M>, r: Run<M>, es: seq<Event<M>>, i: nat)
    requires Valid(r.queue) && i < |r.queue.order|
    requires Pops(es) <= i
    ensures var q := PlayFrom(rules, r, es).queue;
            Valid(q) && i - Pops(es) < |q.order| && q.order[i - Pops(es)] == r.queue.order[i] &&
            (Pops(es) == i ==>
               r.queue.order[i] in q.messages && PopFrom(q).0 == Some(q.messages[r.queue.order[i]]))
  {
    KeyMovesOn(rules, r, es, i);
    HeadPopped(PlayFrom(rules, r, es).queue);
  }

  // Refinement of a plain FIFO

  /** The state after applying messages in order. */
  function Fold<S, M>(apply: (S, M) -> S, s: S, ms: seq<M>): S {
    if ms == [] then s else apply(Fold(apply, s, DropLast(ms)), Last(ms))
  }

  lemma {:induction false} FoldAppend<S, M>(apply: (S, M) -> S, s: S, a: seq<M>, b: seq<M>)
    ensures Fold(apply, s, a + b) == Fold(apply, Fold(apply, s, a), b)
  {
    if b == [] {
      assert a + b == a;
    } else {
      FoldAppend(apply, s, a, DropLast(b));
      assert DropLast(a + b) == a + DropLast(b);
    }
  }

  predicate SameKey<M>(rules: Conflation<M>, a: M, b: M) {
    rules.keyOf(a).Some? && rules.keyOf(a) == rules.keyOf(b)
  }

  predicate OtherKey<M>(rules: Conflation<M>, a: M, b: M) {
    rules.keyOf(a).Some? && rules.keyOf(a) != rules.keyOf(b)
  }

  /** Merging is applying both in turn; where there is no merge, the newer message supersedes. */
  ghost predicate Merges<S(!new), M>(rules: Conflation<M>, apply: (S, M) -> S, a: M, b: M) {
    match rules.mergeWith(a, b)
    case Some(m) =>
      rules.keyOf(m) == rules.keyOf(a) && forall s: S :: apply(s, m) == apply(apply(s, a), b)
    case None => forall s: S :: apply(s, b) == apply(apply(s, a), b)
  }

  ghost predicate Commute<S(!new), M>(apply: (S, M) -> S, a: M, b: M) {
    forall s: S :: apply(apply(s, a), b) == apply(apply(s, b), a)
  }

  /** What conflation asks of a message type; messages without a key may depend on each other. */
  ghost predicate Lawful<S(!new), M(!new)>(rules: Conflation<M>, apply: (S, M) -> S) {
    (forall a, b | SameKey(rules, a, b) :: Merges(rules, apply, a, b)) &&
    (forall a, b | OtherKey(rules, a, b) :: Commute(apply, a, b))
  }

  /** Stored messages carry the key they are stored under, or none. */
  ghost predicate Labelled<M>(rules: Conflation<M>, q: Queue<M>) {
    Valid(q) && forall k | k in q.messages :: rules.keyOf(q.messages[k]) in {Some(k), None}
  }

  /** The key of an arriving message is in use only by messages that declare it. */
  ghost predicate Admissible<M>(rules: Conflation<M>, q: Queue<M>, m: M, drawn: Uuid) {
    var k := KeyFor(rules, m, drawn);
    k in q.messages ==> rules.keyOf(m).Some? && rules.keyOf(q.messages[k]) == Some(k)
  }

  lemma {:induction false} MoveBack<S(!new), M(!new)>(
      rules: Conflation<M>, apply: (S, M) -> S, s: S, m: M, others: seq<M>)
    requires Lawful(rules, apply)
    requires forall o | o in others :: OtherKey(rules, m, o)
    ensures Fold(apply, apply(s, m), others) == apply(Fold(apply, s, others), m)
  {
    if others != [] {
      var front, o := DropLast(others), Last(others);
      assert others == front + [o];
      MoveBack(rules, apply, s, m, front);
      assert Commute(apply, m, o);
    }
  }

  /** Pushing, merged or not, has the effect of appending the message. */
  lemma {:induction false} PushAppends<S(!new), M(!new)>(
      rules: Conflation<M>, apply: (S, M) -> S, s: S, q: Queue<M>, m: M, drawn: Uuid)
    requires Lawful(rules, apply) && Labelled(rules, q) && Admissible(rules, q, m, drawn)
    ensures Labelled(rules, PushTo(rules, q, m, drawn))
    ensures rules.keyOf(PushTo(rules, q, m, drawn).messages[KeyFor(rules, m, drawn)]) == rules.keyOf(m)
    ensures Fold(apply, s, Queued(PushTo(rules, q, m, drawn))) == apply(Fold(apply, s, Queued(q)), m)
  {
    var k, q' := KeyFor(rules, m, drawn), PushTo(rules, q, m, drawn);
    PushValid(rules, q, m, drawn);
    if k in q.messages {
      assert SameKey(rules, q.messages[k], m) && Merges(rules, apply, q.messages[k], m);
      StoreMerged(rules, apply, s, q, m, k, q'.messages[k]);
    } else {
      assert k !in q.order;
      assert Queued(q') == Queued(q) + [m];
      assert DropLast(Queued(q) + [m]) == Queued(q);
    }
  }

  lemma StoreMerged<S(!new), M(!new)>(
      rules: Conflation<M>, apply: (S, M) -> S, s: S, q: Queue<M>, m: M, k: ConflationKey, newer: M)
    requires Lawful(rules, apply) && Labelled(rules, q)
    requires k in q.messages && rules.keyOf(m) == Some(k)
    requires forall t: S :: apply(t, newer) == apply(apply(t, q.messages[k]), m)
    ensures var q' := q.(messages := q.messages[k := newer]);
            Valid(q') && Fold(apply, s, Queued(q')) == apply(Fold(apply, s, Queued(q)), m)
  {
    var q' := q.(messages := q.messages[k := newer]);
    assert k in q.order;
    var i :| 0 <= i < |q.order| && q.order[i] == k;
    assert Queued(q') == Queued(q)[i := newer];
    forall j | i < j < |q.order| ensures OtherKey(rules, m, Queued(q)[j]) {
      assert q.order[j] in q.order;
    }
    MergedInPlace(rules, apply, s, Queued(q), i, m, newer);
  }

  /** Merging into position `i` is as good as appending, if what follows has other keys. */
  lemma MergedInPlace<S(!new), M(!new)>(
      rules: Conflation<M>, apply: (S, M) -> S, s: S, ms: seq<M>, i: nat, m: M, newer: M)
    requires Lawful(rules, apply) && i < |ms|
    requires forall j | i < j < |ms| :: OtherKey(rules, m, ms[j])
    requires forall t: S :: apply(t, newer) == apply(apply(t, ms[i]), m)
    ensures Fold(apply, s, ms[i := newer]) == apply(Fold(apply, s, ms), m)
  {
    var a, b := ms[..i], ms[i + 1..];
    var t := Fold(apply, s, a);
    assert ms == a + ([ms[i]] + b) && ms[i := newer] == a + ([newer] + b);
    FoldAppend(apply, s, a, [ms[i]] + b);
    FoldAppend(apply, s, a, [newer] + b);
    FoldCons(apply, t, ms[i], b);
    FoldCons(apply, t, newer, b);
    MoveBack(rules, apply, apply(t, ms[i]), m, b);
  }

  lemma FoldCons<S, M>(apply: (S, M) -> S, s: S, m: M, ms: seq<M>)
    ensures Fold(apply, s, [m] + ms) == Fold(apply, apply(s, m), ms)
  {
    FoldAppend(apply, s, [m], ms);
    assert DropLast([m]) == [];
  }

  /** The identifiers drawn for messages without a key occur nowhere else in the run. */
  ghost predicate FreshIds<M>(rules: Conflation<M>, es: seq<Event<M>>) {
    forall i: nat, j: nat :: OwnKey(rules, es, i, j)
  }

  /** If event `i` pushes a message without a key, event `j` uses another key. */
  predicate OwnKey<M>(rules: Conflation<M>, es: seq<Event<M>>, i: nat, j: nat) {
    i < |es| && j < |es| && i != j && es[i].Pushed? && es[j].Pushed? && rules.keyOf(es[i].message).None? ==>
      KeyFor(rules, es[i].message, es[i].drawn) != KeyFor(rules, es[j].message, es[j].drawn)
  }

  lemma FreshPrefix<M>(rules: Conflation<M>, es: seq<Event<M>>)
    requires FreshIds(rules, es) && es != []
    ensures FreshIds(rules, DropLast(es))
  {
    forall i: nat, j: nat ensures OwnKey(rules, DropLast(es), i, j) {
      assert OwnKey(rules, es, i, j);
    }
  }

  /** Event `i` of the run queued a message under `k`; `keyless` tells whether it had a key. */
  predicate Origin<M>(rules: Conflation<M>, es: seq<Event<M>>, k: ConflationKey, keyless: bool, i: nat) {
    i < |es| && es[i].Pushed? && KeyFor(rules, es[i].message, es[i].drawn) == k &&
    (keyless ==> rules.keyOf(es[i].message).None?)
  }

  ghost predicate Traced<M>(rules: Conflation<M>, q: Queue<M>, es: seq<Event<M>>) {
    Labelled(rules, q) &&
    forall k | k in q.messages :: exists i: nat :: Origin(rules, es, k, rules.keyOf(q.messages[k]).None?, i)
  }

  /**
   Conflation refines FIFO: at every point of every run, applying what was
   popped and then what still waits equals applying every message in push order.
   */
  lemma {:induction false} RefinesFifo<S(!new), M(!new)>(
      rules: Conflation<M>, apply: (S, M) -> S, s: S, es: seq<Event<M>>)
    requires Lawful(rules, apply) && FreshIds(rules, es)
    ensures var r := Play(rules, es);
            Traced(rules, r.queue, es) &&
            Fold(apply, s, r.popped + Queued(r.queue)) == Fold(apply, s, r.pushed)
  {
    if es != [] {
      var front, e := DropLast(es), Last(es);
      FreshPrefix(rules, es);
      RefinesFifo(rules, apply, s, front);
      var r := Play(rules, front);
      if e.Pushed? {
        AdmissibleNext(rules, r.queue, es);
        RefinesPush(rules, apply, s, r, e);
      } else {
        RefinesPop(rules, r);
        PopLabelled(rules, r.queue);
      }
      TracedStep(rules, r.queue, es);
    }
  }

  lemma PopLabelled<M>(rules: Conflation<M>, q: Queue<M>)
    requires Labelled(rules, q)
    ensures Labelled(rules, PopFrom(q).1)
  {
    PopTakesHead(q);
  }

  lemma RefinesPop<M>(rules: Conflation<M>, r: Run<M>)
    requires Valid(r.queue)
    ensures var r' := Step(rules, r, Popped);
            r'.queue == PopFrom(r.queue).1 && Valid(r'.queue) && r'.pushed == r.pushed &&
            r'.popped + Queued(r'.queue) == r.popped + Queued(r.queue)
  {
    PopTakesHead(r.queue);
    if r.queue.order != [] {
      HeadAndTail(r.queue);
      MoveHead(r.popped, PopFrom(r.queue).0.value, Queued(PopFrom(r.queue).1));
    }
  }

  lemma MoveHead<M>(a: seq<M>, m: M, b: seq<M>)
    ensures (a + [m]) + b == a + ([m] + b)
  {
  }

  lemma HeadAndTail<M>(q: Queue<M>)
    requires Valid(q) && q.order != []
    ensures PopFrom(q).0.Some? && Valid(PopFrom(q).1) && |PopFrom(q).1.order| < |q.order|
    ensures Queued(q) == [PopFrom(q).0.value] + Queued(PopFrom(q).1)
  {
    PopTakesHead(q);
  }

  lemma RefinesPush<S(!new), M(!new)>(rules: Conflation<M>, apply: (S, M) -> S, s: S, r: Run<M>, e: Event<M>)
    requires Lawful(rules, apply) && Labelled(rules, r.queue)
    requires e.Pushed? && Admissible(rules, r.queue, e.message, e.drawn)
    requires Fold(apply, s, r.popped + Queued(r.queue)) == Fold(apply, s, r.pushed)
    ensures var r' := Step(rules, r, e);
            Labelled(rules, r'.queue) &&
            rules.keyOf(r'.queue.messages[KeyFor(rules, e.message, e.drawn)]) == rules.keyOf(e.message) &&
            Fold(apply, s, r'.popped + Queued(r'.queue)) == Fold(apply, s, r'.pushed)
  {
    var r' := Step(rules, r, e);
    var t := Fold(apply, s, r.popped);
    PushAppends(rules, apply, t, r.queue, e.message, e.drawn);
    FoldAppend(apply, s, r.popped, Queued(r.queue));
    FoldAppend(apply, s, r.popped, Queued(r'.queue));
    assert DropLast(r.pushed + [e.message]) == r.pushed;
  }

  lemma AdmissibleNext<M(!new)>(rules: Conflation<M>, q: Queue<M>, es: seq<Event<M>>)
    requires FreshIds(rules, es) && es != [] && Last(es).Pushed?
    requires Traced(rules, q, DropLast(es))
    ensures Admissible(rules, q, Last(es).message, Last(es).drawn)
  {
    var key, n := KeyFor(rules, Last(es).message, Last(es).drawn), |es| - 1;
    if key in q.messages {
      var i: nat :| Origin(rules, DropLast(es), key, rules.keyOf(q.messages[key]).None?, i);
      assert es[i] == DropLast(es)[i];
      assert OwnKey(rules, es, i, n) && OwnKey(rules, es, n, i);
    }
  }

  lemma TracedStep<M>(rules: Conflation<M>, q: Queue<M>, es: seq<Event<M>>)
    requires es != [] && Traced(rules, q, DropLast(es))
    requires var r' := Step(rules, Run(q, [], []), Last(es));
             var e := Last(es);
             Labelled(rules, r'.queue) &&
             (e.Pushed? ==> rules.keyOf(r'.queue.messages[KeyFor(rules, e.message, e.drawn)]) == rules.keyOf(e.message))
    ensures Traced(rules, Step(rules, Run(q, [], []), Last(es)).queue, es)
  {
    var e, q' := Last(es), Step(rules, Run(q, [], []), Last(es)).queue;
    StepKeys(rules, Run(q, [], []), e);
    forall k | k in q'.messages
      ensures exists i: nat :: Origin(rules, es, k, rules.keyOf(q'.messages[k]).None?, i)
    {
      if e.Pushed? && k == KeyFor(rules, e.message, e.drawn) {
        assert Origin(rules, es, k, rules.keyOf(q'.messages[k]).None?, |es| - 1);
      } else {
        OriginLater(rules, es, k, rules.keyOf(q.messages[k]).None?);
      }
    }
  }

  lemma OriginLater<M>(rules: Conflation<M>, es: seq<Event<M>>, k: ConflationKey, keyless: bool)
    requires es != [] && exists i: nat :: Origin(rules, DropLast(es), k, keyless, i)
    ensures exists i: nat :: Origin(rules, es, k, keyless, i)
  {
    var i: nat :| Origin(rules, DropLast(es), k, keyless, i);
    assert Origin(rules, es, k, keyless, i);
  }

  // Putting a popped message back

  /** The waiting messages other than the one at position `i`. */
  ghost function Others<M>(q: Queue<M>, i: nat): seq<M>
    requires Valid(q) && i < |q.order|
  {
    Queued(q)[..i] + Queued(q)[i + 1..]
  }

  /** Messages of other keys that follow one may as well go before it. */
  lemma FoldLast<S(!new), M(!new)>(rules: Conflation<M>, apply: (S, M) -> S, s: S, a: seq<M>, n: M, b: seq<M>)
    requires Lawful(rules, apply) && forall o | o in b :: OtherKey(rules, n, o)
    ensures Fold(apply, s, a + ([n] + b)) == apply(Fold(apply, s, a + b), n)
  {
    var t := Fold(apply, s, a);
    FoldAppend(apply, s, a, [n] + b);
    FoldCons(apply, t, n, b);
    MoveBack(rules, apply, t, n, b);
    FoldAppend(apply, s, a, b);
  }

  lemma OthersKeys<M>(rules: Conflation<M>, q: Queue<M>, m: M, i: nat)
    requires Labelled(rules, q) && i < |q.order| && rules.keyOf(m) == Some(q.order[i])
    ensures forall o | o in Others(q, i) :: OtherKey(rules, m, o)
  {
    forall n | 0 <= n < |q.order| && n != i ensures OtherKey(rules, m, Queued(q)[n]) {
      assert q.order[n] in q.order;
    }
    forall o | o in Others(q, i) ensures OtherKey(rules, m, o) {
      var n := OtherAt(q, i, o);
    }
  }

  lemma OtherAt<M>(q: Queue<M>, i: nat, o: M) returns (n: nat)
    requires Valid(q) && i < |q.order| && o in Others(q, i)
    ensures n < |q.order| && n != i && Queued(q)[n] == o
  {
    var j :| 0 <= j < |Others(q, i)| && Others(q, i)[j] == o;
    n := if j < i then j else j + 1;
  }

  /** The message at position `i` may as well be applied last. */
  lemma ApplyLast<S(!new), M(!new)>(
      rules: Conflation<M>, apply: (S, M) -> S, s: S, q: Queue<M>, i: nat)
    requires Lawful(rules, apply) && Labelled(rules, q)
    requires i < |q.order| && rules.keyOf(Queued(q)[i]) == Some(q.order[i])
    ensures Fold(apply, s, Queued(q)) == apply(Fold(apply, s, Others(q, i)), Queued(q)[i])
  {
    var ms := Queued(q);
    OthersKeys(rules, q, ms[i], i);
    forall o | o in ms[i + 1..] ensures o in Others(q, i) {
    }
    assert ms == ms[..i] + ([ms[i]] + ms[i + 1..]);
    FoldLast(rules, apply, s, ms[..i], ms[i], ms[i + 1..]);
  }

  /** A message whose key is used nowhere else may as well be applied after the others. */
  lemma ApplyAfterOthers<S(!new), M(!new)>(
      rules: Conflation<M>, apply: (S, M) -> S, s: S, q: Queue<M>, m: M, i: nat)
    requires Lawful(rules, apply) && Labelled(rules, q)
    requires i < |q.order| && rules.keyOf(m) == Some(q.order[i])
    ensures Fold(apply, apply(s, m), Others(q, i)) == apply(Fold(apply, s, Others(q, i)), m)
  {
    OthersKeys(rules, q, m, i);
    MoveBack(rules, apply, s, m, Others(q, i));
  }

  /** Putting a popped message back is harmless while nothing newer of its key waits. */
  lemma {:induction false} PutBackUnqueued<S(!new), M(!new)>(
      rules: Conflation<M>, apply: (S, M) -> S, s: S, q: Queue<M>, m: M, drawn: Uuid)
    requires Lawful(rules, apply) && Labelled(rules, q)
    requires rules.keyOf(m).Some? && rules.keyOf(m).value !in q.messages
    ensures Labelled(rules, PushTo(rules, q, m, drawn))
    ensures Fold(apply, s, Queued(PushTo(rules, q, m, drawn))) == Fold(apply, apply(s, m), Queued(q))
  {
    PushAppends(rules, apply, s, q, m, drawn);
    forall o | o in Queued(q) ensures OtherKey(rules, m, o) {
      var i :| 0 <= i < |q.order| && Queued(q)[i] == o;
      assert q.order[i] in q.order;
    }
    MoveBack(rules, apply, s, m, Queued(q));
  }

  /**
   If a newer message waits at position `i`, putting the popped one back makes
   the two change places, on the state that the other waiting messages lead to.
   */
  lemma PutBackSwaps<S(!new), M(!new)>(
      rules: Conflation<M>, apply: (S, M) -> S, s: S, q: Queue<M>, m: M, drawn: Uuid, i: nat)
    requires Lawful(rules, apply) && Labelled(rules, q)
    requires i < |q.order| && rules.keyOf(m) == Some(q.order[i])
    requires rules.keyOf(q.messages[q.order[i]]) == Some(q.order[i])
    ensures var n, t := Queued(q)[i], Fold(apply, s, Others(q, i));
            Fold(apply, s, Queued(PushTo(rules, q, m, drawn))) == apply(apply(t, n), m) &&
            Fold(apply, apply(s, m), Queued(q)) == apply(apply(t, m), n)
  {
    assert q.order[i] in q.order;
    PushAppends(rules, apply, s, q, m, drawn);
    ApplyLast(rules, apply, s, q, i);
    ApplyLast(rules, apply, apply(s, m), q, i);
    ApplyAfterOthers(rules, apply, s, q, m, i);
  }

  /** Hence it has the effect of having applied it in time exactly if the two commute there. */
  lemma PutBackExactly<S(!new), M(!new)>(
      rules: Conflation<M>, apply: (S, M) -> S, s: S, q: Queue<M>, m: M, drawn: Uuid, i: nat)
    requires Lawful(rules, apply) && Labelled(rules, q)
    requires i < |q.order| && rules.keyOf(m) == Some(q.order[i])
    requires rules.keyOf(q.messages[q.order[i]]) == Some(q.order[i])
    ensures var n, t := Queued(q)[i], Fold(apply, s, Others(q, i));
            Fold(apply, s, Queued(PushTo(rules, q, m, drawn))) == Fold(apply, apply(s, m), Queued(q)) <==>
            apply(apply(t, n), m) == apply(apply(t, m), n)
  {
    PutBackSwaps(rules, apply, s, q, m, drawn, i);
  }
}
