/**
 When a queue shared by many subscriptions is as good as one queue for each:
 exactly, in terms of the keys that are pushed.
 */
module Transparency {
  import opened Prelude
  import opened Uuids
  import opened Queues
  import opened Envelopes

  // Unique keys: the envelope draws a new one, the separate queue keeps the event's own

  /** The same events, with unique keys left to be drawn. */
  function WithoutUnique<V>(inner: Conflation<V>): Conflation<V> {
    Conflation(
      (e: V) => if inner.keyOf(e).Some? && inner.keyOf(e).value.Unique? then None else inner.keyOf(e),
      inner.mergeWith)
  }

  lemma SharedPush<V>(inner: Conflation<V>, q: Queue<EventEnvelope<V>>, m: EventEnvelope<V>, drawn: Uuid)
    ensures PushTo(Enveloped(WithoutUnique(inner)), q, m, drawn) == PushTo(Enveloped(inner), q, m, drawn)
  {
  }

  /** The envelope makes no difference between a unique key and none. */
  lemma {:induction false} SharedSame<V>(inner: Conflation<V>, sub: Option<Uuid>, es: seq<Event<EventEnvelope<V>>>)
    ensures Play(Enveloped(WithoutUnique(inner)), es) == Play(Enveloped(inner), es)
    ensures Restrict(WithoutUnique(inner), sub, es) == Restrict(inner, sub, es)
  {
    if es != [] {
      SharedSame(inner, sub, DropLast(es));
      var r, e := Play(Enveloped(inner), DropLast(es)), Last(es);
      if e.Pushed? {
        SharedPush(inner, r.queue, e.message, e.drawn);
      }
      assert Step(Enveloped(WithoutUnique(inner)), r, e) == Step(Enveloped(inner), r, e);
    }
  }

  /** Pushing `b` does not use the identifier drawn for `a`, in either queue. */
  predicate DrawnApart<V>(inner: Conflation<V>, a: Event<EventEnvelope<V>>, b: Event<EventEnvelope<V>>) {
    a.Pushed? && b.Pushed? && EnvelopeKey(inner, a.message).None? ==>
      KeyFor(inner, b.message.event, b.drawn) != Unique(a.drawn) &&
      KeyFor(Enveloped(inner), b.message, b.drawn) != Unique(a.drawn)
  }

  /** Drawn identifiers occur nowhere else in the run. */
  ghost predicate FreshDraws<V>(inner: Conflation<V>, es: seq<Event<EventEnvelope<V>>>) {
    forall i, j | 0 <= i < |es| && 0 <= j < |es| && i != j :: DrawnApart(inner, es[i], es[j])
  }

  /** Two pushes for one subscription with different keys of one text, or with one and the same unique key. */
  predicate Clash<V>(inner: Conflation<V>, a: Event<EventEnvelope<V>>, b: Event<EventEnvelope<V>>) {
    a.Pushed? && b.Pushed? && a.message.subscription == b.message.subscription &&
    match (inner.keyOf(a.message.event), inner.keyOf(b.message.event))
    case (Some(k), Some(k')) => if k == k' then k.Unique? else InnerText(k).Some? && InnerText(k) == InnerText(k')
    case _ => false
  }

  ghost predicate Separable<V>(inner: Conflation<V>, es: seq<Event<EventEnvelope<V>>>) {
    forall i, j | 0 <= i < j < |es| :: !Clash(inner, es[i], es[j])
  }

  lemma SeparablePrefix<V>(inner: Conflation<V>, es: seq<Event<EventEnvelope<V>>>, n: nat)
    requires n <= |es| && FreshDraws(inner, es)
    ensures FreshDraws(inner, es[..n])
    ensures Separable(inner, es) ==> Separable(inner, es[..n])
  {
  }

  lemma FreshShared<V>(inner: Conflation<V>, es: seq<Event<EventEnvelope<V>>>)
    requires FreshDraws(inner, es)
    ensures FreshIds(Enveloped(inner), es) && FreshIds(Enveloped(WithoutUnique(inner)), es)
  {
    forall i: nat, j: nat
      ensures OwnKey(Enveloped(inner), es, i, j) && OwnKey(Enveloped(WithoutUnique(inner)), es, i, j)
    {
      assert i < |es| && j < |es| && i != j ==> DrawnApart(inner, es[i], es[j]);
    }
  }

  /** The key that a text stands for in one subscription. */
  function Reader<V>(
      inner: Conflation<V>, sub: Option<Uuid>, es: seq<Event<EventEnvelope<V>>>, text: string): ConflationKey
  {
    if es == [] then Custom(text)
    else if Reads(inner, sub, Last(es), text) then inner.keyOf(Last(es).message.event).value
    else Reader(inner, sub, DropLast(es), text)
  }

  predicate Reads<V>(inner: Conflation<V>, sub: Option<Uuid>, e: Event<EventEnvelope<V>>, text: string) {
    e.Pushed? && e.message.subscription == sub && inner.keyOf(e.message.event).Some? &&
    InnerText(inner.keyOf(e.message.event).value) == Some(text)
  }

  lemma {:induction false} ReaderReads<V>(
      inner: Conflation<V>, sub: Option<Uuid>, es: seq<Event<EventEnvelope<V>>>, i: nat, text: string)
    requires Separable(inner, es) && i < |es| && Reads(inner, sub, es[i], text)
    ensures Reader(inner, sub, es, text) == inner.keyOf(es[i].message.event).value
  {
    if Reads(inner, sub, Last(es), text) {
      assert i < |es| - 1 ==> !Clash(inner, es[i], es[|es| - 1]);
    } else {
      ReaderReads(inner, sub, DropLast(es), i, text);
    }
  }

  /** Apart from unique keys, a separable run can be decoded. */
  lemma SeparableDecodes<V>(inner: Conflation<V>, sub: Option<Uuid>, es: seq<Event<EventEnvelope<V>>>)
    requires Separable(inner, es)
    ensures DecodableRun(WithoutUnique(inner), text => Reader(inner, sub, es, text), sub, es)
  {
    forall i | 0 <= i < |es| && es[i].Pushed? && es[i].message.subscription == sub
      ensures DecodableEvent(WithoutUnique(inner), text => Reader(inner, sub, es, text), es[i].message.event)
    {
      var k := WithoutUnique(inner).keyOf(es[i].message.event);
      if k.Some? {
        ReaderReads(inner, sub, es, i, InnerText(k.value).value);
      }
    }
  }

  /** Event `i` is for `sub` and uses key `k` in the separate queue. */
  predicate OwnOrigin<V>(
      rules: Conflation<V>, sub: Option<Uuid>, es: seq<Event<EventEnvelope<V>>>, k: ConflationKey, i: nat)
  {
    i < |es| && es[i].Pushed? && es[i].message.subscription == sub &&
    KeyFor(rules, es[i].message.event, es[i].drawn) == k
  }

  /** Every key of a separate queue was used by some push for its subscription. */
  ghost predicate OwnTraced<V>(
      rules: Conflation<V>, sub: Option<Uuid>, es: seq<Event<EventEnvelope<V>>>, q: Queue<V>)
  {
    Valid(q) && forall k | k in q.messages :: exists i: nat :: OwnOrigin(rules, sub, es, k, i)
  }

  lemma {:induction false} OwnKeys<V>(
      inner: Conflation<V>, rules: Conflation<V>, sub: Option<Uuid>, es: seq<Event<EventEnvelope<V>>>)
    ensures OwnTraced(rules, sub, es, Play(rules, Restrict(inner, sub, es)).queue)
  {
    PlayValid(rules, Run(Queue([], map[]), [], []), Restrict(inner, sub, es));
    if es != [] {
      var own := Play(rules, Restrict(inner, sub, DropLast(es)));
      OwnKeys(inner, rules, sub, DropLast(es));
      RestrictStep(inner, rules, sub, es);
      var more := RestrictEvent(sub, Play(Enveloped(inner), DropLast(es)).queue, Last(es));
      OwnTracedSame(rules, sub, es, own.queue);
      if more != [] {
        OwnTracedStep(rules, sub, es, own, more[0]);
      }
    }
  }

  lemma OwnTracedSame<V>(rules: Conflation<V>, sub: Option<Uuid>, es: seq<Event<EventEnvelope<V>>>, q: Queue<V>)
    requires es != [] && OwnTraced(rules, sub, DropLast(es), q)
    ensures OwnTraced(rules, sub, es, q)
  {
    forall k | k in q.messages ensures exists i: nat :: OwnOrigin(rules, sub, es, k, i) {
      var i: nat :| OwnOrigin(rules, sub, DropLast(es), k, i);
      assert OwnOrigin(rules, sub, es, k, i);
    }
  }

  lemma OwnTracedStep<V>(
      rules: Conflation<V>, sub: Option<Uuid>, es: seq<Event<EventEnvelope<V>>>, own: Run<V>, e: Event<V>)
    requires es != [] && OwnTraced(rules, sub, es, own.queue) && Valid(Step(rules, own, e).queue)
    requires e.Pushed? ==> Last(es) == Pushed(EventEnvelope(sub, e.message), e.drawn)
    ensures OwnTraced(rules, sub, es, Step(rules, own, e).queue)
  {
    StepKeys(rules, own, e);
    if e.Pushed? {
      assert OwnOrigin(rules, sub, es, KeyFor(rules, e.message, e.drawn), |es| - 1);
    }
  }

  /** The same messages in the same order, under the same keys up to unique ones. */
  ghost predicate Renamed<V>(q: Queue<V>, q': Queue<V>) {
    Valid(q) && Valid(q') && Queued(q) == Queued(q') &&
    |q.order| == |q'.order| && forall i | 0 <= i < |q.order| :: SameName(q.order[i], q'.order[i])
  }

  predicate SameName(k: ConflationKey, k': ConflationKey) {
    k == k' || (k.Unique? && k'.Unique?)
  }

  lemma RenamedKeys<V>(q: Queue<V>, q': Queue<V>, k: ConflationKey)
    requires Renamed(q, q') && !k.Unique?
    ensures k in q.messages <==> k in q'.messages
  {
    if k in q.order {
      var i :| 0 <= i < |q.order| && q.order[i] == k;
      assert SameName(q.order[i], q'.order[i]);
    }
    if k in q'.order {
      var i :| 0 <= i < |q'.order| && q'.order[i] == k;
      assert SameName(q.order[i], q'.order[i]);
    }
  }

  lemma RenamedStore<V>(q: Queue<V>, q': Queue<V>, k: ConflationKey, m: V)
    requires Renamed(q, q') && !k.Unique? && k in q.messages
    ensures k in q'.messages && q'.messages[k] == q.messages[k]
    ensures Renamed(q.(messages := q.messages[k := m]), q'.(messages := q'.messages[k := m]))
  {
    assert k in q.order;
    var i :| 0 <= i < |q.order| && q.order[i] == k;
    assert SameName(q.order[i], q'.order[i]);
    assert Queued(q)[i] == Queued(q')[i];
    StoredAt(q, i, m);
    StoredAt(q', i, m);
  }

  lemma RenamedAppend<V>(q: Queue<V>, q': Queue<V>, k: ConflationKey, k': ConflationKey, m: V)
    requires Renamed(q, q') && SameName(k, k') && k !in q.messages && k' !in q'.messages
    ensures Renamed(Queue(q.order + [k], q.messages[k := m]), Queue(q'.order + [k'], q'.messages[k' := m]))
  {
    StoredLast(q, k, m);
    StoredLast(q', k', m);
  }

  lemma RenamedPush<V>(inner: Conflation<V>, q: Queue<V>, q': Queue<V>, e: V, drawn: Uuid)
    requires Renamed(q, q')
    requires var k := KeyFor(inner, e, drawn);
             k.Unique? ==> k !in q.messages && KeyFor(WithoutUnique(inner), e, drawn) !in q'.messages
    ensures Renamed(PushTo(inner, q, e, drawn), PushTo(WithoutUnique(inner), q', e, drawn))
  {
    var k, k' := KeyFor(inner, e, drawn), KeyFor(WithoutUnique(inner), e, drawn);
    if k in q.messages {
      assert k' == k;
      RenamedStore(q, q', k, PushTo(inner, q, e, drawn).messages[k]);
    } else {
      if !k.Unique? {
        RenamedKeys(q, q', k);
      }
      RenamedAppend(q, q', k, k', e);
    }
  }

  lemma StoredAt<M>(q: Queue<M>, i: nat, m: M)
    requires Valid(q) && i < |q.order|
    ensures var q' := q.(messages := q.messages[q.order[i] := m]);
            Valid(q') && Queued(q') == Queued(q)[i := m]
  {
    assert q.order[i] in q.order;
  }

  lemma StoredLast<M>(q: Queue<M>, k: ConflationKey, m: M)
    requires Valid(q) && k !in q.messages
    ensures var q' := Queue(q.order + [k], q.messages[k := m]);
            Valid(q') && Queued(q') == Queued(q) + [m]
  {
    assert k !in q.order;
  }

  /** The two queues of one subscription, with its unique keys and without. */
  ghost predicate RenamedRuns<V>(inner: Conflation<V>, sub: Option<Uuid>, es: seq<Event<EventEnvelope<V>>>) {
    var own := Play(inner, Restrict(inner, sub, es));
    var plain := Play(WithoutUnique(inner), Restrict(inner, sub, es));
    Renamed(own.queue, plain.queue) && own.popped == plain.popped
  }

  lemma {:induction false} RenamedRun<V>(inner: Conflation<V>, sub: Option<Uuid>, es: seq<Event<EventEnvelope<V>>>)
    requires FreshDraws(inner, es) && Separable(inner, es)
    ensures RenamedRuns(inner, sub, es)
  {
    if es != [] {
      SeparablePrefix(inner, es, |es| - 1);
      RenamedRun(inner, sub, DropLast(es));
      RestrictStep(inner, inner, sub, es);
      RestrictStep(inner, WithoutUnique(inner), sub, es);
      var own := Play(inner, Restrict(inner, sub, DropLast(es)));
      var plain := Play(WithoutUnique(inner), Restrict(inner, sub, DropLast(es)));
      var more := RestrictEvent(sub, Play(Enveloped(inner), DropLast(es)).queue, Last(es));
      if more != [] {
        if Last(es).Pushed? && KeyFor(inner, Last(es).message.event, Last(es).drawn).Unique? {
          UniqueIsNew(inner, sub, es);
        }
        RenamedStep(inner, own, plain, more[0]);
      }
    }
  }

  lemma RenamedStep<V>(inner: Conflation<V>, own: Run<V>, plain: Run<V>, e: Event<V>)
    requires Renamed(own.queue, plain.queue) && own.popped == plain.popped
    requires e.Pushed? && KeyFor(inner, e.message, e.drawn).Unique? ==>
               KeyFor(inner, e.message, e.drawn) !in own.queue.messages &&
               KeyFor(WithoutUnique(inner), e.message, e.drawn) !in plain.queue.messages
    ensures var own', plain' := Step(inner, own, e), Step(WithoutUnique(inner), plain, e);
            Renamed(own'.queue, plain'.queue) && own'.popped == plain'.popped
  {
    if e.Pushed? {
      RenamedPush(inner, own.queue, plain.queue, e.message, e.drawn);
    } else {
      RenamedPop(own.queue, plain.queue);
    }
  }

  lemma RenamedPop<V>(q: Queue<V>, q': Queue<V>)
    requires Renamed(q, q')
    ensures PopFrom(q).0 == PopFrom(q').0 && Renamed(PopFrom(q).1, PopFrom(q').1)
  {
    PopTakesHead(q);
    PopTakesHead(q');
    var r, r' := PopFrom(q).1, PopFrom(q').1;
    forall i | 0 <= i < |r.order| ensures SameName(r.order[i], r'.order[i]) {
      assert SameName(q.order[i + 1], q'.order[i + 1]);
    }
  }

  /** A unique or drawn key is not yet in use, in the queue with unique keys and the one without. */
  lemma UniqueIsNew<V>(inner: Conflation<V>, sub: Option<Uuid>, es: seq<Event<EventEnvelope<V>>>)
    requires FreshDraws(inner, es) && Separable(inner, es)
    requires es != [] && Last(es).Pushed? && Last(es).message.subscription == sub
    requires KeyFor(inner, Last(es).message.event, Last(es).drawn).Unique?
    ensures var e, plain := Last(es), WithoutUnique(inner);
            KeyFor(inner, e.message.event, e.drawn) !in
              Play(inner, Restrict(inner, sub, DropLast(es))).queue.messages &&
            KeyFor(plain, e.message.event, e.drawn) !in
              Play(plain, Restrict(inner, sub, DropLast(es))).queue.messages
  {
    var e, plain, n := Last(es), WithoutUnique(inner), |es| - 1;
    OwnKeys(inner, inner, sub, DropLast(es));
    OwnKeys(inner, plain, sub, DropLast(es));
    forall i: nat | i < n && es[i].Pushed? && es[i].message.subscription == sub
      ensures !OwnOrigin(inner, sub, DropLast(es), KeyFor(inner, e.message.event, e.drawn), i)
      ensures !OwnOrigin(plain, sub, DropLast(es), KeyFor(plain, e.message.event, e.drawn), i)
    {
      assert !Clash(inner, es[i], es[n]);
      assert DrawnApart(inner, es[i], es[n]) && DrawnApart(inner, es[n], es[i]);
    }
  }

  // Transparency, exactly

  /** Seen from `sub`, the shared queue is a separate queue fed only its events. */
  ghost predicate TransparentRun<V>(inner: Conflation<V>, sub: Option<Uuid>, es: seq<Event<EventEnvelope<V>>>) {
    var shared := Play(Enveloped(inner), es);
    var own := Play(inner, Restrict(inner, sub, es));
    Valid(shared.queue) && Valid(own.queue) &&
    EventsOf(sub, shared.popped) == own.popped &&
    EventsOf(sub, Queued(shared.queue)) == Queued(own.queue)
  }

  /** Every run without clashing keys is transparent for every subscription. */
  lemma Transparent<V>(inner: Conflation<V>, sub: Option<Uuid>, es: seq<Event<EventEnvelope<V>>>)
    requires FreshDraws(inner, es) && Separable(inner, es)
    ensures TransparentRun(inner, sub, es)
  {
    var plain, decode := WithoutUnique(inner), text => Reader(inner, sub, es, text);
    FreshShared(inner, es);
    SeparableDecodes(inner, sub, es);
    SharedSame(inner, sub, es);
    SimulatedRun(plain, decode, sub, es);
    SimulatedQueue(decode, sub, Play(Enveloped(plain), es).queue, Play(plain, Restrict(plain, sub, es)).queue);
    RenamedRun(inner, sub, es);
  }

  function Pushes<M>(es: seq<Event<M>>): seq<Event<M>> {
    if es == [] then [] else Pushes(DropLast(es)) + if Last(es).Pushed? then [Last(es)] else []
  }

  lemma {:induction false} PushAmong<M>(es: seq<Event<M>>, i: nat) returns (i': nat)
    requires i < |es| && es[i].Pushed?
    ensures i' < |Pushes(es)| && Pushes(es)[i'] == es[i]
  {
    if i == |es| - 1 {
      i' := |Pushes(es)| - 1;
    } else {
      i' := PushAmong(DropLast(es), i);
    }
  }

  lemma {:induction false} PairAmong<M>(es: seq<Event<M>>, i: nat, j: nat) returns (i': nat, j': nat)
    requires i < j < |es| && es[i].Pushed? && es[j].Pushed?
    ensures i' < j' < |Pushes(es)| && Pushes(es)[i'] == es[i] && Pushes(es)[j'] == es[j]
  {
    if j == |es| - 1 {
      i' := PushAmong(DropLast(es), i);
      j' := |Pushes(es)| - 1;
    } else {
      i', j' := PairAmong(DropLast(es), i, j);
    }
  }

  predicate OnlyPushes<M>(es: seq<Event<M>>) {
    forall i | 0 <= i < |es| :: es[i].Pushed?
  }

  lemma OnlyPushesPrefix<M>(es: seq<Event<M>>, n: nat)
    requires OnlyPushes(es) && n <= |es|
    ensures OnlyPushes(es[..n]) && (n < |es| ==> es[n].Pushed?)
  {
  }

  lemma {:induction false} AllPushes<M>(ps: seq<Event<M>>)
    requires OnlyPushes(ps)
    ensures Pushes(ps) == ps
  {
    if ps != [] {
      OnlyPushesPrefix(ps, |ps| - 1);
      AllPushes(DropLast(ps));
      assert ps == DropLast(ps) + [Last(ps)];
    }
  }

  /** Pops do not matter to either condition. */
  lemma PushesDecide<V>(inner: Conflation<V>, ps: seq<Event<EventEnvelope<V>>>, es: seq<Event<EventEnvelope<V>>>)
    requires FreshDraws(inner, ps) && Separable(inner, ps) && Pushes(es) <= ps
    ensures FreshDraws(inner, es) && Separable(inner, es)
  {
    forall i, j | 0 <= i < j < |es| && es[i].Pushed? && es[j].Pushed?
      ensures !Clash(inner, es[i], es[j])
      ensures DrawnApart(inner, es[i], es[j]) && DrawnApart(inner, es[j], es[i])
    {
      var i', j' := PairAmong(es, i, j);
      assert ps[i'] == es[i] && ps[j'] == es[j];
    }
  }

  lemma SeparableSnoc<V>(inner: Conflation<V>, ps: seq<Event<EventEnvelope<V>>>)
    requires ps != [] && Separable(inner, DropLast(ps))
    requires forall i | 0 <= i < |ps| - 1 :: !Clash(inner, ps[i], Last(ps))
    ensures Separable(inner, ps)
  {
    forall i, j | 0 <= i < j < |ps| ensures !Clash(inner, ps[i], ps[j]) {
      if j < |ps| - 1 {
        assert ps[i] == DropLast(ps)[i] && ps[j] == DropLast(ps)[j];
      }
    }
  }

  lemma {:induction false} FirstClash<V>(inner: Conflation<V>, ps: seq<Event<EventEnvelope<V>>>)
    returns (i: nat, j: nat)
    requires !Separable(inner, ps)
    ensures i < j < |ps| && Clash(inner, ps[i], ps[j]) && Separable(inner, ps[..j])
  {
    if !Separable(inner, DropLast(ps)) {
      i, j := FirstClash(inner, DropLast(ps));
      assert DropLast(ps)[..j] == ps[..j];
    } else {
      if forall x | 0 <= x < |ps| - 1 :: !Clash(inner, ps[x], Last(ps)) {
        SeparableSnoc(inner, ps);
      }
      i :| 0 <= i < |ps| - 1 && Clash(inner, ps[i], Last(ps));
      j := |ps| - 1;
    }
  }

  // Where keys clash, one of the two queues merges what the other keeps apart

  lemma PushKeeps<M>(rules: Conflation<M>, r: Run<M>, e: Event<M>)
    requires e.Pushed?
    ensures var q' := Step(rules, r, e).queue;
            KeyFor(rules, e.message, e.drawn) in q'.messages && forall k | k in r.queue.messages :: k in q'.messages
  {
  }

  /** As long as nothing is popped, every key pushed stays in the queue. */
  lemma {:induction false} KeyStays<M>(rules: Conflation<M>, es: seq<Event<M>>, i: nat)
    requires OnlyPushes(es)
    requires i < |es|
    ensures KeyFor(rules, es[i].message, es[i].drawn) in Play(rules, es).queue.messages
  {
    PushKeeps(rules, Play(rules, DropLast(es)), Last(es));
    if i < |es| - 1 {
      KeyStays(rules, DropLast(es), i);
    }
  }

  lemma {:induction false} OwnKeyStays<V>(
      inner: Conflation<V>, sub: Option<Uuid>, es: seq<Event<EventEnvelope<V>>>, i: nat)
    requires OnlyPushes(es)
    requires i < |es| && es[i].message.subscription == sub
    ensures KeyFor(inner, es[i].message.event, es[i].drawn) in Play(inner, Restrict(inner, sub, es)).queue.messages
  {
    RestrictStep(inner, inner, sub, es);
    var own, e := Play(inner, Restrict(inner, sub, DropLast(es))), Last(es);
    if e.message.subscription == sub {
      PushKeeps(inner, own, Pushed(e.message.event, e.drawn));
    }
    if i < |es| - 1 {
      OwnKeyStays(inner, sub, DropLast(es), i);
    }
  }

  lemma {:induction false} PlayNames<V>(inner: Conflation<V>, es: seq<Event<EventEnvelope<V>>>)
    requires OnlyPushes(es)
    ensures NamesSubscription(Play(Enveloped(inner), es).queue)
  {
    if es != [] {
      PlayNames(inner, DropLast(es));
      PushNames(inner, Play(Enveloped(inner), DropLast(es)).queue, Last(es).message, Last(es).drawn);
    }
  }

  /** How many events are one subscription's depends on the subscriptions only. */
  lemma {:induction false} CountOf<V>(sub: Option<Uuid>, ms: seq<EventEnvelope<V>>, ms': seq<EventEnvelope<V>>)
    requires |ms| == |ms'| && forall i | 0 <= i < |ms| :: ms[i].subscription == ms'[i].subscription
    ensures |EventsOf(sub, ms)| == |EventsOf(sub, ms')|
  {
    if ms != [] {
      CountOf(sub, DropLast(ms), DropLast(ms'));
    }
  }

  lemma SameSubscriptions<V>(q: Queue<EventEnvelope<V>>, key: ConflationKey, m: EventEnvelope<V>)
    requires Valid(q) && key in q.messages && q.messages[key].subscription == m.subscription
    ensures var q' := q.(messages := q.messages[key := m]);
            Valid(q') && |Queued(q')| == |Queued(q)| &&
            forall i | 0 <= i < |Queued(q)| :: Queued(q)[i].subscription == Queued(q')[i].subscription
  {
  }

  /** Pushing one more message for `sub` adds to what waits for it exactly if its shared key is new. */
  lemma SharedGrows<V>(
      inner: Conflation<V>, sub: Option<Uuid>, q: Queue<EventEnvelope<V>>, m: EventEnvelope<V>, drawn: Uuid)
    requires Valid(q) && NamesSubscription(q) && m.subscription == sub
    requires EnvelopeKey(inner, m).None? ==> Unique(drawn) !in q.messages
    ensures var q' := PushTo(Enveloped(inner), q, m, drawn);
            Valid(q') &&
            |EventsOf(sub, Queued(q'))| ==
            |EventsOf(sub, Queued(q))| + if KeyFor(Enveloped(inner), m, drawn) in q.messages then 0 else 1
  {
    var key, q' := KeyFor(Enveloped(inner), m, drawn), PushTo(Enveloped(inner), q, m, drawn);
    PushValid(Enveloped(inner), q, m, drawn);
    if key in q.messages {
      SubscriptionOfKey(q, sub, InnerText(inner.keyOf(m.event).value).value);
      SameSubscriptions(q, key, q'.messages[key]);
      CountOf(sub, Queued(q), Queued(q'));
    } else {
      StoredLast(q, key, m);
      assert DropLast(Queued(q) + [m]) == Queued(q);
    }
  }

  lemma OwnGrows<V>(inner: Conflation<V>, own: Queue<V>, m: V, drawn: Uuid)
    requires Valid(own)
    ensures var own' := PushTo(inner, own, m, drawn);
            Valid(own') &&
            |Queued(own')| == |Queued(own)| + if KeyFor(inner, m, drawn) in own.messages then 0 else 1
  {
    PushValid(inner, own, m, drawn);
  }

  /** Without clashes, only one key of a text is used. */
  lemma OtherKeyUnused<V>(
      inner: Conflation<V>, sub: Option<Uuid>, es: seq<Event<EventEnvelope<V>>>, i: nat, k: ConflationKey)
    requires Separable(inner, es) && i < |es| && es[i].Pushed? && es[i].message.subscription == sub
    requires inner.keyOf(es[i].message.event).Some? && inner.keyOf(es[i].message.event).value != k
    requires InnerText(k).Some? && InnerText(inner.keyOf(es[i].message.event).value) == InnerText(k)
    ensures k !in Play(inner, Restrict(inner, sub, es)).queue.messages
  {
    OwnKeys(inner, inner, sub, es);
    forall j: nat ensures !OwnOrigin(inner, sub, es, k, j) {
      if j < |es| && j != i {
        NoClash(inner, es, i, j);
      }
    }
  }

  lemma NoClash<V>(inner: Conflation<V>, es: seq<Event<EventEnvelope<V>>>, i: nat, j: nat)
    requires Separable(inner, es) && i < |es| && j < |es| && i != j
    ensures !Clash(inner, es[i], es[j])
  {
    if j < i {
      assert !Clash(inner, es[j], es[i]);
    }
  }

  /** The second of two pushes that clash in a text finds its key in the shared queue only. */
  lemma SameTextParts<V>(inner: Conflation<V>, sub: Option<Uuid>, es: seq<Event<EventEnvelope<V>>>, i: nat)
    requires OnlyPushes(es)
    requires es != [] && Separable(inner, DropLast(es))
    requires i < |es| - 1 && Clash(inner, es[i], Last(es)) && Last(es).message.subscription == sub
    requires !inner.keyOf(Last(es).message.event).value.Unique?
    ensures var front, e := DropLast(es), Last(es);
            KeyFor(Enveloped(inner), e.message, e.drawn) in Play(Enveloped(inner), front).queue.messages &&
            KeyFor(inner, e.message.event, e.drawn) !in Play(inner, Restrict(inner, sub, front)).queue.messages
  {
    KeyStays(Enveloped(inner), DropLast(es), i);
    OtherKeyUnused(inner, sub, DropLast(es), i, inner.keyOf(Last(es).message.event).value);
  }

  /** The second of two pushes with one unique key finds it in the separate queue only. */
  lemma SameUniqueParts<V>(inner: Conflation<V>, sub: Option<Uuid>, es: seq<Event<EventEnvelope<V>>>, i: nat)
    requires OnlyPushes(es)
    requires es != [] && FreshDraws(inner, es)
    requires i < |es| - 1 && Clash(inner, es[i], Last(es)) && Last(es).message.subscription == sub
    requires inner.keyOf(Last(es).message.event).value.Unique?
    ensures var front, e := DropLast(es), Last(es);
            KeyFor(Enveloped(inner), e.message, e.drawn) !in Play(Enveloped(inner), front).queue.messages &&
            KeyFor(inner, e.message.event, e.drawn) in Play(inner, Restrict(inner, sub, front)).queue.messages
  {
    OwnKeyStays(inner, sub, DropLast(es), i);
    FreshShared(inner, es);
    DrawnIsNew(Enveloped(inner), es);
  }

  lemma ClashParts<V>(inner: Conflation<V>, sub: Option<Uuid>, es: seq<Event<EventEnvelope<V>>>, i: nat)
    requires OnlyPushes(es)
    requires es != [] && FreshDraws(inner, es) && Separable(inner, DropLast(es))
    requires i < |es| - 1 && Clash(inner, es[i], Last(es)) && Last(es).message.subscription == sub
    ensures var q := Play(Enveloped(inner), DropLast(es)).queue;
            var own := Play(inner, Restrict(inner, sub, DropLast(es))).queue;
            ClashingPush(inner, q, own, Last(es))
  {
    if inner.keyOf(Last(es).message.event).value.Unique? {
      SameUniqueParts(inner, sub, es, i);
    } else {
      SameTextParts(inner, sub, es, i);
    }
  }

  /** The push finds its key in exactly one of the two queues. */
  ghost predicate ClashingPush<V>(
      inner: Conflation<V>, q: Queue<EventEnvelope<V>>, own: Queue<V>, e: Event<EventEnvelope<V>>)
  {
    e.Pushed? &&
    (KeyFor(Enveloped(inner), e.message, e.drawn) in q.messages <==>
     KeyFor(inner, e.message.event, e.drawn) !in own.messages) &&
    (EnvelopeKey(inner, e.message).None? ==> Unique(e.drawn) !in q.messages)
  }

  /** Hence as many events wait before the second push, but not after it. */
  lemma ClashShows<V>(inner: Conflation<V>, sub: Option<Uuid>, es: seq<Event<EventEnvelope<V>>>, i: nat)
    requires OnlyPushes(es)
    requires es != [] && FreshDraws(inner, es) && Separable(inner, DropLast(es))
    requires i < |es| - 1 && Clash(inner, es[i], Last(es)) && Last(es).message.subscription == sub
    ensures !TransparentRun(inner, sub, es)
  {
    var front, e := DropLast(es), Last(es);
    var shared, own := Play(Enveloped(inner), front), Play(inner, Restrict(inner, sub, front));
    ClashParts(inner, sub, es, i);
    SeparablePrefix(inner, es, |es| - 1);
    Transparent(inner, sub, front);
    OnlyPushesPrefix(es, |es| - 1);
    PlayNames(inner, front);
    RestrictStep(inner, inner, sub, es);
    CountsDiffer(inner, sub, shared, own, e);
    assert Play(Enveloped(inner), es) == Step(Enveloped(inner), shared, e);
  }

  lemma CountsDiffer<V>(
      inner: Conflation<V>, sub: Option<Uuid>, shared: Run<EventEnvelope<V>>, own: Run<V>,
      e: Event<EventEnvelope<V>>)
    requires Valid(shared.queue) && Valid(own.queue) && NamesSubscription(shared.queue)
    requires EventsOf(sub, Queued(shared.queue)) == Queued(own.queue)
    requires ClashingPush(inner, shared.queue, own.queue, e) && e.message.subscription == sub
    ensures var shared' := Step(Enveloped(inner), shared, e).queue;
            var own' := Step(inner, own, Pushed(e.message.event, e.drawn)).queue;
            Valid(shared') && Valid(own') && EventsOf(sub, Queued(shared')) != Queued(own')
  {
    SharedGrows(inner, sub, shared.queue, e.message, e.drawn);
    OwnGrows(inner, own.queue, e.message.event, e.drawn);
  }

  lemma UpTo<M>(ps: seq<Event<M>>, j: nat, es: seq<Event<M>>)
    requires OnlyPushes(ps) && j < |ps| && es == ps[..j + 1]
    ensures DropLast(es) == ps[..j] && Last(es) == ps[j] && (forall i | 0 <= i < j :: es[i] == ps[i])
    ensures OnlyPushes(es) && Pushes(es) == es && ps[j].Pushed?
  {
    OnlyPushesPrefix(ps, j + 1);
    AllPushes(es);
    assert es[j].Pushed?;
  }

  /** Pushing up to the first clash, without pops, is not transparent. */
  lemma OpaqueRun<V>(inner: Conflation<V>, ps: seq<Event<EventEnvelope<V>>>)
    returns (sub: Option<Uuid>, es: seq<Event<EventEnvelope<V>>>)
    requires FreshDraws(inner, ps) && !Separable(inner, ps) && OnlyPushes(ps)
    ensures Pushes(es) <= ps && !TransparentRun(inner, sub, es)
  {
    var i, j := FirstClash(inner, ps);
    es := ps[..j + 1];
    UpTo(ps, j, es);
    SeparablePrefix(inner, ps, j + 1);
    sub := Last(es).message.subscription;
    ClashShows(inner, sub, es, i);
  }

  /**
   Transparency, exactly: given messages to push, every run that pushes them in
   order, as far as it gets and with pops anywhere, is transparent for every
   subscription iff no two of them for one subscription have different keys of
   one text, or one and the same unique key.
   */
  lemma TransparentExactly<V(!new)>(inner: Conflation<V>, ps: seq<Event<EventEnvelope<V>>>)
    requires FreshDraws(inner, ps) && OnlyPushes(ps)
    ensures (forall sub, es | Pushes(es) <= ps :: TransparentRun(inner, sub, es)) <==> Separable(inner, ps)
  {
    if Separable(inner, ps) {
      forall sub, es | Pushes(es) <= ps ensures TransparentRun(inner, sub, es) {
        PushesDecide(inner, ps, es);
        Transparent(inner, sub, es);
      }
    } else {
      var sub, es := OpaqueRun(inner, ps);
    }
  }

  /** Custom keys are their own text: runs with custom keys or none are transparent. */
  lemma CustomKeysTransparent<V>(inner: Conflation<V>, sub: Option<Uuid>, es: seq<Event<EventEnvelope<V>>>)
    requires FreshDraws(inner, es)
    requires forall i | 0 <= i < |es| && es[i].Pushed? ::
      inner.keyOf(es[i].message.event).Some? ==> inner.keyOf(es[i].message.event).value.Custom?
    ensures TransparentRun(inner, sub, es)
  {
    forall i, j | 0 <= i < j < |es| ensures !Clash(inner, es[i], es[j]) {
    }
    Transparent(inner, sub, es);
  }

  // Inputs of each kind

  /**
   Two keys with one text, such as two entities of one kind, break it: the
   shared queue keeps one message where the separate queue keeps both.
   */
  lemma SharedTextConflates<V>(
      inner: Conflation<V>, sub: Option<Uuid>, a: V, b: V, u: Uuid, v: Uuid)
    requires inner.keyOf(a).Some? && inner.keyOf(b).Some? && inner.keyOf(a) != inner.keyOf(b)
    requires InnerText(inner.keyOf(a).value).Some?
    requires InnerText(inner.keyOf(a).value) == InnerText(inner.keyOf(b).value)
    ensures var es := [Pushed(EventEnvelope(sub, a), u), Pushed(EventEnvelope(sub, b), v)];
            var shared, own := Play(Enveloped(inner), es), Play(inner, Restrict(inner, sub, es));
            |own.queue.order| == 2 && |shared.queue.order| == 1
  {
    PlayBoth(inner, sub, a, b, u, v);
  }

  lemma PlayBoth<V>(inner: Conflation<V>, sub: Option<Uuid>, a: V, b: V, u: Uuid, v: Uuid)
    ensures var m, n := EventEnvelope(sub, a), EventEnvelope(sub, b);
            var es := [Pushed(m, u), Pushed(n, v)];
            |Play(inner, Restrict(inner, sub, es)).queue.order| ==
            (if KeyFor(inner, a, u) == KeyFor(inner, b, v) then 1 else 2) &&
            |Play(Enveloped(inner), es).queue.order| ==
            (if KeyFor(Enveloped(inner), m, u) == KeyFor(Enveloped(inner), n, v) then 1 else 2)
  {
    var m, n := EventEnvelope(sub, a), EventEnvelope(sub, b);
    PlayTwo(Enveloped(inner), m, n, u, v);
    PlayTwo(inner, a, b, u, v);
    var x, y := Pushed(m, u), Pushed(n, v);
    assert DropLast([x, y]) == [x] && DropLast([x]) == [];
    assert Restrict(inner, sub, [x]) == [Pushed(a, u)];
    assert Restrict(inner, sub, [x, y]) == [Pushed(a, u), Pushed(b, v)];
  }

  lemma PlayTwo<V>(rules: Conflation<V>, a: V, b: V, u: Uuid, v: Uuid)
    ensures |Play(rules, [Pushed(a, u), Pushed(b, v)]).queue.order| ==
            if KeyFor(rules, a, u) == KeyFor(rules, b, v) then 1 else 2
  {
    var x, y := Pushed(a, u), Pushed(b, v);
    assert DropLast([x, y]) == [x] && DropLast([x]) == [];
    var r: Run<V> := Run(Queue([], map[]), [], []);
    assert PlayFrom(rules, r, []) == r;
    assert PlayFrom(rules, r, [x]) == Step(rules, r, x);
    assert PlayFrom(rules, r, [x, y]) == Step(rules, Step(rules, r, x), y);
  }

  /**
   One unique key on two messages breaks it the other way: the separate queue
   merges them, the shared queue keeps both, under newly drawn keys.
   */
  lemma UniqueKeySplits<V>(inner: Conflation<V>, sub: Option<Uuid>, a: V, b: V, x: Uuid, u: Uuid, v: Uuid)
    requires inner.keyOf(a) == Some(Unique(x)) == inner.keyOf(b) && u != v
    ensures var es := [Pushed(EventEnvelope(sub, a), u), Pushed(EventEnvelope(sub, b), v)];
            var shared, own := Play(Enveloped(inner), es), Play(inner, Restrict(inner, sub, es));
            |own.queue.order| == 1 && |shared.queue.order| == 2
  {
    PlayBoth(inner, sub, a, b, u, v);
  }

  /** The entity case: the identifier is what the text leaves out. */
  lemma EntityKeysConflate<V>(
      inner: Conflation<V>, sub: Option<Uuid>, a: V, b: V, kind: string, x: Uuid, y: Uuid, u: Uuid, v: Uuid)
    requires x != y && inner.keyOf(a) == Some(Entity(kind, x)) && inner.keyOf(b) == Some(Entity(kind, y))
    ensures EnvelopeKey(inner, EventEnvelope(sub, a)) == EnvelopeKey(inner, EventEnvelope(sub, b))
    ensures var es := [Pushed(EventEnvelope(sub, a), u), Pushed(EventEnvelope(sub, b), v)];
            |Play(inner, Restrict(inner, sub, es)).queue.order| == 2 && |Play(Enveloped(inner), es).queue.order| == 1
  {
    SharedTextConflates(inner, sub, a, b, u, v);
  }
}
