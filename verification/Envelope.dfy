/**
 Event envelopes: one queue shared by many subscriptions, with keys made from
 the subscription and the text of the event's own key.
 */
module Envelopes {
  import opened Prelude
  import opened Uuids
  import opened Queues

  datatype EventEnvelope<V> = EventEnvelope(subscription: Option<Uuid>, event: V)

  function SubscriptionText(sub: Option<Uuid>): string {
    match sub
    case Some(id) => ToText(id)
    case None => "global"
  }

  function KeyText(sub: Option<Uuid>, s: string): string {
    SubscriptionText(sub) + "_" + s
  }

  /** The text an event's key contributes; the identifier of an entity key is dropped. */
  function InnerText(k: ConflationKey): Option<string> {
    match k
    case Unique(_) => None
    case Entity(kind, _) => Some(kind)
    case Custom(name) => Some(name)
  }

  function EnvelopeKey<V>(inner: Conflation<V>, m: EventEnvelope<V>): Option<ConflationKey> {
    match inner.keyOf(m.event)
    case None => None
    case Some(k) =>
      match InnerText(k)
      case None => None
      case Some(s) => Some(Custom(KeyText(m.subscription, s)))
  }

  function EnvelopeMerge<V>(inner: Conflation<V>, a: EventEnvelope<V>, b: EventEnvelope<V>): Option<EventEnvelope<V>> {
    if a.subscription != b.subscription then Some(b)
    else
      match inner.mergeWith(a.event, b.event)
      case Some(e) => Some(b.(event := e))
      case None => Some(b)
  }

  function Enveloped<V>(inner: Conflation<V>): Conflation<EventEnvelope<V>> {
    Conflation(
      (m: EventEnvelope<V>) => EnvelopeKey(inner, m),
      (a: EventEnvelope<V>, b: EventEnvelope<V>) => EnvelopeMerge(inner, a, b))
  }

  /** A merged envelope is the newer one's, and holds the merged event if there is one to hold. */
  lemma MergedEnvelope<V>(inner: Conflation<V>, a: EventEnvelope<V>, b: EventEnvelope<V>)
    ensures EnvelopeMerge(inner, a, b).Some?
    ensures var r, merged := EnvelopeMerge(inner, a, b).value, inner.mergeWith(a.event, b.event);
            r.subscription == b.subscription &&
            r.event == if a.subscription == b.subscription && merged.Some? then merged.value else b.event
  {
  }

  /** A shared key reads: the subscription or `global`, an underscore, the text of the event's key. */
  lemma KeyTextReads(sub: Option<Uuid>, s: string)
    ensures var t := KeyText(sub, s);
            if sub.None? then t == "global_" + s
            else |t| == 37 + |s| && t[..36] == ToText(sub.value) && t[36] == '_' && t[37..] == s
  {
    var t := KeyText(sub, s);
    if sub.Some? {
      assert t == (ToText(sub.value) + "_") + s;
    } else {
      assert "global" + "_" == "global_";
    }
  }

  // Keys of different subscriptions never meet

  lemma SubscriptionTextPlain(sub: Option<Uuid>)
    ensures forall i | 0 <= i < |SubscriptionText(sub)| :: SubscriptionText(sub)[i] != '_'
    ensures |SubscriptionText(sub)| == if sub.Some? then 36 else 6
  {
    var t := SubscriptionText(sub);
    forall i | 0 <= i < |t| ensures t[i] != '_' {
      assert t[i] in t;
    }
  }

  lemma KeyTextInjective(a: Option<Uuid>, s: string, b: Option<Uuid>, t: string)
    requires KeyText(a, s) == KeyText(b, t)
    ensures a == b && s == t
  {
    var x, y, text := SubscriptionText(a), SubscriptionText(b), KeyText(a, s);
    SubscriptionTextPlain(a);
    SubscriptionTextPlain(b);
    assert text[|x|] == '_' && text[|y|] == '_';
    assert forall i | 0 <= i < |x| :: text[i] == x[i];
    assert forall i | 0 <= i < |y| :: text[i] == y[i];
    assert |x| == |y|;
    assert x == text[..|x|] == y;
    assert s == text[|x| + 1..] == t;
    if a.Some? {
      TextInjective(a.value, b.value);
    }
  }

  // The separate queue of one subscription

  /** The key in the shared queue of what a separate queue would keep under `k`. */
  function Encode(sub: Option<Uuid>, k: ConflationKey): ConflationKey {
    match InnerText(k)
    case None => k
    case Some(s) => Custom(KeyText(sub, s))
  }

  /** `decode` recovers the key from its text, so that no two keys share a text. */
  predicate Decodable(decode: string -> ConflationKey, k: ConflationKey) {
    InnerText(k).Some? && decode(InnerText(k).value) == k
  }

  /** Every event of the subscription has no key or one that its text determines. */
  predicate DecodableRun<V>(
      inner: Conflation<V>, decode: string -> ConflationKey, sub: Option<Uuid>, es: seq<Event<EventEnvelope<V>>>)
  {
    forall i | 0 <= i < |es| && es[i].Pushed? && es[i].message.subscription == sub ::
      DecodableEvent(inner, decode, es[i].message.event)
  }

  predicate DecodableEvent<V>(inner: Conflation<V>, decode: string -> ConflationKey, e: V) {
    inner.keyOf(e).Some? ==> Decodable(decode, inner.keyOf(e).value)
  }

  /** The events of one subscription among the envelopes. */
  function EventsOf<V>(sub: Option<Uuid>, ms: seq<EventEnvelope<V>>): seq<V> {
    if ms == [] then []
    else EventsOf(sub, DropLast(ms)) + if Last(ms).subscription == sub then [Last(ms).event] else []
  }

  /** The same run as one subscription sees it: its pushes, and the pops that return its events. */
  function Restrict<V>(inner: Conflation<V>, sub: Option<Uuid>, es: seq<Event<EventEnvelope<V>>>): seq<Event<V>> {
    if es == [] then []
    else
      Restrict(inner, sub, DropLast(es)) +
      RestrictEvent(sub, Play(Enveloped(inner), DropLast(es)).queue, Last(es))
  }

  function RestrictEvent<V>(sub: Option<Uuid>, q: Queue<EventEnvelope<V>>, e: Event<EventEnvelope<V>>): seq<Event<V>> {
    match e
    case Pushed(m, drawn) => if m.subscription == sub then [Pushed(m.event, drawn)] else []
    case Popped => if PopFrom(q).0.Some? && PopFrom(q).0.value.subscription == sub then [Popped] else []
  }

  predicate Owns<V>(sub: Option<Uuid>, ms: map<ConflationKey, EventEnvelope<V>>, k: ConflationKey) {
    k in ms && ms[k].subscription == sub
  }

  /** The keys whose message belongs to `sub`, in order. */
  function Mine<V>(sub: Option<Uuid>, order: seq<ConflationKey>, ms: map<ConflationKey, EventEnvelope<V>>)
    : seq<ConflationKey>
  {
    if order == [] then []
    else
      (if Owns(sub, ms, order[0]) then [order[0]] else []) + Mine(sub, order[1..], ms)
  }

  function EncodeAll(sub: Option<Uuid>, order: seq<ConflationKey>): (r: seq<ConflationKey>)
    ensures |r| == |order|
  {
    seq(|order|, i requires 0 <= i < |order| => Encode(sub, order[i]))
  }

  /** `own` is what remains of the shared queue when only `sub` is looked at. */
  ghost predicate Simulates<V>(
      decode: string -> ConflationKey, sub: Option<Uuid>, q: Queue<EventEnvelope<V>>, own: Queue<V>)
  {
    Valid(q) && Valid(own) &&
    Mine(sub, q.order, q.messages) == EncodeAll(sub, own.order) &&
    SameMessages(decode, sub, q.messages, own.messages)
  }

  ghost predicate SameMessages<V>(
      decode: string -> ConflationKey, sub: Option<Uuid>,
      shared: map<ConflationKey, EventEnvelope<V>>, own: map<ConflationKey, V>)
  {
    forall k | k in own :: SameMessage(decode, sub, shared, k, own[k])
  }

  ghost predicate SameMessage<V>(
      decode: string -> ConflationKey, sub: Option<Uuid>,
      shared: map<ConflationKey, EventEnvelope<V>>, k: ConflationKey, m: V)
  {
    (k.Unique? || Decodable(decode, k)) &&
    Encode(sub, k) in shared && shared[Encode(sub, k)].subscription == sub && shared[Encode(sub, k)].event == m
  }

  /** Shared keys name the subscription of the message stored under them. */
  ghost predicate NamesSubscription<V>(q: Queue<EventEnvelope<V>>) {
    forall k | k in q.messages ::
      k.Unique? || exists s :: k == Custom(KeyText(q.messages[k].subscription, s))
  }

  lemma {:induction false} MineSnoc<V>(
      sub: Option<Uuid>, order: seq<ConflationKey>, k: ConflationKey, ms: map<ConflationKey, EventEnvelope<V>>)
    ensures Mine(sub, order + [k], ms) == Mine(sub, order, ms) + if Owns(sub, ms, k) then [k] else []
  {
    if order == [] {
      assert [k][1..] == [] && [] + [k] == [k];
    } else {
      MineSnoc(sub, order[1..], k, ms);
      assert (order + [k])[1..] == order[1..] + [k];
    }
  }

  /** Only who owns the keys in the list matters. */
  lemma {:induction false} MineSame<V>(
      sub: Option<Uuid>, order: seq<ConflationKey>,
      ms: map<ConflationKey, EventEnvelope<V>>, ms': map<ConflationKey, EventEnvelope<V>>)
    requires forall k | k in order :: Owns(sub, ms, k) == Owns(sub, ms', k)
    ensures Mine(sub, order, ms) == Mine(sub, order, ms')
  {
    if order != [] {
      MineSame(sub, order[1..], ms, ms');
    }
  }

  lemma {:induction false} MineMember<V>(
      sub: Option<Uuid>, order: seq<ConflationKey>, ms: map<ConflationKey, EventEnvelope<V>>, k: ConflationKey)
    ensures k in Mine(sub, order, ms) <==> k in order && Owns(sub, ms, k)
  {
    if order != [] {
      MineMember(sub, order[1..], ms, k);
      assert order == [order[0]] + order[1..];
    }
  }

  lemma EncodeInjective(decode: string -> ConflationKey, sub: Option<Uuid>, k: ConflationKey, k': ConflationKey)
    requires k.Unique? || Decodable(decode, k)
    requires k'.Unique? || Decodable(decode, k')
    requires Encode(sub, k) == Encode(sub, k')
    ensures k == k'
  {
    if !k.Unique? && !k'.Unique? {
      KeyTextInjective(sub, InnerText(k).value, sub, InnerText(k').value);
    }
  }

  /** The key of an arriving message is in the shared queue iff its own key is in the separate one. */
  lemma SameQueued<V>(
      inner: Conflation<V>, decode: string -> ConflationKey, sub: Option<Uuid>,
      q: Queue<EventEnvelope<V>>, own: Queue<V>, m: EventEnvelope<V>, drawn: Uuid)
    requires Simulates(decode, sub, q, own) && NamesSubscription(q)
    requires m.subscription == sub && DecodableEvent(inner, decode, m.event)
    requires inner.keyOf(m.event).None? ==> Unique(drawn) !in q.messages
    ensures var k := KeyFor(inner, m.event, drawn);
            KeyFor(Enveloped(inner), m, drawn) == Encode(sub, k) &&
            (k.Unique? || Decodable(decode, k)) &&
            (Encode(sub, k) in q.messages <==> k in own.messages)
  {
    var k := KeyFor(inner, m.event, drawn);
    var key := Encode(sub, k);
    if key in q.messages {
      SubscriptionOfKey(q, sub, InnerText(k).value);
      assert key in q.order;
      MineMember(sub, q.order, q.messages, key);
      var i :| 0 <= i < |own.order| && EncodeAll(sub, own.order)[i] == key;
      assert own.order[i] in own.order;
      EncodeInjective(decode, sub, k, own.order[i]);
    }
  }

  lemma SubscriptionOfKey<V>(q: Queue<EventEnvelope<V>>, sub: Option<Uuid>, s: string)
    requires NamesSubscription(q) && Custom(KeyText(sub, s)) in q.messages
    ensures q.messages[Custom(KeyText(sub, s))].subscription == sub
  {
    var k := Custom(KeyText(sub, s));
    var t :| k == Custom(KeyText(q.messages[k].subscription, t));
    KeyTextInjective(sub, s, q.messages[k].subscription, t);
  }

  /** Storing `m` under `k` on both sides. */
  lemma StoreOwn<V>(
      decode: string -> ConflationKey, sub: Option<Uuid>,
      shared: map<ConflationKey, EventEnvelope<V>>, own: map<ConflationKey, V>, k: ConflationKey, m: V)
    requires SameMessages(decode, sub, shared, own) && (k.Unique? || Decodable(decode, k))
    ensures SameMessages(decode, sub, shared[Encode(sub, k) := EventEnvelope(sub, m)], own[k := m])
  {
    var shared', own' := shared[Encode(sub, k) := EventEnvelope(sub, m)], own[k := m];
    forall x | x in own' ensures SameMessage(decode, sub, shared', x, own'[x]) {
      if x != k {
        assert SameMessage(decode, sub, shared, x, own[x]);
        if Encode(sub, x) == Encode(sub, k) {
          EncodeInjective(decode, sub, x, k);
        }
      }
    }
  }

  lemma PushOwn<V>(
      inner: Conflation<V>, decode: string -> ConflationKey, sub: Option<Uuid>,
      q: Queue<EventEnvelope<V>>, own: Queue<V>, m: EventEnvelope<V>, drawn: Uuid)
    requires Simulates(decode, sub, q, own) && NamesSubscription(q)
    requires m.subscription == sub && DecodableEvent(inner, decode, m.event)
    requires inner.keyOf(m.event).None? ==> Unique(drawn) !in q.messages
    ensures Simulates(decode, sub, PushTo(Enveloped(inner), q, m, drawn), PushTo(inner, own, m.event, drawn))
  {
    var k := KeyFor(inner, m.event, drawn);
    SameQueued(inner, decode, sub, q, own, m, drawn);
    StoredAlike(inner, decode, sub, q, own, m, drawn);
    PushValid(Enveloped(inner), q, m, drawn);
    PushValid(inner, own, m.event, drawn);
    StoreBoth(decode, sub, q, own, k, PushTo(inner, own, m.event, drawn).messages[k]);
  }

  lemma StoreBoth<V>(
      decode: string -> ConflationKey, sub: Option<Uuid>,
      q: Queue<EventEnvelope<V>>, own: Queue<V>, k: ConflationKey, m: V)
    requires Simulates(decode, sub, q, own) && (k.Unique? || Decodable(decode, k))
    requires Encode(sub, k) in q.messages <==> k in own.messages
    ensures var known := k in own.messages;
            var order' := if known then q.order else q.order + [Encode(sub, k)];
            var own' := if known then own.order else own.order + [k];
            var ms := q.messages[Encode(sub, k) := EventEnvelope(sub, m)];
            Mine(sub, order', ms) == EncodeAll(sub, own') && SameMessages(decode, sub, ms, own.messages[k := m])
  {
    var ms := q.messages[Encode(sub, k) := EventEnvelope(sub, m)];
    StoreOwn(decode, sub, q.messages, own.messages, k, m);
    if k in own.messages {
      assert SameMessage(decode, sub, q.messages, k, own.messages[k]);
    }
    PushOrder(sub, q.order, own.order, q.messages, ms, k, k in own.messages);
  }

  lemma PushOrder<V>(
      sub: Option<Uuid>, order: seq<ConflationKey>, own: seq<ConflationKey>,
      ms: map<ConflationKey, EventEnvelope<V>>, ms': map<ConflationKey, EventEnvelope<V>>, k: ConflationKey, known: bool)
    requires Mine(sub, order, ms) == EncodeAll(sub, own)
    requires forall x | x in order :: Owns(sub, ms, x) == Owns(sub, ms', x)
    requires Owns(sub, ms', Encode(sub, k))
    ensures var order' := if known then order else order + [Encode(sub, k)];
            Mine(sub, order', ms') == EncodeAll(sub, if known then own else own + [k])
  {
    MineSame(sub, order, ms, ms');
    MineSnoc(sub, order, Encode(sub, k), ms');
    assert EncodeAll(sub, own + [k]) == EncodeAll(sub, own) + [Encode(sub, k)];
  }

  /** The shared queue stores the separate queue's message, in the envelope. */
  lemma StoredAlike<V>(
      inner: Conflation<V>, decode: string -> ConflationKey, sub: Option<Uuid>,
      q: Queue<EventEnvelope<V>>, own: Queue<V>, m: EventEnvelope<V>, drawn: Uuid)
    requires SameMessages(decode, sub, q.messages, own.messages)
    requires m.subscription == sub
    requires var k := KeyFor(inner, m.event, drawn);
             KeyFor(Enveloped(inner), m, drawn) == Encode(sub, k) &&
             (Encode(sub, k) in q.messages <==> k in own.messages)
    ensures var k := KeyFor(inner, m.event, drawn);
            var own' := PushTo(inner, own, m.event, drawn);
            PushTo(Enveloped(inner), q, m, drawn) ==
            Queue(if k in own.messages then q.order else q.order + [Encode(sub, k)],
                  q.messages[Encode(sub, k) := EventEnvelope(sub, own'.messages[k])]) &&
            own' == Queue(if k in own.messages then own.order else own.order + [k], own.messages[k := own'.messages[k]])
  {
    var k := KeyFor(inner, m.event, drawn);
    if k in own.messages {
      assert SameMessage(decode, sub, q.messages, k, own.messages[k]);
    }
  }

  lemma PushOther<V>(
      inner: Conflation<V>, decode: string -> ConflationKey, sub: Option<Uuid>,
      q: Queue<EventEnvelope<V>>, own: Queue<V>, m: EventEnvelope<V>, drawn: Uuid)
    requires Simulates(decode, sub, q, own) && NamesSubscription(q)
    requires m.subscription != sub
    requires EnvelopeKey(inner, m).None? ==> Unique(drawn) !in q.messages
    ensures Simulates(decode, sub, PushTo(Enveloped(inner), q, m, drawn), own)
  {
    PushValid(Enveloped(inner), q, m, drawn);
    OthersKey(inner, sub, q, m, drawn);
    StoreOther(decode, sub, q, own, KeyFor(Enveloped(inner), m, drawn), PushTo(Enveloped(inner), q, m, drawn));
  }

  lemma StoreOther<V>(
      decode: string -> ConflationKey, sub: Option<Uuid>, q: Queue<EventEnvelope<V>>, own: Queue<V>,
      key: ConflationKey, q': Queue<EventEnvelope<V>>)
    requires Simulates(decode, sub, q, own) && Valid(q') && key in q'.messages
    requires !Owns(sub, q.messages, key) && !Owns(sub, q'.messages, key)
    requires q'.messages == q.messages[key := q'.messages[key]]
    requires q'.order == if key in q.messages then q.order else q.order + [key]
    ensures Simulates(decode, sub, q', own)
  {
    MineSame(sub, q.order, q.messages, q'.messages);
    MineSnoc(sub, q.order, key, q'.messages);
    forall k | k in own.messages ensures SameMessage(decode, sub, q'.messages, k, own.messages[k]) {
      assert SameMessage(decode, sub, q.messages, k, own.messages[k]);
    }
  }

  /** A push for one subscription touches no message of another. */
  lemma OthersKey<V>(
      inner: Conflation<V>, sub: Option<Uuid>, q: Queue<EventEnvelope<V>>, m: EventEnvelope<V>, drawn: Uuid)
    requires Valid(q) && NamesSubscription(q) && m.subscription != sub
    requires EnvelopeKey(inner, m).None? ==> Unique(drawn) !in q.messages
    ensures var key, q' := KeyFor(Enveloped(inner), m, drawn), PushTo(Enveloped(inner), q, m, drawn);
            key in q'.messages && !Owns(sub, q.messages, key) && !Owns(sub, q'.messages, key) &&
            q'.messages == q.messages[key := q'.messages[key]] &&
            q'.order == if key in q.messages then q.order else q.order + [key]
  {
    var key := KeyFor(Enveloped(inner), m, drawn);
    if key in q.messages {
      SubscriptionOfKey(q, m.subscription, InnerText(inner.keyOf(m.event).value).value);
    }
  }

  lemma PushNames<V>(inner: Conflation<V>, q: Queue<EventEnvelope<V>>, m: EventEnvelope<V>, drawn: Uuid)
    requires NamesSubscription(q)
    ensures NamesSubscription(PushTo(Enveloped(inner), q, m, drawn))
  {
    var key, q' := KeyFor(Enveloped(inner), m, drawn), PushTo(Enveloped(inner), q, m, drawn);
    forall k | k in q'.messages
      ensures k.Unique? || exists s :: k == Custom(KeyText(q'.messages[k].subscription, s))
    {
      if k == key && !k.Unique? {
        assert q'.messages[k].subscription == m.subscription;
        assert key == Custom(KeyText(m.subscription, InnerText(inner.keyOf(m.event).value).value));
      }
    }
  }

  lemma PopOne<V>(decode: string -> ConflationKey, sub: Option<Uuid>, q: Queue<EventEnvelope<V>>, own: Queue<V>)
    requires Simulates(decode, sub, q, own) && q.order != []
    ensures PopFrom(q).0.Some?
    ensures var mine := PopFrom(q).0.value.subscription == sub;
            Simulates(decode, sub, PopFrom(q).1, if mine then PopFrom(own).1 else own) &&
            (mine ==> own.order != [] && PopFrom(own).0 == Some(PopFrom(q).0.value.event))
  {
    var key, rest, ms := q.order[0], q.order[1..], q.messages - {q.order[0]};
    PopParts(q);
    PopTakesHead(q);
    PopTakesHead(own);
    forall k | k in rest ensures Owns(sub, q.messages, k) == Owns(sub, ms, k) {
      InTail(q.order, k);
    }
    MineSame(sub, rest, q.messages, ms);
    if q.messages[key].subscription == sub {
      assert Mine(sub, q.order, q.messages)[0] == key;
      PopOwn(decode, sub, q, own);
    } else {
      PopOther(decode, sub, q, own);
    }
  }

  lemma PopOther<V>(decode: string -> ConflationKey, sub: Option<Uuid>, q: Queue<EventEnvelope<V>>, own: Queue<V>)
    requires Simulates(decode, sub, q, own) && q.order != []
    requires q.order[0] in q.messages && q.messages[q.order[0]].subscription != sub
    ensures SameMessages(decode, sub, q.messages - {q.order[0]}, own.messages)
  {
    var ms := q.messages - {q.order[0]};
    forall k | k in own.messages ensures SameMessage(decode, sub, ms, k, own.messages[k]) {
      assert SameMessage(decode, sub, q.messages, k, own.messages[k]);
    }
  }

  lemma PopParts<M>(q: Queue<M>)
    requires Valid(q) && q.order != []
    ensures q.order[0] in q.messages
    ensures PopFrom(q) == (Some(q.messages[q.order[0]]), Queue(q.order[1..], q.messages - {q.order[0]}))
  {
    assert q.order[0] in q.order;
  }

  lemma PopOwn<V>(decode: string -> ConflationKey, sub: Option<Uuid>, q: Queue<EventEnvelope<V>>, own: Queue<V>)
    requires Simulates(decode, sub, q, own) && q.order != [] && Owns(sub, q.messages, q.order[0])
    ensures own.order != [] && own.order[0] in own.messages
    ensures q.messages[q.order[0]].event == own.messages[own.order[0]]
    ensures PopFrom(own) == (Some(own.messages[own.order[0]]), Queue(own.order[1..], own.messages - {own.order[0]}))
    ensures Mine(sub, q.order[1..], q.messages) == EncodeAll(sub, own.order[1..])
    ensures SameMessages(decode, sub, q.messages - {q.order[0]}, own.messages - {own.order[0]})
  {
    var key, tail := q.order[0], Mine(sub, q.order[1..], q.messages);
    assert Mine(sub, q.order, q.messages) == [key] + tail;
    var k := own.order[0];
    EncodeAllParts(sub, own.order);
    assert tail == ([key] + tail)[1..];
    PopParts(own);
    assert SameMessage(decode, sub, q.messages, k, own.messages[k]);
    DropOwn(decode, sub, q.messages, own.messages, k);
  }

  lemma EncodeAllParts(sub: Option<Uuid>, order: seq<ConflationKey>)
    requires order != []
    ensures EncodeAll(sub, order)[0] == Encode(sub, order[0])
    ensures EncodeAll(sub, order)[1..] == EncodeAll(sub, order[1..])
  {
    var all, rest := EncodeAll(sub, order), EncodeAll(sub, order[1..]);
    forall i | 0 <= i < |rest| ensures all[1..][i] == rest[i] {
      assert all[1..][i] == all[i + 1] == Encode(sub, order[i + 1]);
    }
  }

  lemma DropOwn<V>(
      decode: string -> ConflationKey, sub: Option<Uuid>,
      shared: map<ConflationKey, EventEnvelope<V>>, own: map<ConflationKey, V>, k: ConflationKey)
    requires SameMessages(decode, sub, shared, own) && k in own
    ensures SameMessages(decode, sub, shared - {Encode(sub, k)}, own - {k})
  {
    assert SameMessage(decode, sub, shared, k, own[k]);
    forall x | x in own && x != k ensures SameMessage(decode, sub, shared - {Encode(sub, k)}, x, own[x]) {
      assert SameMessage(decode, sub, shared, x, own[x]);
      if Encode(sub, x) == Encode(sub, k) {
        EncodeInjective(decode, sub, x, k);
      }
    }
  }

  /** Every key in the queue was used by some push of the run. */
  ghost predicate KeysPushed<V>(rules: Conflation<V>, q: Queue<V>, es: seq<Event<V>>) {
    forall k | k in q.messages :: exists i: nat :: Origin(rules, es, k, false, i)
  }

  lemma {:induction false} PlayKeys<V>(rules: Conflation<V>, es: seq<Event<V>>)
    ensures Valid(Play(rules, es).queue) && KeysPushed(rules, Play(rules, es).queue, es)
  {
    PlayValid(rules, Run(Queue([], map[]), [], []), es);
    if es != [] {
      PlayKeys(rules, DropLast(es));
      var r, e := Play(rules, DropLast(es)), Last(es);
      StepKeys(rules, r, e);
      forall k | k in Play(rules, es).queue.messages ensures exists i: nat :: Origin(rules, es, k, false, i) {
        if k in r.queue.messages {
          OriginLater(rules, es, k, false);
        } else {
          assert Origin(rules, es, k, false, |es| - 1);
        }
      }
    }
  }

  lemma DrawnIsNew<V>(rules: Conflation<V>, es: seq<Event<V>>)
    requires es != [] && Last(es).Pushed? && FreshIds(rules, es)
    ensures rules.keyOf(Last(es).message).None? ==> Unique(Last(es).drawn) !in Play(rules, DropLast(es)).queue.messages
  {
    PlayKeys(rules, DropLast(es));
    var k := Unique(Last(es).drawn);
    if rules.keyOf(Last(es).message).None? {
      forall i: nat ensures !Origin(rules, DropLast(es), k, false, i) {
        assert OwnKey(rules, es, |es| - 1, i);
      }
    }
  }

  ghost predicate Simulated<V>(
      inner: Conflation<V>, decode: string -> ConflationKey, sub: Option<Uuid>, es: seq<Event<EventEnvelope<V>>>)
  {
    var shared, own := Play(Enveloped(inner), es), Play(inner, Restrict(inner, sub, es));
    Simulates(decode, sub, shared.queue, own.queue) && NamesSubscription(shared.queue) &&
    EventsOf(sub, shared.popped) == own.popped
  }

  /** Without unique keys, and if texts determine keys, the two queues simulate each other. */
  lemma {:induction false} SimulatedRun<V>(
      inner: Conflation<V>, decode: string -> ConflationKey, sub: Option<Uuid>, es: seq<Event<EventEnvelope<V>>>)
    requires FreshIds(Enveloped(inner), es) && DecodableRun(inner, decode, sub, es)
    ensures Simulated(inner, decode, sub, es)
  {
    if es != [] {
      FreshPrefix(Enveloped(inner), es);
      forall i | 0 <= i < |es| - 1 && DropLast(es)[i].Pushed? && DropLast(es)[i].message.subscription == sub
        ensures DecodableEvent(inner, decode, DropLast(es)[i].message.event)
      {
        assert es[i].Pushed?;
      }
      SimulatedRun(inner, decode, sub, DropLast(es));
      SimulatedStep(inner, decode, sub, es);
    }
  }

  lemma SimulatedStep<V>(
      inner: Conflation<V>, decode: string -> ConflationKey, sub: Option<Uuid>, es: seq<Event<EventEnvelope<V>>>)
    requires es != [] && FreshIds(Enveloped(inner), es) && DecodableRun(inner, decode, sub, es)
    requires Simulated(inner, decode, sub, DropLast(es))
    ensures Simulated(inner, decode, sub, es)
  {
    var front, e := DropLast(es), Last(es);
    var shared, own := Play(Enveloped(inner), front), Play(inner, Restrict(inner, sub, front));
    RestrictStep(inner, inner, sub, es);
    if e.Pushed? {
      DrawnIsNew(Enveloped(inner), es);
      assert es[|es| - 1].Pushed?;
      SimulatedPush(inner, decode, sub, shared.queue, own.queue, e.message, e.drawn);
    } else {
      SimulatedPop(inner, decode, sub, shared, own);
    }
  }

  lemma SimulatedPush<V>(
      inner: Conflation<V>, decode: string -> ConflationKey, sub: Option<Uuid>,
      q: Queue<EventEnvelope<V>>, own: Queue<V>, m: EventEnvelope<V>, drawn: Uuid)
    requires Simulates(decode, sub, q, own) && NamesSubscription(q)
    requires m.subscription == sub ==> DecodableEvent(inner, decode, m.event)
    requires EnvelopeKey(inner, m).None? ==> Unique(drawn) !in q.messages
    ensures NamesSubscription(PushTo(Enveloped(inner), q, m, drawn))
    ensures Simulates(decode, sub, PushTo(Enveloped(inner), q, m, drawn),
                      if m.subscription == sub then PushTo(inner, own, m.event, drawn) else own)
  {
    PushNames(inner, q, m, drawn);
    if m.subscription == sub {
      PushOwn(inner, decode, sub, q, own, m, drawn);
    } else {
      PushOther(inner, decode, sub, q, own, m, drawn);
    }
  }

  lemma SimulatedPop<V>(
      inner: Conflation<V>, decode: string -> ConflationKey, sub: Option<Uuid>,
      shared: Run<EventEnvelope<V>>, own: Run<V>)
    requires Simulates(decode, sub, shared.queue, own.queue) && NamesSubscription(shared.queue)
    requires EventsOf(sub, shared.popped) == own.popped
    ensures var shared' := Step(Enveloped(inner), shared, Popped);
            var own' := if RestrictEvent(sub, shared.queue, Popped) == [] then own else Step(inner, own, Popped);
            Simulates(decode, sub, shared'.queue, own'.queue) && NamesSubscription(shared'.queue) &&
            EventsOf(sub, shared'.popped) == own'.popped
  {
    PopTakesHead(shared.queue);
    if shared.queue.order != [] {
      PopOne(decode, sub, shared.queue, own.queue);
      PopParts(shared.queue);
      assert DropLast(shared.popped + [PopFrom(shared.queue).0.value]) == shared.popped;
    } else {
      assert shared.popped + [] == shared.popped;
    }
  }

  lemma RestrictStep<V>(
      inner: Conflation<V>, rules: Conflation<V>, sub: Option<Uuid>, es: seq<Event<EventEnvelope<V>>>)
    requires es != []
    ensures var front := Restrict(inner, sub, DropLast(es));
            var more := RestrictEvent(sub, Play(Enveloped(inner), DropLast(es)).queue, Last(es));
            Play(rules, Restrict(inner, sub, es)) ==
            if more == [] then Play(rules, front) else Step(rules, Play(rules, front), more[0])
  {
    var front := Restrict(inner, sub, DropLast(es));
    var more := RestrictEvent(sub, Play(Enveloped(inner), DropLast(es)).queue, Last(es));
    if more == [] {
      assert front + more == front;
    } else {
      assert DropLast(front + more) == front;
    }
  }

  /** What waits for a subscription is what would wait in its separate queue. */
  lemma {:induction false} SimulatedQueue<V>(
      decode: string -> ConflationKey, sub: Option<Uuid>, q: Queue<EventEnvelope<V>>, own: Queue<V>)
    requires Simulates(decode, sub, q, own)
    ensures EventsOf(sub, Queued(q)) == Queued(own)
    decreases |q.order|
  {
    if q.order == [] {
      assert Mine(sub, q.order, q.messages) == [];
    } else {
      PopOne(decode, sub, q, own);
      var m := PopFrom(q).0.value;
      HeadAndTail(q);
      EventsOfCons(sub, m, Queued(PopFrom(q).1));
      if m.subscription == sub {
        HeadAndTail(own);
      }
      SimulatedQueue(decode, sub, PopFrom(q).1, if m.subscription == sub then PopFrom(own).1 else own);
    }
  }

  lemma {:induction false} EventsOfCons<V>(sub: Option<Uuid>, m: EventEnvelope<V>, ms: seq<EventEnvelope<V>>)
    ensures EventsOf(sub, [m] + ms) == (if m.subscription == sub then [m.event] else []) + EventsOf(sub, ms)
  {
    if ms == [] {
      assert DropLast([m]) == [] && [m] + ms == [m];
    } else {
      EventsOfCons(sub, m, DropLast(ms));
      assert DropLast([m] + ms) == [m] + DropLast(ms);
    }
  }
}
