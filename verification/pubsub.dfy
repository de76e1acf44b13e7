/**
 * The fan-out publisher (backend/internal/pubsub/pubsub.go).
 *
 * The publisher's subscriber set holds channel identities; the channels
 * themselves are bounded queues that exist independently of the subscription
 * (the connection keeps reading its channel after it is dropped). A send
 * succeeds when the channel's buffer has room; a full channel is dropped
 * from the subscriber set and the message is lost for it.
 */
module PubSub {
  import opened Wrappers

  /** A buffered Go channel: the messages waiting in it and its capacity. */
  datatype Queue<E> = Queue(items: seq<E>, capacity: nat)

  /** The publisher: the set of channels it delivers to. */
  datatype Publisher<K> = Publisher(subs: set<K>)

  predicate HasRoom<E>(q: Queue<E>) {
    |q.items| < q.capacity
  }

  /** A non-blocking send that succeeded: the message is queued last. */
  function Send<E>(q: Queue<E>, msg: E): (r: Queue<E>)
    requires HasRoom(q)
    ensures r.capacity == q.capacity && |r.items| == |q.items| + 1
    ensures r.items[..|q.items|] == q.items && r.items[|q.items|] == msg
  {
    q.(items := q.items + [msg])
  }

  function NewPublisher<K>(): (p: Publisher<K>)
    ensures p.subs == {}
  {
    Publisher({})
  }

  /** Subscribe stores the channel in the subscriber set. */
  function Subscribe<K>(p: Publisher<K>, out: K): (r: Publisher<K>)
    ensures out in r.subs
    ensures r.subs - {out} == p.subs - {out}
  {
    Publisher(p.subs + {out})
  }

  /** Unsubscribe deletes the channel from the subscriber set. */
  function Unsubscribe<K>(p: Publisher<K>, out: K): (r: Publisher<K>)
    ensures out !in r.subs
    ensures r.subs - {out} == p.subs - {out}
  {
    Publisher(p.subs - {out})
  }

  lemma SubscribeTwiceIsOnce<K>(p: Publisher<K>, out: K)
    ensures Subscribe(Subscribe(p, out), out) == Subscribe(p, out)
    ensures out in p.subs ==> Subscribe(p, out) == p
  {
  }

  lemma UnsubscribeAbsentIsNoop<K>(p: Publisher<K>, out: K)
    ensures out !in p.subs ==> Unsubscribe(p, out) == p
    ensures Unsubscribe(Subscribe(p, out), out) == Unsubscribe(p, out)
  {
  }

  /** What one publication does to each channel, all at once: every
      subscribed channel with room gets the message appended, every other
      channel is untouched, and the subscribed channels that were full are
      no longer subscribed. */
  function Published<K, E>(p: Publisher<K>, queues: map<K, Queue<E>>, msg: E): (r: (Publisher<K>, map<K, Queue<E>>))
    requires p.subs <= queues.Keys
  {
    (Publisher(set k | k in p.subs && HasRoom(queues[k])),
     map k | k in queues :: if k in p.subs && HasRoom(queues[k]) then Send(queues[k], msg) else queues[k])
  }

  /** Publish: ranges over the subscribers in some order, sending without
      blocking and deleting every subscriber whose channel is full. The
      context-cancellation exit is not modelled, so the error is always nil. */
  method Publish<K, E>(p: Publisher<K>, queues: map<K, Queue<E>>, msg: E)
    returns (p': Publisher<K>, queues': map<K, Queue<E>>, err: Option<string>)
    requires p.subs <= queues.Keys
    ensures (p', queues') == Published(p, queues, msg)
    ensures err == None
  {
    p' := p;
    queues' := queues;
    var todo := p.subs;
    while todo != {}
      invariant todo <= p.subs
      invariant queues'.Keys == queues.Keys
      invariant p'.subs == (set k | k in p.subs && k !in todo && HasRoom(queues[k])) + todo
      invariant forall k :: k in queues && k !in todo ==>
        queues'[k] == if k in p.subs && HasRoom(queues[k]) then Send(queues[k], msg) else queues[k]
      invariant forall k :: k in todo ==> queues'[k] == queues[k]
      decreases todo
    {
      var k :| k in todo;
      if HasRoom(queues'[k]) {
        queues' := queues'[k := Send(queues'[k], msg)];
      } else {
        p' := Publisher(p'.subs - {k});
      }
      todo := todo - {k};
    }
    var (want, wantQueues) := Published(p, queues, msg);
    assert p'.subs == want.subs;
    assert queues'.Keys == wantQueues.Keys;
    assert forall k :: k in queues' ==> queues'[k] == wantQueues[k];
    assert p' == want && queues' == wantQueues;
    err := None;
  }

  /** Publishing never adds a subscriber, and removes exactly the full ones. */
  lemma PublishOnlyDrops<K, E>(p: Publisher<K>, queues: map<K, Queue<E>>, msg: E)
    requires p.subs <= queues.Keys
    ensures Published(p, queues, msg).0.subs <= p.subs
    ensures forall k :: k in p.subs ==> (k in Published(p, queues, msg).0.subs <==> HasRoom(queues[k]))
    ensures forall k :: k in p.subs && !HasRoom(queues[k]) ==> Published(p, queues, msg).1[k] == queues[k]
  {
  }

  /** A channel that was not subscribed when a message was published never
      receives it, even if it subscribes right after. */
  lemma LateSubscriberMissesEarlierEvents<K, E>(p: Publisher<K>, queues: map<K, Queue<E>>, msg: E, late: K)
    requires p.subs <= queues.Keys && late in queues && late !in p.subs
    ensures Published(p, queues, msg).1[late] == queues[late]
    ensures var (p1, q1) := Published(p, queues, msg);
      var p2 := Subscribe(p1, late);
      p2.subs <= q1.Keys &&
      (HasRoom(queues[late]) ==> Published(p2, q1, msg).1[late].items == queues[late].items + [msg])
  {
  }

  /** Two publications to a subscriber with room for both deliver them in
      publication order. */
  lemma PublishKeepsOrder<K, E>(p: Publisher<K>, queues: map<K, Queue<E>>, a: E, b: E, k: K)
    requires p.subs <= queues.Keys && k in p.subs
    requires |queues[k].items| + 2 <= queues[k].capacity
    ensures var (p1, q1) := Published(p, queues, a);
      p1.subs <= q1.Keys && k in p1.subs &&
      Published(p1, q1, b).1[k].items == queues[k].items + [a, b]
  {
  }
}
