/** The loops that the shard threads and the consumer thread run over their channels. */
module ThreadLoops {
  import opened Types
  import opened BookSpec
  import opened EngineSpec
  import opened Shards

  /**
   An unbounded queue between threads. `future` is what the other threads will still send, of
   which any part may arrive at any time; the channel is closed once it is empty.
   */
  class Channel<T> {
    var queue: seq<T>
    var future: seq<T>

    /** What a receiver has still to get. */
    function Coming(): seq<T>
      reads this
    {
      queue + future
    }

    method Send(x: T)
      modifies this
      ensures queue == old(queue) + [x] && future == old(future)
    {
      queue := queue + [x];
    }

    /** The other threads go on; if there is nothing to receive, this waits for them. */
    method Wait()
      modifies this
      ensures Coming() == old(Coming())
      ensures queue == [] ==> future == []
    {
      assert queue == [] && future != [] ==> |future| > 0;
      var n :| 0 <= n <= |future| && (queue == [] && future != [] ==> n > 0);
      queue, future := queue + future[..n], future[n..];
      assert old(future)[..n] + future == old(future);
    }

    /** The next message, or none once the channel is closed and empty. */
    method Receive() returns (x: Option<T>)
      modifies this
      ensures x.None? ==> old(Coming()) == [] && Coming() == []
      ensures x.Some? ==> old(Coming()) == [x.value] + Coming()
    {
      Wait();
      if queue == [] {
        return None;
      }
      x := Some(queue[0]);
      queue := queue[1..];
    }
  }

  class EventConsumer {
    var seen: seq<Event>

    constructor ()
      ensures seen == []
    {
      seen := [];
    }

    method Consume(e: Event)
      modifies this
      ensures seen == old(seen) + [e]
    {
      seen := seen + [e];
    }
  }

  /** The consumer thread: every event once, in order, until the last sender is gone. */
  method RunConsumer(rx: Channel<Event>, consumer: EventConsumer)
    modifies rx, consumer
    ensures rx.Coming() == []
    ensures consumer.seen == old(consumer.seen) + old(rx.Coming())
  {
    while true
      invariant consumer.seen + rx.Coming() == old(consumer.seen) + old(rx.Coming())
      decreases |rx.Coming()|
    {
      var e := rx.Receive();
      match e {
        case None =>
          return;
        case Some(event) =>
          consumer.Consume(event);
      }
    }
  }

  /** Each request brings the channel that its client waits at. */
  datatype Envelope = Envelope(request: Request, replyTo: Channel<Reply>)

  function Requests(envelopes: seq<Envelope>): seq<Request> {
    seq(|envelopes|, i requires 0 <= i < |envelopes| => envelopes[i].request)
  }

  function ReplyChannels(envelopes: seq<Envelope>): set<Channel<Reply>> {
    set e | e in envelopes :: e.replyTo
  }

  ghost predicate OwnChannels(envelopes: seq<Envelope>, shard: Shard, bus: Channel<Event>)
    reads shard
  {
    && (forall i, j :: 0 <= i < j < |envelopes| ==> envelopes[i].replyTo != envelopes[j].replyTo)
    && (forall i :: 0 <= i < |envelopes| ==>
          envelopes[i].replyTo !in shard.Repr && envelopes[i].replyTo as object != bus)
  }

  /** Serving one more request. */
  lemma ServeOneMore(e: EngineState, envelopes: seq<Envelope>, n: nat)
    requires n < |envelopes|
    ensures var (state, replies) := ServeFrom(e, Requests(envelopes[..n]));
      var (state', reply) := Process(state, envelopes[n].request);
      && ServeFrom(e, Requests(envelopes[..n + 1])) == (state', replies + [reply])
      && AllEvents(replies + [reply]) == AllEvents(replies) + EventsOf(reply)
  {
    assert Requests(envelopes[..n + 1])[..n] == Requests(envelopes[..n]);
    var replies := ServeFrom(e, Requests(envelopes[..n])).1;
    assert forall r: Reply :: (replies + [r])[..n] == replies;
  }

  lemma NothingServed(e: EngineState)
    ensures ServeFrom(e, Requests([])) == (e, []) && AllEvents([]) == []
  {}

  /** Process one request, publish its events, and only then reply. */
  method Answer(shard: Shard, envelope: Envelope, bus: Channel<Event>) returns (reply: Reply)
    requires shard.Valid() && OwnChannels([envelope], shard, bus) && bus !in shard.Repr
    modifies shard.Repr, bus, envelope.replyTo
    ensures shard.Valid() && fresh(shard.Repr - old(shard.Repr))
    ensures (shard.State(), reply) == Process(old(shard.State()), envelope.request)
    ensures bus.queue == old(bus.queue) + EventsOf(reply)
    ensures envelope.replyTo.queue == old(envelope.replyTo.queue) + [reply]
  {
    hide Process, Shard.Valid, Shard.State, EventsOf;
    assert [envelope][0] == envelope;
    reply := shard.Process(envelope.request);
    Publish(EventsOf(reply), bus);
    SendReply(envelope, reply, bus);
  }

  /** A reply is due only once its events have been handed to the bus. */
  method SendReply(envelope: Envelope, reply: Reply, ghost bus: Channel<Event>)
    requires exists before :: before + EventsOf(reply) == bus.queue
    modifies envelope.replyTo
    ensures envelope.replyTo.queue == old(envelope.replyTo.queue) + [reply]
  {
    envelope.replyTo.Send(reply);
  }

  /**
   The shard thread, until the last sender is gone: each request, in the order of arrival, gets
   its reply at its own channel, and the events of all of them go to the bus.
   */
  method RunShard(shard: Shard, rx: Channel<Envelope>, bus: Channel<Event>)
    requires shard.Valid() && rx !in shard.Repr && bus !in shard.Repr && rx as object != bus
    requires OwnChannels(rx.Coming(), shard, bus)
    requires forall e :: e in rx.Coming() ==> e.replyTo as object != rx
    modifies shard.Repr, rx, bus, ReplyChannels(rx.Coming())
    ensures shard.Valid() && rx.Coming() == []
    ensures var envelopes := old(rx.Coming());
      var (state, replies) := ServeFrom(old(shard.State()), Requests(envelopes));
      && shard.State() == state
      && bus.queue == old(bus.queue) + AllEvents(replies)
      && forall i :: 0 <= i < |envelopes| ==>
           envelopes[i].replyTo.queue == old(envelopes[i].replyTo.queue) + [replies[i]]
  {
    hide Process, Shard.Valid, Shard.State, ServeFrom, AllEvents, EventsOf, Requests;
    NothingServed(shard.State());
    ghost var envelopes, before, bus0 := rx.Coming(), shard.State(), bus.queue;
    ghost var done, replies := 0, [];
    while true
      invariant |replies| == done <= |envelopes| && rx.Coming() == envelopes[done..]
      invariant shard.Valid() && fresh(shard.Repr - old(shard.Repr))
      invariant rx !in shard.Repr && bus !in shard.Repr && OwnChannels(envelopes, shard, bus)
      invariant (shard.State(), replies) == ServeFrom(before, Requests(envelopes[..done]))
      invariant bus.queue == bus0 + AllEvents(replies)
      invariant forall i :: 0 <= i < |envelopes| ==>
        envelopes[i].replyTo.queue == old(envelopes[i].replyTo.queue) + if i < done then [replies[i]] else []
      decreases |rx.Coming()|
    {
      var next := rx.Receive();
      if next.None? {
        break;
      }
      ServeOneMore(before, envelopes, done);
      var reply := Answer(shard, next.value, bus);
      replies := replies + [reply];
      done := done + 1;
    }
    assert envelopes[..done] == envelopes;
  }

  method Publish(events: seq<Event>, bus: Channel<Event>)
    modifies bus
    ensures bus.queue == old(bus.queue) + events && bus.future == old(bus.future)
  {
    for i := 0 to |events|
      invariant bus.queue == old(bus.queue) + events[..i] && bus.future == old(bus.future)
    {
      bus.Send(events[i]);
      assert events[..i + 1] == events[..i] + [events[i]];
    }
    assert events[..|events|] == events;
  }
}
