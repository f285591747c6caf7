/** The single engine that every deployment must agree with: books by instrument. */
module EngineSpec {
  import opened Types
  import opened Queues
  import opened Matching
  import opened BookSpec

  type EngineState = map<InstrumentId, Book>

  datatype EngineError = UnknownInstrument(instrument: InstrumentId)

  /** The events are those the command produced; the prices are those after it. */
  datatype Executed = Executed(
    output: Output, events: seq<Event>, bestBid: Option<Price>, bestAsk: Option<Price>)

  datatype Snapshot = Snapshot(bids: seq<LevelInfo>, asks: seq<LevelInfo>)

  datatype Request =
    | Execute(command: Command)
    | RegisterInstrument(instrument: InstrumentId)
    | OrderbookSnapshot(instrument: InstrumentId)
    | TopOfBookQuery(instrument: InstrumentId)
  {
    /** The instrument a request is about. */
    function Target(): InstrumentId {
      if Execute? then command.instrument else instrument
    }
  }

  datatype Reply =
    | ExecuteReply(executed: Result<Executed, EngineError>)
    | RegisterReply(created: bool)
    | SnapshotReply(snapshot: Option<Snapshot>)
    | TopReply(top: Option<(Option<Price>, Option<Price>)>)

  /** What one book, if registered, becomes and answers. */
  function ProcessBook(instrument: InstrumentId, b: Option<Book>, r: Request): (Option<Book>, Reply) {
    match r
    case Execute(c) =>
      if b.None? then (b, ExecuteReply(Err(UnknownInstrument(instrument))))
      else
        var (b', output) := BookSpec.Execute(instrument, b.value, c.action);
        (Some(b'),
         ExecuteReply(Ok(Executed(output, NewEvents(instrument, b.value, b'), b'.sides.Top().0, b'.sides.Top().1))))
    case RegisterInstrument(_) =>
      (Some(if b.None? then EMPTY_BOOK else b.value), RegisterReply(b.None?))
    case OrderbookSnapshot(_) =>
      (b, SnapshotReply(if b.None? then None else Some(Snapshot(Depth(b.value.sides.bids), Depth(b.value.sides.asks)))))
    case TopOfBookQuery(_) =>
      (b, TopReply(if b.None? then None else Some(b.value.sides.Top())))
  }

  /** The events that lead from one book to a later one. */
  function NewEvents(instrument: InstrumentId, b: Book, b': Book): seq<Event> {
    if |b.log| <= |b'.log| then EventsSince(instrument, b'.log, |b.log|) else []
  }

  function Lookup(e: EngineState, i: InstrumentId): Option<Book> {
    if i in e then Some(e[i]) else None
  }

  function Process(e: EngineState, r: Request): (EngineState, Reply) {
    var i := r.Target();
    var (b', reply) := ProcessBook(i, Lookup(e, i), r);
    (if b'.Some? then e[i := b'.value] else e, reply)
  }

  /** What an engine becomes and answers over a sequence of requests. */
  function ServeFrom(e: EngineState, requests: seq<Request>): (r: (EngineState, seq<Reply>))
    ensures |r.1| == |requests|
  {
    if requests == [] then (e, [])
    else
      var (e', replies) := ServeFrom(e, requests[..|requests| - 1]);
      var (e'', reply) := Process(e', requests[|requests| - 1]);
      (e'', replies + [reply])
  }

  /** The same for an engine that starts without instruments. */
  function Serve(requests: seq<Request>): (EngineState, seq<Reply>) {
    ServeFrom(map[], requests)
  }

  function EventsOf(r: Reply): seq<Event> {
    if r.ExecuteReply? && r.executed.Ok? then r.executed.value.events else []
  }

  /** The events of a sequence of replies. */
  function AllEvents(replies: seq<Reply>): seq<Event> {
    if replies == [] then [] else AllEvents(replies[..|replies| - 1]) + EventsOf(replies[|replies| - 1])
  }

  /** A request reads and writes the book of its own instrument only. */
  lemma ProcessIsLocal(e: EngineState, f: EngineState, r: Request)
    requires Lookup(e, r.Target()) == Lookup(f, r.Target())
    ensures Process(e, r).1 == Process(f, r).1
    ensures Lookup(Process(e, r).0, r.Target()) == Lookup(Process(f, r).0, r.Target())
    ensures forall i :: i != r.Target() ==> Lookup(Process(e, r).0, i) == Lookup(e, i)
  {}

  lemma QueriesChangeNothing(e: EngineState, r: Request)
    requires r.OrderbookSnapshot? || r.TopOfBookQuery?
    ensures Process(e, r).0 == e
  {
    var i := r.Target();
    if i in e {
      assert e[i := e[i]] == e;
    }
  }
}
