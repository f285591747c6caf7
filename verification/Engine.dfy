/** The engine: a registry of order books, and the handle that guards it with a lock. */
module Engines {
  import opened Types
  import opened BookSpec
  import opened EngineSpec
  import opened Orderbooks

  class Engine {
    var books: map<InstrumentId, Orderbook>

    /** All objects that make up the engine. */
    ghost function Footprint(): set<object>
      reads this
    {
      {this} + books.Values
    }

    /** Each instrument has its own book, with no event left over. */
    ghost predicate Valid()
      reads this, books.Values
    {
      && (forall i :: i in books ==>
            books[i].Valid() && books[i].instrument == i && books[i].drained == |books[i].book.log|)
      && (forall i, j :: i in books && j in books && i != j ==> books[i] != books[j])
    }

    ghost function State(): EngineState
      reads this, books.Values
    {
      map i | i in books :: books[i].book
    }

    constructor ()
      ensures Valid() && fresh(Footprint()) && State() == map[] && books == map[]
    {
      books := map[];
    }

    method RegisterInstrument(instrument: InstrumentId) returns (created: bool)
      requires Valid()
      modifies this
      ensures Valid() && fresh(Footprint() - old(Footprint()))
      ensures (State(), RegisterReply(created)) == Process(old(State()), Request.RegisterInstrument(instrument))
    {
      hide Orderbook.Valid, BookSpec.Execute, NewEvents;
      if instrument in books {
        assert State() == old(State()) == old(State())[instrument := old(State())[instrument]];
        return false;
      }
      var book := new Orderbook(instrument);
      books := books[instrument := book];
      assert forall i :: i in old(books) ==> books[i] == old(books[i]) && books[i].book == old(books[i].book);
      assert State() == old(State())[instrument := EMPTY_BOOK];
      return true;
    }

    function IsRegistered(instrument: InstrumentId): bool
      reads this
    {
      instrument in books
    }

    /** Run one action on a drained book and drain it again. */
    static method RunOn(book: Orderbook, action: Action) returns (output: Output, events: seq<Event>)
      requires book.Valid() && book.drained == |book.book.log|
      modifies book
      ensures book.Valid() && book.drained == |book.book.log|
      ensures (book.book, output) == BookSpec.Execute(book.instrument, old(book.book), action)
      ensures events == NewEvents(book.instrument, old(book.book), book.book)
    {
      hide Orderbook.Valid, BookSpec.Execute;
      LogGrows(book.instrument, book.book, action);
      match action {
        case PlaceOrder(order) =>
          var r := book.AddOrder(order);
          output := PlaceOutput(r);
        case CancelOrder(id) =>
          var r := book.CancelOrder(id);
          output := CancelOutput(r);
        case CancelOrders(ids) =>
          var cancelled, notFound := book.CancelOrders(ids);
          output := CancelsOutput(cancelled, notFound);
        case ModifyOrder(m) =>
          var r := book.ModifyOrder(m);
          output := ModifyOutput(r);
      }
      events := book.DrainEvents();
    }

    method Run(command: Command) returns (result: Result<(Output, seq<Event>), EngineError>)
      requires Valid()
      modifies books.Values
      ensures Valid()
      ensures match result
        case Err(e) => ExecuteReply(Err(e)) == Process(old(State()), Execute(command)).1 && State() == old(State())
        case Ok((output, events)) =>
          var (state, reply) := Process(old(State()), Execute(command));
          && State() == state
          && command.instrument in state
          && var top := state[command.instrument].sides.Top();
             reply == ExecuteReply(Ok(Executed(output, events, top.0, top.1)))
    {
      hide Orderbook.Valid, BookSpec.Execute, NewEvents;
      var instrument := command.instrument;
      if instrument !in books {
        return Err(UnknownInstrument(instrument));
      }
      var output, events := RunOn(books[instrument], command.action);
      assert forall i :: i in books && i != instrument ==> books[i].book == old(books[i].book);
      assert State() == old(State())[instrument := books[instrument].book];
      return Ok((output, events));
    }

    method OrderbookState(instrument: InstrumentId) returns (snapshot: Option<Snapshot>)
      requires Valid()
      ensures SnapshotReply(snapshot) == Process(State(), OrderbookSnapshot(instrument)).1
    {
      if instrument !in books {
        return None;
      }
      var bids, asks := books[instrument].OrderInfos();
      return Some(Snapshot(bids, asks));
    }

    function BestBid(instrument: InstrumentId): (best: Option<Price>)
      requires Valid()
      reads this, books.Values
      ensures instrument in books ==> best == State()[instrument].sides.Top().0
      ensures instrument !in books ==> best == None
    {
      if instrument in books then books[instrument].BestBid() else None
    }

    function BestAsk(instrument: InstrumentId): (best: Option<Price>)
      requires Valid()
      reads this, books.Values
      ensures instrument in books ==> best == State()[instrument].sides.Top().1
      ensures instrument !in books ==> best == None
    {
      if instrument in books then books[instrument].BestAsk() else None
    }
  }

  /** The lock-guarded handle: the whole engine answers one request at a time. */
  class MutexEngineHandle {
    const engine: Engine

    constructor (engine: Engine)
      ensures this.engine == engine
    {
      this.engine := engine;
    }

    method Submit(command: Command) returns (reply: Result<Executed, EngineError>)
      requires engine.Valid()
      modifies engine, engine.books.Values
      ensures engine.Valid() && engine.books == old(engine.books)
      ensures (engine.State(), ExecuteReply(reply)) == Process(old(engine.State()), Execute(command))
    {
      hide Orderbook.Valid, BookSpec.Execute, NewEvents;
      var result := engine.Run(command);
      match result {
        case Err(e) =>
          return Err(e);
        case Ok((output, events)) =>
          var bestBid := engine.BestBid(command.instrument);
          var bestAsk := engine.BestAsk(command.instrument);
          return Ok(Executed(output, events, bestBid, bestAsk));
      }
    }

    method TopOfBook(instrument: InstrumentId) returns (top: Option<(Option<Price>, Option<Price>)>)
      requires engine.Valid()
      ensures TopReply(top) == Process(engine.State(), TopOfBookQuery(instrument)).1
    {
      if !engine.IsRegistered(instrument) {
        return None;
      }
      return Some((engine.BestBid(instrument), engine.BestAsk(instrument)));
    }
  }
}
