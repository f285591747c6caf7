/** The router: many shards that together answer as one engine. */
module Routers {
  import opened Types
  import opened BookSpec
  import opened EngineSpec
  import opened Engines
  import opened ShardMaps
  import opened Shards

  class Router {
    const routes: ShardMap
    const shards: seq<Shard>

    ghost var Repr: set<object>

    /** Each shard is an island, and holds only instruments that are routed to it. */
    ghost predicate Valid()
      reads this, Repr
      ensures Valid() ==> this in Repr
    {
      && this in Repr && routes in Repr && routes.Valid() && |shards| == routes.shardCount
      && (forall k :: 0 <= k < |shards| ==>
            && shards[k] in Repr && shards[k].Repr <= Repr
            && this !in shards[k].Repr && routes !in shards[k].Repr
            && shards[k].Valid())
      && (forall j, k :: 0 <= j < k < |shards| ==> shards[j].Repr !! shards[k].Repr)
      && (forall k, i :: 0 <= k < |shards| && i in shards[k].State() ==> routes.ShardFor(i) == k)
    }

    /** What the router would answer about an instrument. */
    ghost function At(i: InstrumentId): Option<Book>
      requires Valid()
      reads this, Repr
    {
      Lookup(shards[routes.ShardFor(i)].State(), i)
    }

    /** The router answers for each instrument as the engine `e` does. */
    ghost predicate Agrees(e: EngineState)
      requires Valid()
      reads this, Repr
    {
      forall i: InstrumentId :: At(i) == Lookup(e, i)
    }

    /** One shard for each id, none with an instrument. */
    constructor (routes: ShardMap)
      requires routes.Valid()
      ensures Valid() && fresh(Repr - {routes}) && this.routes == routes
      ensures Agrees(map[])
    {
      hide Shard.Valid;
      var started: seq<Shard> := [];
      ghost var all: set<object> := {};
      for k := 0 to routes.shardCount
        invariant |started| == k && fresh(all)
        invariant forall j :: 0 <= j < k ==>
          started[j] in all && started[j].Repr <= all && started[j].Valid() && started[j].State() == map[]
        invariant forall i, j :: 0 <= i < j < k ==> started[i].Repr !! started[j].Repr
      {
        var shard := new Shard(k);
        started := started + [shard];
        all := all + {shard} + shard.Repr;
      }
      this.routes := routes;
      shards := started;
      new;
      Repr := {this, routes} + all;
    }

    /** Send a request to the shard that owns its instrument and hand back the reply. */
    method Dispatch(request: Request, ghost e: EngineState) returns (reply: Reply)
      requires Valid() && Agrees(e)
      modifies Repr
      ensures Valid() && fresh(Repr - old(Repr))
      ensures reply == Process(e, request).1
      ensures Agrees(Process(e, request).0)
      ensures routes.overrides == old(routes.overrides)
      ensures forall k :: 0 <= k < |shards| && k != routes.ShardFor(request.Target()) ==>
                shards[k].State() == old(shards[k].State())
    {
      hide Process, ProcessBook, Shard.Valid, Shard.State;
      var target := request.Target();
      var owner := routes.ShardFor(target);
      var shard := shards[owner];
      assert At(target) == Lookup(e, target);
      ProcessIsLocal(shard.State(), e, request);
      ProcessIsLocal(e, e, request);
      reply := shard.Process(request);
      Repr := Repr + shard.Repr;
      forall k | 0 <= k < |shards| && k != owner
        ensures shards[k].Repr == old(shards[k].Repr) && shards[k].Repr !! shard.Repr
        ensures shards[k].Valid() && shards[k].State() == old(shards[k].State())
      {
        assert old(shards[k].Repr) !! old(shard.Repr);
      }
      forall i | i in shard.State() ensures routes.ShardFor(i) == owner {
        assert i != target ==> Lookup(shard.State(), i) == old(Lookup(shard.State(), i));
      }
      assert Valid();
      forall i: InstrumentId ensures At(i) == Lookup(Process(e, request).0, i) {
        assert old(At(i)) == Lookup(e, i);
      }
    }

    // --- lifting the replies: none of these ever sees a reply of another kind ------------------

    method Submit(command: Command, ghost e: EngineState) returns (executed: Result<Executed, EngineError>)
      requires Valid() && Agrees(e)
      modifies Repr
      ensures Valid() && fresh(Repr - old(Repr))
      ensures ExecuteReply(executed) == Process(e, Execute(command)).1
      ensures Agrees(Process(e, Execute(command)).0)
    {
      var reply := Dispatch(Execute(command), e);
      match reply {
        case ExecuteReply(r) => return r;
        case _ => assert false;
      }
    }

    method Register(instrument: InstrumentId, ghost e: EngineState) returns (created: bool)
      requires Valid() && Agrees(e)
      modifies Repr
      ensures Valid() && fresh(Repr - old(Repr))
      ensures created <==> instrument !in e
      ensures Agrees(Process(e, RegisterInstrument(instrument)).0)
    {
      var reply := Dispatch(RegisterInstrument(instrument), e);
      match reply {
        case RegisterReply(r) => return r;
        case _ => assert false;
      }
    }
  }
}
