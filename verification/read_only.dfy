/** The pending read-index requests of a leader: raft/read_only.go:42-141, a map and a queue of
    contexts that together stand for one sequence of requests in arrival order. */
module ReadOnlyQueue {
  import opened RaftTypes
  import opened RaftNode

  class ReadOnly {
    var pendingReadIndex: map<Ctx, PendingRead>
    var readIndexQueue: seq<Ctx>

    ghost predicate Valid()
      reads this
    {
      Fits(pendingReadIndex, readIndexQueue)
    }

    ghost function Contents(): seq<PendingRead>
      requires Valid()
      reads this
    {
      Lookup(pendingReadIndex, readIndexQueue)
    }

    constructor ()
      ensures Valid() && Contents() == []
    {
      pendingReadIndex, readIndexQueue := map[], [];
    }

    method AddRequest(index: nat, from: Id, ctx: Ctx)
      requires Valid()
      modifies this
      ensures Valid() && Contents() == AddRead(old(Contents()), index, from, ctx)
    {
      KnownIsQueued(pendingReadIndex, readIndexQueue, ctx);
      if ctx in pendingReadIndex { return; }
      pendingReadIndex := pendingReadIndex[ctx := PendingRead(ctx, from, index, {})];
      readIndexQueue := readIndexQueue + [ctx];
      assert Contents() == old(Contents()) + [PendingRead(ctx, from, index, {})];
    }

    /** The number of acknowledgements including the leader's own, or 0 for an unknown request. */
    method RecvAck(ctx: Ctx, from: Id) returns (n: nat)
      requires Valid()
      modifies this`pendingReadIndex
      ensures Valid() && Contents() == AckRead(old(Contents()), ctx, from)
      ensures var k := FindRead(Contents(), ctx);
              n == if k == |Contents()| then 0 else |Contents()[k].acks| + 1
    {
      FindsQueued(pendingReadIndex, readIndexQueue, ctx);
      if ctx !in pendingReadIndex { return 0; }
      var rs := pendingReadIndex[ctx];
      rs := rs.(acks := rs.acks + {from});
      pendingReadIndex := pendingReadIndex[ctx := rs];
      assert Contents() == AckRead(old(Contents()), ctx, from);
      FindsQueued(pendingReadIndex, readIndexQueue, ctx);
      n := |rs.acks| + 1;
    }

    /** Dequeues up to and including the request with this context; nothing if there is none. */
    method Advance(ctx: Ctx) returns (rss: seq<PendingRead>)
      requires Valid()
      modifies this
      ensures Valid()
      ensures var k := FindRead(old(Contents()), ctx);
              if k == |old(Contents())| then rss == [] && Contents() == old(Contents())
              else rss == old(Contents())[..k + 1] && Contents() == old(Contents())[k + 1..]
    {
      FindsQueued(pendingReadIndex, readIndexQueue, ctx);
      ghost var was := Contents();
      var i: nat, found := 0, false;
      rss := [];
      while i < |readIndexQueue| && !found
        invariant i <= |readIndexQueue| && rss == was[..i]
        invariant found ==> i > 0 && readIndexQueue[i - 1] == ctx
        invariant !found ==> ctx !in readIndexQueue[..i]
        decreases |readIndexQueue| - i, !found
      {
        var okctx := readIndexQueue[i];
        i := i + 1;
        rss := rss + [pendingReadIndex[okctx]];
        found := okctx == ctx;
      }
      if !found { return []; }
      Release(i, rss);
    }

    /** The dequeued requests leave the map too. */
    method Release(i: nat, rss: seq<PendingRead>)
      requires Valid() && i <= |readIndexQueue| && rss == Contents()[..i]
      modifies this
      ensures Valid() && Contents() == old(Contents())[i..]
    {
      ghost var pending, queue := pendingReadIndex, readIndexQueue;
      readIndexQueue := readIndexQueue[i..];
      for k := 0 to |rss|
        invariant readIndexQueue == queue[i..]
        invariant pendingReadIndex == pending - Front(queue, k)
      {
        pendingReadIndex := pendingReadIndex - {rss[k].ctx};
        assert queue[..k + 1] == queue[..k] + [queue[k]];
      }
      RestFits(pending, queue, i);
    }

    method LastPendingRequestCtx() returns (ctx: Ctx)
      requires Valid()
      ensures ctx == if Contents() == [] then "" else Contents()[|Contents()| - 1].ctx
    {
      if |readIndexQueue| == 0 { return ""; }
      ctx := readIndexQueue[|readIndexQueue| - 1];
    }
  }

  /** The queue lists every known context once. */
  ghost predicate Fits(pending: map<Ctx, PendingRead>, queue: seq<Ctx>) {
    && (forall c | c in queue :: c in pending)
    && (forall c | c in pending :: c in queue && pending[c].ctx == c)
    && (forall j, k | 0 <= j < k < |queue| :: queue[j] != queue[k])
  }

  ghost function Front(queue: seq<Ctx>, k: nat): set<Ctx>
    requires k <= |queue|
  {
    set c | c in queue[..k]
  }

  lemma RestFits(pending: map<Ctx, PendingRead>, queue: seq<Ctx>, i: nat)
    requires Fits(pending, queue) && i <= |queue|
    ensures Fits(pending - Front(queue, i), queue[i..])
    ensures Lookup(pending - Front(queue, i), queue[i..]) == Lookup(pending, queue)[i..]
  {
    assert queue == queue[..i] + queue[i..];
    forall c | c in queue[i..] ensures c !in Front(queue, i) { }
  }

  ghost function Lookup(pending: map<Ctx, PendingRead>, queue: seq<Ctx>): seq<PendingRead>
    requires forall c | c in queue :: c in pending
  {
    seq(|queue|, k requires 0 <= k < |queue| => pending[queue[k]])
  }

  lemma KnownIsQueued(pending: map<Ctx, PendingRead>, queue: seq<Ctx>, ctx: Ctx)
    requires Fits(pending, queue)
    ensures ctx in pending <==> exists k :: 0 <= k < |queue| && Lookup(pending, queue)[k].ctx == ctx
  {
    if ctx in pending {
      var k :| 0 <= k < |queue| && queue[k] == ctx;
      assert Lookup(pending, queue)[k].ctx == ctx;
    }
  }

  lemma FindsQueued(pending: map<Ctx, PendingRead>, queue: seq<Ctx>, ctx: Ctx)
    requires Fits(pending, queue)
    ensures ctx in pending <==> FindRead(Lookup(pending, queue), ctx) < |queue|
    ensures forall k: nat | k <= FindRead(Lookup(pending, queue), ctx) && k < |queue| ::
              queue[k] == ctx <==> k == FindRead(Lookup(pending, queue), ctx)
  {
    KnownIsQueued(pending, queue, ctx);
    forall k: nat | k < |queue| ensures Lookup(pending, queue)[k].ctx == queue[k] { }
  }
}
