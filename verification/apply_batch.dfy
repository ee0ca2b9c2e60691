/** Applying committed requests to the store with write batching: kvbatchOperator and the request
    loop of node/state_machine.go, over the write batch of rockredis/rockredis.go:976-1014. A command
    reads and writes the one key it names; what it does to that key is a parameter. */
module ApplyBatch {
  datatype Option = None | Some(value: string)

  /** How the request loop sees a request: a command that may be batched, another known command,
      an unknown one, one that does not parse, or data that is not a command. */
  datatype Kind = Batchable | Single | Unsupported | Malformed | NotCommand

  datatype Request = Request(id: nat, kind: Kind, key: string, cmd: string)

  /** What a command does with the stored value of its key. A failure may leave writes behind. */
  datatype Exec = Wrote(value: Option, resp: string) | Failed(err: string, junk: map<string, Option>)

  datatype Reply = Ok(resp: string) | Error(err: string)
  datatype Answer = Answer(id: nat, reply: Reply)

  const WRITE_FAILED := "write failed"
  const TOO_MUCH := "the batch size exceed the limit"
  const MAX_BATCH := 100

  type Db = map<string, string>
  type Writes = map<string, Option>
  type Command = (string, Option) -> Exec

  function Get(db: Db, key: string): Option { if key in db then Some(db[key]) else None }

  function Overlay(db: Db, wb: Writes): Db {
    map k | k in db.Keys + wb.Keys && (k in wb ==> wb[k].Some?) :: if k in wb then wb[k].value else db[k]
  }

  /** Reading through a write batch: its last word on the key, or else the store. */
  lemma OverlayReads(db: Db, wb: Writes, key: string)
    ensures Get(Overlay(db, wb), key) == if key in wb then wb[key] else Get(db, key)
  {
  }

  /** A write batch over one more key that it does not touch yet. */
  lemma OverlayOneMore(db: Db, wb: Writes, key: string, v: Option)
    requires key !in wb
    ensures Get(Overlay(db, wb), key) == Get(db, key)
    ensures Overlay(db, wb[key := v]) == Overlay(Overlay(db, wb), map[key := v])
  {
  }

  lemma OverlayNothing(db: Db)
    ensures Overlay(db, map[]) == db
  {
  }

  /** Failures that leave the write batch alone need no abort. */
  predicate NeedsAbort(err: string) { err != TOO_MUCH }

  ghost predicate WellBehaved(exec: Command) {
    forall cmd: string, v: Option :: exec(cmd, v).Failed? && exec(cmd, v).err == TOO_MUCH ==> exec(cmd, v).junk == map[]
  }

  lemma QuietFailure(exec: Command, wb: Writes, cmd: string, v: Option)
    requires WellBehaved(exec) && exec(cmd, v).Failed? && !NeedsAbort(exec(cmd, v).err)
    ensures wb + exec(cmd, v).junk == wb
  {
  }

  // ---------------------------------------------------------------- what becomes of a request

  /** Refused as no command, waiting in the batch, successful, failed by its own execution, or lost
      although its execution succeeded. */
  datatype Fate = Refused | Waits(resp: string) | Succeeds(resp: string) | Fails(err: string) | Lost(err: string)

  predicate IsCommand(r: Request) { r.kind.Batchable? || r.kind.Single? }

  function Complaint(r: Request): string {
    match r.kind
    case Malformed => "parse error"
    case NotCommand => "unknown data"
    case _ => "invalid command"
  }

  /** What request r does on this store. */
  function Effect(exec: Command, db: Db, r: Request): Exec { exec(r.cmd, Get(db, r.key)) }

  function AfterOne(exec: Command, db: Db, r: Request): Db {
    var e := Effect(exec, db, r);
    if e.Wrote? then Overlay(db, map[r.key := e.value]) else db
  }

  /** A successful request sets its own key to what its command wrote, and no other. */
  lemma AfterOneReads(exec: Command, db: Db, r: Request, key: string)
    ensures exec(r.cmd, Get(db, r.key)).Wrote? && key == r.key ==> Get(AfterOne(exec, db, r), key) == exec(r.cmd, Get(db, r.key)).value
    ensures exec(r.cmd, Get(db, r.key)).Failed? || key != r.key ==> Get(AfterOne(exec, db, r), key) == Get(db, key)
  {
    hide Overlay;
    var e := exec(r.cmd, Get(db, r.key));
    if e.Wrote? { OverlayReads(db, map[r.key := e.value], key); }
  }

  /** The store after the successful requests, and no others, one at a time. */
  function After(exec: Command, start: Db, reqs: seq<Request>, fates: seq<Fate>): Db
    requires |reqs| == |fates|
    decreases |reqs|
  {
    if reqs == [] then start
    else
      var n := |reqs| - 1;
      var db := After(exec, start, reqs[..n], fates[..n]);
      if fates[n].Succeeds? then AfterOne(exec, db, reqs[n]) else db
  }

  /** Only what is not a command is refused; a command fails only if it fails by itself on this
      store, and succeeds or is lost only if it does not. */
  predicate Suits(exec: Command, db: Db, r: Request, f: Fate) {
    if !IsCommand(r) then f.Refused?
    else
      var e := Effect(exec, db, r);
      match f
      case Succeeds(resp) => e.Wrote? && e.resp == resp
      case Fails(err) => e.Failed? && e.err == err
      case Lost(_) => e.Wrote?
      case _ => false
  }

  /** Every request has the fate it earns on the store left by the successful ones before it. */
  predicate Fits(exec: Command, start: Db, reqs: seq<Request>, fates: seq<Fate>)
    requires |reqs| == |fates|
    decreases |reqs|
  {
    reqs == [] ||
      var n := |reqs| - 1;
      && Fits(exec, start, reqs[..n], fates[..n])
      && Suits(exec, After(exec, start, reqs[..n], fates[..n]), reqs[n], fates[n])
  }

  lemma OneMore(exec: Command, start: Db, reqs: seq<Request>, fates: seq<Fate>, r: Request, f: Fate)
    requires |reqs| == |fates|
    ensures After(exec, start, reqs + [r], fates + [f]) ==
            var db := After(exec, start, reqs, fates); if f.Succeeds? then AfterOne(exec, db, r) else db
    ensures Fits(exec, start, reqs + [r], fates + [f]) <==>
            Fits(exec, start, reqs, fates) && Suits(exec, After(exec, start, reqs, fates), r, f)
  {
    assert (reqs + [r])[..|reqs|] == reqs && (fates + [f])[..|reqs|] == fates;
  }

  predicate NoneLost(fates: seq<Fate>) { forall k | 0 <= k < |fates| :: !fates[k].Lost? }

  predicate NoneWaits(fates: seq<Fate>) { forall k | 0 <= k < |fates| :: !fates[k].Waits? }

  /** Once its batch is written, or once it is dropped with an error, what waits is decided. */
  function Settle(fates: seq<Fate>, err: Option): seq<Fate> {
    seq(|fates|, k requires 0 <= k < |fates| => SettleOne(fates[k], err))
  }

  function SettleOne(f: Fate, err: Option): Fate {
    if !f.Waits? then f else if err.None? then Succeeds(f.resp) else Lost(err.value)
  }

  lemma SettleMore(fates: seq<Fate>, f: Fate, err: Option)
    ensures Settle(fates + [f], err) == Settle(fates, err) + [SettleOne(f, err)]
  {
  }

  lemma SettleOnce(fates: seq<Fate>, err: Option, again: Option)
    ensures Settle(Settle(fates, err), again) == Settle(fates, err) && NoneWaits(Settle(fates, err))
  {
  }

  /** The error of a lost request plays no part. */
  lemma {:induction false} AnyError(exec: Command, start: Db, reqs: seq<Request>, fates: seq<Fate>, a: string, b: string)
    requires |reqs| == |fates| && Fits(exec, start, reqs, Settle(fates, Some(a)))
    ensures Fits(exec, start, reqs, Settle(fates, Some(b)))
    ensures After(exec, start, reqs, Settle(fates, Some(a))) == After(exec, start, reqs, Settle(fates, Some(b)))
    decreases |reqs|
  {
    if reqs != [] {
      var n := |reqs| - 1;
      assert Settle(fates, Some(a))[..n] == Settle(fates[..n], Some(a));
      assert Settle(fates, Some(b))[..n] == Settle(fates[..n], Some(b));
      AnyError(exec, start, reqs[..n], fates[..n], a, b);
    }
  }

  // ---------------------------------------------------------------- the reference: one at a time

  /** A request by itself on this store. */
  function FateOf(exec: Command, db: Db, r: Request): Fate {
    var e := Effect(exec, db, r);
    if !IsCommand(r) then Refused else if e.Wrote? then Succeeds(e.resp) else Fails(e.err)
  }

  /** Each request on the store left by those before it. */
  function OneByOne(exec: Command, start: Db, reqs: seq<Request>): (fates: seq<Fate>)
    ensures |fates| == |reqs| && NoneLost(fates) && NoneWaits(fates)
    decreases |reqs|
  {
    if reqs == [] then []
    else
      var n := |reqs| - 1;
      var fates := OneByOne(exec, start, reqs[..n]);
      fates + [FateOf(exec, After(exec, start, reqs[..n], fates), reqs[n])]
  }

  /** Unless something is lost, there is no telling the run from one request at a time. */
  lemma {:induction false} NoneLostIsOneByOne(exec: Command, start: Db, reqs: seq<Request>, fates: seq<Fate>)
    requires |reqs| == |fates| && Fits(exec, start, reqs, fates)
    ensures NoneLost(fates) <==> fates == OneByOne(exec, start, reqs)
    decreases |reqs|
  {
    if reqs != [] {
      var n := |reqs| - 1;
      NoneLostIsOneByOne(exec, start, reqs[..n], fates[..n]);
      assert fates == fates[..n] + [fates[n]];
      if NoneLost(fates) {
        assert NoneLost(fates[..n]);
      }
    }
  }

  function ReplyTo(r: Request, f: Fate): Reply {
    match f
    case Refused => Error(Complaint(r))
    case Waits(resp) => Ok(resp)
    case Succeeds(resp) => Ok(resp)
    case Fails(err) => Error(err)
    case Lost(err) => Error(err)
  }

  function Replies(reqs: seq<Request>, fates: seq<Fate>): seq<Reply>
    requires |reqs| == |fates|
  {
    seq(|reqs|, k requires 0 <= k < |reqs| => ReplyTo(reqs[k], fates[k]))
  }

  lemma {:induction false} FitsAt(exec: Command, start: Db, reqs: seq<Request>, fates: seq<Fate>, k: nat)
    requires |reqs| == |fates| && Fits(exec, start, reqs, fates) && k < |reqs|
    ensures Fits(exec, start, reqs[..k], fates[..k])
    ensures Suits(exec, After(exec, start, reqs[..k], fates[..k]), reqs[k], fates[k])
    decreases |reqs|
  {
    var n := |reqs| - 1;
    if k < n {
      assert reqs[..n][..k] == reqs[..k] && fates[..n][..k] == fates[..k];
      FitsAt(exec, start, reqs[..n], fates[..n], k);
    }
  }

  lemma {:induction false} OneByOneAt(exec: Command, start: Db, reqs: seq<Request>, k: nat)
    requires k < |reqs|
    ensures OneByOne(exec, start, reqs)[k] ==
            FateOf(exec, After(exec, start, reqs[..k], OneByOne(exec, start, reqs[..k])), reqs[k])
    decreases |reqs|
  {
    var n := |reqs| - 1;
    if k < n {
      assert reqs[..n][..k] == reqs[..k];
      OneByOneAt(exec, start, reqs[..n], k);
    }
  }

  lemma FirstLost(fates: seq<Fate>) returns (k: nat)
    requires !NoneLost(fates)
    ensures k < |fates| && fates[k].Lost? && NoneLost(fates[..k])
  {
    k := 0;
    while !fates[k].Lost?
      invariant k < |fates| && NoneLost(fates[..k]) && exists l :: k <= l < |fates| && fates[l].Lost?
      decreases |fates| - k
    {
      k := k + 1;
    }
  }

  /** And if something is lost, the replies tell: the first lost request would have succeeded. */
  lemma LossShows(exec: Command, start: Db, reqs: seq<Request>, fates: seq<Fate>)
    requires |reqs| == |fates| && Fits(exec, start, reqs, fates)
    ensures NoneLost(fates) <==> Replies(reqs, fates) == Replies(reqs, OneByOne(exec, start, reqs))
  {
    hide Fits, After, OneByOne;
    NoneLostIsOneByOne(exec, start, reqs, fates);
    if !NoneLost(fates) {
      var k := FirstLost(fates);
      FitsAt(exec, start, reqs, fates, k);
      NoneLostIsOneByOne(exec, start, reqs[..k], fates[..k]);
      OneByOneAt(exec, start, reqs, k);
      assert Replies(reqs, fates)[k] != Replies(reqs, OneByOne(exec, start, reqs))[k];
    }
  }

  // ---------------------------------------------------------------- when a batch is lost

  /** The keys taken by the open batch and how many successful commands wait in it. */
  datatype Batch = Batch(keys: set<string>, size: nat)

  predicate Joins(b: Batch, r: Request) { r.kind.Batchable? && b.size < MAX_BATCH && r.key !in b.keys }

  function NextBatch(b: Batch, r: Request, e: Exec): Batch {
    if r.kind.Malformed? then b
    else if !Joins(b, r) || (e.Failed? && NeedsAbort(e.err)) then Batch({}, 0)
    else Batch(b.keys + {r.key}, if e.Wrote? then b.size + 1 else b.size)
  }

  /** The batch that is open after the requests, when they run as if one at a time. */
  function OpenBatch(exec: Command, start: Db, reqs: seq<Request>): Batch
    decreases |reqs|
  {
    if reqs == [] then Batch({}, 0)
    else
      var n := |reqs| - 1;
      NextBatch(OpenBatch(exec, start, reqs[..n]), reqs[n], EffectAfter(exec, start, reqs[..n], reqs[n]))
  }

  function EffectAfter(exec: Command, start: Db, reqs: seq<Request>, r: Request): Exec {
    Effect(exec, After(exec, start, reqs, OneByOne(exec, start, reqs)), r)
  }

  /** Request r joins a batch in which others wait and fails in a way that aborts it. */
  predicate Spoils(exec: Command, start: Db, reqs: seq<Request>, r: Request) {
    var b, e := OpenBatch(exec, start, reqs), EffectAfter(exec, start, reqs, r);
    Joins(b, r) && b.size > 0 && e.Failed? && NeedsAbort(e.err)
  }

  /** Some request spoils the batch it joins. */
  predicate SomeSpoils(exec: Command, start: Db, reqs: seq<Request>)
    decreases |reqs|
  {
    reqs != [] &&
      var n := |reqs| - 1;
      SomeSpoils(exec, start, reqs[..n]) || Spoils(exec, start, reqs[..n], reqs[n])
  }

  lemma OneMoreRequest(exec: Command, start: Db, reqs: seq<Request>, r: Request)
    ensures SomeSpoils(exec, start, reqs + [r]) <==> SomeSpoils(exec, start, reqs) || Spoils(exec, start, reqs, r)
    ensures OpenBatch(exec, start, reqs + [r]) == NextBatch(OpenBatch(exec, start, reqs), r, EffectAfter(exec, start, reqs, r))
  {
    assert (reqs + [r])[..|reqs|] == reqs;
  }

  /** Without an aborting error there is nothing to spoil a batch. */
  lemma {:induction false} NoAbortNoSpoil(exec: Command, start: Db, reqs: seq<Request>)
    requires forall f | f in OneByOne(exec, start, reqs) && f.Fails? :: !NeedsAbort(f.err)
    ensures !SomeSpoils(exec, start, reqs)
    decreases |reqs|
  {
    if reqs != [] {
      var n := |reqs| - 1;
      var fates := OneByOne(exec, start, reqs);
      assert fates == OneByOne(exec, start, reqs[..n]) + [fates[n]];
      NoAbortNoSpoil(exec, start, reqs[..n]);
      assert fates[n] in fates;
    }
  }

  /** A first command that would succeed is lost when the second one of its batch fails. */
  lemma SecondSpoilsFirst(exec: Command, first: Request, second: Request)
    requires first.kind.Batchable? && second.kind.Batchable? && first.key != second.key
    requires exec(first.cmd, None).Wrote? && exec(second.cmd, None).Failed? && NeedsAbort(exec(second.cmd, None).err)
    ensures SomeSpoils(exec, map[], [first, second])
  {
    var reqs := [first];
    assert [first, second] == reqs + [second] && reqs == [] + [first] && reqs[..0] == [];
    OneMoreRequest(exec, map[], [], first);
    OneMoreRequest(exec, map[], reqs, second);
    assert OneByOne(exec, map[], reqs) == [Succeeds(exec(first.cmd, None).resp)];
    assert After(exec, map[], [], []) == map[];
  }

  ghost predicate WriteFailed(writeFails: nat -> bool, writes: nat) { exists n: nat :: n < writes && writeFails(n) }

  /** As long as no write failed, nothing is lost exactly until some request spoils its batch, and
      until then the open batch is the expected one. */
  ghost predicate Tracks(exec: Command, start: Db, taken: seq<Request>, fates: seq<Fate>, batch: Batch, failed: bool) {
    && (NoneLost(fates) && !failed ==> OpenBatch(exec, start, taken) == batch)
    && (!failed ==> (NoneLost(fates) <==> !SomeSpoils(exec, start, taken)))
  }

  /** The command reads a key that is new to the batch, so it does what it would do one at a time. */
  lemma SameEffect(exec: Command, start: Db, db: Db, wb: Writes, taken: seq<Request>, fates: seq<Fate>, r: Request)
    requires StoreFits(exec, start, db, wb, taken, fates) && NoneLost(fates) && r.key !in wb
    ensures EffectAfter(exec, start, taken, r) == Effect(exec, db, r)
  {
    var kept := Settle(fates, None);
    assert NoneLost(kept);
    NoneLostIsOneByOne(exec, start, taken, kept);
    OverlayOneMore(db, wb, r.key, None);
  }

  lemma TracksMalformed(exec: Command, start: Db, taken: seq<Request>, fates: seq<Fate>, batch: Batch, failed: bool, r: Request)
    requires Tracks(exec, start, taken, fates, batch, failed) && r.kind.Malformed?
    ensures Tracks(exec, start, taken + [r], fates + [Refused], batch, failed)
  {
    hide OpenBatch, SomeSpoils, EffectAfter;
    OneMoreRequest(exec, start, taken, r);
    LossOfMore(fates, Refused);
  }

  lemma LossOfMore(fates: seq<Fate>, f: Fate)
    ensures NoneLost(fates + [f]) <==> NoneLost(fates) && !f.Lost?
  {
    assert (fates + [f])[|fates|] == f;
    forall k | 0 <= k < |fates| ensures (fates + [f])[k] == fates[k] {}
    if NoneLost(fates + [f]) {
      forall k | 0 <= k < |fates| ensures !fates[k].Lost? { assert !(fates + [f])[k].Lost?; }
    }
  }

  lemma LossOfSettled(fates: seq<Fate>, err: Option)
    ensures NoneLost(Settle(fates, err)) <==> NoneLost(fates) && (err.None? || NoneWaits(fates))
  {
    var settled := Settle(fates, err);
    if NoneLost(settled) {
      forall k | 0 <= k < |fates| ensures !fates[k].Lost? && (err.None? || !fates[k].Waits?) { assert !settled[k].Lost?; }
    }
  }

  /** A request that does not join closes the batch. */
  lemma TracksClosed(exec: Command, start: Db, taken: seq<Request>, fates: seq<Fate>, batch: Batch, failed: bool,
                     r: Request, err: Option, f: Fate, failed': bool)
    requires Tracks(exec, start, taken, fates, batch, failed) && !Joins(batch, r) && !r.kind.Malformed?
    requires (failed || err.Some? || f.Lost? ==> failed')
    ensures Tracks(exec, start, taken + [r], Settle(fates, err) + [f], Batch({}, 0), failed')
  {
    hide OpenBatch, SomeSpoils, EffectAfter, Settle;
    OneMoreRequest(exec, start, taken, r);
    LossOfMore(Settle(fates, err), f);
    LossOfSettled(fates, err);
  }

  lemma TracksJoined(exec: Command, start: Db, taken: seq<Request>, fates: seq<Fate>, batch: Batch, failed: bool, r: Request, e: Exec)
    requires Tracks(exec, start, taken, fates, batch, failed) && Joins(batch, r)
    requires NoneLost(fates) ==> EffectAfter(exec, start, taken, r) == e
    requires e.Failed? ==> !NeedsAbort(e.err)
    ensures Tracks(exec, start, taken + [r], fates + [if e.Wrote? then Waits(e.resp) else Fails(e.err)], NextBatch(batch, r, e), failed)
  {
    hide OpenBatch, SomeSpoils, EffectAfter;
    OneMoreRequest(exec, start, taken, r);
    LossOfMore(fates, if e.Wrote? then Waits(e.resp) else Fails(e.err));
  }

  lemma TracksSpoiled(exec: Command, start: Db, taken: seq<Request>, fates: seq<Fate>, batch: Batch, failed: bool, r: Request, e: Exec)
    requires Tracks(exec, start, taken, fates, batch, failed) && Joins(batch, r) && (NoneWaits(fates) <==> batch.size == 0)
    requires NoneLost(fates) ==> EffectAfter(exec, start, taken, r) == e
    requires e.Failed? && NeedsAbort(e.err)
    ensures Tracks(exec, start, taken + [r], Settle(fates + [Fails(e.err)], Some(e.err)), Batch({}, 0), failed)
  {
    hide OpenBatch, SomeSpoils, EffectAfter, NeedsAbort;
    OneMoreRequest(exec, start, taken, r);
    SettleMore(fates, Fails(e.err), Some(e.err));
    LossOfSettled(fates, Some(e.err));
    LossOfMore(Settle(fates, Some(e.err)), Fails(e.err));
  }

  // ---------------------------------------------------------------- what every step keeps: the store

  /** The store is what the successful requests make of it one at a time, and with the write batch
      on top it is what those and the waiting ones make of it. */
  ghost predicate StoreFits(exec: Command, start: Db, db: Db, wb: Writes, taken: seq<Request>, fates: seq<Fate>) {
    && |taken| == |fates|
    && Fits(exec, start, taken, Settle(fates, None)) && After(exec, start, taken, Settle(fates, None)) == Overlay(db, wb)
    && Fits(exec, start, taken, Settle(fates, Some(""))) && After(exec, start, taken, Settle(fates, Some(""))) == db
  }

  lemma StoreCommits(exec: Command, start: Db, db: Db, wb: Writes, taken: seq<Request>, fates: seq<Fate>)
    requires StoreFits(exec, start, db, wb, taken, fates)
    ensures StoreFits(exec, start, Overlay(db, wb), map[], taken, Settle(fates, None))
  {
    hide Fits, After, Settle;
    SettleOnce(fates, None, None);
    SettleOnce(fates, None, Some(""));
    OverlayNothing(Overlay(db, wb));
    assert |Settle(fates, None)| == |fates| by { SettleLength(fates, None); }
  }

  lemma SettleLength(fates: seq<Fate>, err: Option)
    ensures |Settle(fates, err)| == |fates|
  {
  }

  lemma StoreDrops(exec: Command, start: Db, db: Db, wb: Writes, taken: seq<Request>, fates: seq<Fate>, err: string)
    requires StoreFits(exec, start, db, wb, taken, fates)
    ensures StoreFits(exec, start, db, map[], taken, Settle(fates, Some(err)))
  {
    hide Fits, After, Settle;
    AnyError(exec, start, taken, fates, "", err);
    SettleOnce(fates, Some(err), None);
    SettleOnce(fates, Some(err), Some(""));
    OverlayNothing(db);
    SettleLength(fates, Some(err));
  }

  /** A request that leaves the store and the batch alone. */
  lemma StoreAdds(exec: Command, start: Db, db: Db, wb: Writes, taken: seq<Request>, fates: seq<Fate>, r: Request, f: Fate)
    requires StoreFits(exec, start, db, wb, taken, fates) && (IsCommand(r) ==> r.key !in wb)
    requires Suits(exec, db, r, f) && !f.Succeeds?
    ensures StoreFits(exec, start, db, wb, taken + [r], fates + [f])
  {
    if r.key !in wb { OverlayOneMore(db, wb, r.key, None); }
    forall err | err in {None, Some("")}
      ensures Settle(fates + [f], err) == Settle(fates, err) + [f]
    {
      SettleMore(fates, f, err);
    }
    hide Fits, After, Settle;
    SettleLength(fates, None);
    SettleLength(fates, Some(""));
    OneMore(exec, start, taken, Settle(fates, None), r, f);
    OneMore(exec, start, taken, Settle(fates, Some("")), r, f);
  }

  /** A command whose key is new to the batch adds its write to it. */
  lemma StoreWaits(exec: Command, start: Db, db: Db, wb: Writes, taken: seq<Request>, fates: seq<Fate>, r: Request)
    requires StoreFits(exec, start, db, wb, taken, fates) && IsCommand(r) && r.key !in wb && Effect(exec, db, r).Wrote?
    ensures var e := Effect(exec, db, r);
            StoreFits(exec, start, db, wb[r.key := e.value], taken + [r], fates + [Waits(e.resp)])
  {
    var e := Effect(exec, db, r);
    OverlayOneMore(db, wb, r.key, e.value);
    SettleMore(fates, Waits(e.resp), None);
    SettleMore(fates, Waits(e.resp), Some(""));
    hide Fits, After, Settle, Overlay;
    SettleLength(fates, None);
    SettleLength(fates, Some(""));
    OneMore(exec, start, taken, Settle(fates, None), r, Succeeds(e.resp));
    OneMore(exec, start, taken, Settle(fates, Some("")), r, Lost(""));
  }

  // ---------------------------------------------------------------- what every step keeps: the answers

  function BagOf(answers: seq<Answer>): multiset<Answer> {
    if answers == [] then multiset{} else BagOf(answers[..|answers| - 1]) + multiset{answers[|answers| - 1]}
  }

  /** The successful answers, in the order given. */
  function Oks(answers: seq<Answer>): seq<Answer> {
    if answers == [] then []
    else
      var last := answers[|answers| - 1];
      Oks(answers[..|answers| - 1]) + if last.reply.Ok? then [last] else []
  }

  lemma {:induction false} Together(a: seq<Answer>, b: seq<Answer>)
    ensures BagOf(a + b) == BagOf(a) + BagOf(b) && Oks(a + b) == Oks(a) + Oks(b)
    decreases |b|
  {
    if b == [] {
      assert a + b == a;
    } else {
      var n := |b| - 1;
      assert (a + b)[..|a + b| - 1] == a + b[..n];
      Together(a, b[..n]);
    }
  }

  lemma Alone(a: Answer)
    ensures BagOf([a]) == multiset{a} && Oks([a]) == if a.reply.Ok? then [a] else []
  {
  }

  /** The one answer due to each request that does not wait. */
  function Due(reqs: seq<Request>, fates: seq<Fate>): multiset<Answer>
    requires |reqs| == |fates|
  {
    if reqs == [] then multiset{}
    else
      var n := |reqs| - 1;
      Due(reqs[..n], fates[..n]) +
      if fates[n].Waits? then multiset{} else multiset{Answer(reqs[n].id, ReplyTo(reqs[n], fates[n]))}
  }

  /** The answers of the successful requests, in request order. */
  function Successes(reqs: seq<Request>, fates: seq<Fate>): seq<Answer>
    requires |reqs| == |fates|
  {
    if reqs == [] then []
    else
      var n := |reqs| - 1;
      Successes(reqs[..n], fates[..n]) + if fates[n].Succeeds? then [Answer(reqs[n].id, Ok(fates[n].resp))] else []
  }

  function WaitingIds(reqs: seq<Request>, fates: seq<Fate>): seq<nat>
    requires |reqs| == |fates|
  {
    if reqs == [] then []
    else
      var n := |reqs| - 1;
      WaitingIds(reqs[..n], fates[..n]) + if fates[n].Waits? then [reqs[n].id] else []
  }

  function WaitingResps(fates: seq<Fate>): seq<string> {
    if fates == [] then []
    else
      var n := |fates| - 1;
      WaitingResps(fates[..n]) + if fates[n].Waits? then [fates[n].resp] else []
  }

  /** The answers to a whole batch: its responses, or one error. */
  function BatchAnswers(ids: seq<nat>, resps: seq<string>, err: Option): seq<Answer>
    requires |ids| == |resps|
  {
    seq(|ids|, k requires 0 <= k < |ids| => Answer(ids[k], if err.None? then Ok(resps[k]) else Error(err.value)))
  }

  lemma {:induction false} WaitingMatch(reqs: seq<Request>, fates: seq<Fate>)
    requires |reqs| == |fates|
    ensures |WaitingIds(reqs, fates)| == |WaitingResps(fates)|
    ensures NoneWaits(fates) <==> WaitingIds(reqs, fates) == []
    decreases |reqs|
  {
    if reqs != [] {
      var n := |reqs| - 1;
      WaitingMatch(reqs[..n], fates[..n]);
      if NoneWaits(fates[..n]) && !fates[n].Waits? {
        forall k | 0 <= k < |fates| ensures !fates[k].Waits? { if k < n { assert !fates[..n][k].Waits?; } }
      }
      if NoneWaits(fates) {
        forall k | 0 <= k < n ensures !fates[..n][k].Waits? { assert !fates[k].Waits?; }
      }
    }
  }

  lemma AnswersMore(ids: seq<nat>, resps: seq<string>, err: Option, id: nat, resp: string)
    requires |ids| == |resps|
    ensures BatchAnswers(ids + [id], resps + [resp], err) ==
            BatchAnswers(ids, resps, err) + [Answer(id, if err.None? then Ok(resp) else Error(err.value))]
  {
  }

  lemma OneMoreDue(taken: seq<Request>, fates: seq<Fate>, r: Request, f: Fate)
    requires |taken| == |fates|
    ensures Due(taken + [r], fates + [f]) ==
            Due(taken, fates) + if f.Waits? then multiset{} else multiset{Answer(r.id, ReplyTo(r, f))}
    ensures Successes(taken + [r], fates + [f]) == Successes(taken, fates) + if f.Succeeds? then [Answer(r.id, Ok(f.resp))] else []
    ensures WaitingIds(taken + [r], fates + [f]) == WaitingIds(taken, fates) + if f.Waits? then [r.id] else []
    ensures WaitingResps(fates + [f]) == WaitingResps(fates) + if f.Waits? then [f.resp] else []
  {
    assert (taken + [r])[..|taken|] == taken && (fates + [f])[..|fates|] == fates;
  }

  lemma {:induction false} SettledDue(reqs: seq<Request>, fates: seq<Fate>, err: Option)
    requires |reqs| == |fates| && |WaitingIds(reqs, fates)| == |WaitingResps(fates)|
    ensures |Settle(fates, err)| == |fates|
    ensures Due(reqs, Settle(fates, err)) ==
            Due(reqs, fates) + BagOf(BatchAnswers(WaitingIds(reqs, fates), WaitingResps(fates), err))
    decreases |reqs|
  {
    SettleLength(fates, err);
    if reqs == [] {
      assert BatchAnswers([], [], err) == [];
    } else {
      var n := |reqs| - 1;
      WaitingMatch(reqs[..n], fates[..n]);
      SettledDue(reqs[..n], fates[..n], err);
      assert reqs == reqs[..n] + [reqs[n]] && fates == fates[..n] + [fates[n]];
      SettledDueOneMore(reqs[..n], fates[..n], reqs[n], fates[n], err);
    }
  }

  lemma SettledDueOneMore(reqs: seq<Request>, fates: seq<Fate>, r: Request, f: Fate, err: Option)
    requires |reqs| == |fates| == |Settle(fates, err)| && |WaitingIds(reqs, fates)| == |WaitingResps(fates)|
    requires Due(reqs, Settle(fates, err)) ==
             Due(reqs, fates) + BagOf(BatchAnswers(WaitingIds(reqs, fates), WaitingResps(fates), err))
    ensures |Settle(fates + [f], err)| == |reqs| + 1 && |WaitingIds(reqs + [r], fates + [f])| == |WaitingResps(fates + [f])|
    ensures Due(reqs + [r], Settle(fates + [f], err)) == Due(reqs + [r], fates + [f]) +
            BagOf(BatchAnswers(WaitingIds(reqs + [r], fates + [f]), WaitingResps(fates + [f]), err))
  {
    var a := Answer(r.id, ReplyTo(r, SettleOne(f, err)));
    Alone(a);
    hide Due, Settle, WaitingIds, WaitingResps, BagOf, BatchAnswers;
    SettleMore(fates, f, err);
    OneMoreDue(reqs, fates, r, f);
    OneMoreDue(reqs, Settle(fates, err), r, SettleOne(f, err));
    var ids, resps := WaitingIds(reqs, fates), WaitingResps(fates);
    if f.Waits? {
      AnswersMore(ids, resps, err, r.id, f.resp);
      Together(BatchAnswers(ids, resps, err), [a]);
    } else {
      assert ids + [] == ids && resps + [] == resps;
    }
  }

  /** What waits was taken up after everything that has succeeded. */
  predicate WaitsLast(fates: seq<Fate>) {
    forall j, k | 0 <= j < k < |fates| && fates[j].Waits? :: !fates[k].Succeeds?
  }

  lemma WaitsLastMore(fates: seq<Fate>, f: Fate)
    requires WaitsLast(fates) && (f.Succeeds? ==> NoneWaits(fates))
    ensures WaitsLast(fates + [f])
  {
  }

  lemma WaitsLastFront(fates: seq<Fate>, f: Fate)
    requires WaitsLast(fates + [f])
    ensures WaitsLast(fates) && (f.Succeeds? ==> NoneWaits(fates))
  {
    var all := fates + [f];
    assert forall k | 0 <= k < |fates| :: all[k] == fates[k];
    assert all[|fates|] == f;
  }

  lemma {:induction false} KeptSuccesses(reqs: seq<Request>, fates: seq<Fate>)
    requires |reqs| == |fates| == |Settle(fates, None)| && |WaitingIds(reqs, fates)| == |WaitingResps(fates)| && WaitsLast(fates)
    ensures Successes(reqs, Settle(fates, None)) ==
            Successes(reqs, fates) + BatchAnswers(WaitingIds(reqs, fates), WaitingResps(fates), None)
    decreases |reqs|
  {
    if reqs != [] {
      hide WaitsLast, Settle;
      var n := |reqs| - 1;
      assert reqs == reqs[..n] + [reqs[n]] && fates == fates[..n] + [fates[n]];
      WaitsLastFront(fates[..n], fates[n]);
      WaitingMatch(reqs[..n], fates[..n]);
      SettleLength(fates[..n], None);
      KeptSuccesses(reqs[..n], fates[..n]);
      KeptOneMore(reqs[..n], fates[..n], reqs[n], fates[n]);
    }
  }

  lemma KeptOneMore(reqs: seq<Request>, fates: seq<Fate>, r: Request, f: Fate)
    requires |reqs| == |fates| == |Settle(fates, None)| && |WaitingIds(reqs, fates)| == |WaitingResps(fates)|
    requires f.Succeeds? ==> NoneWaits(fates)
    requires Successes(reqs, Settle(fates, None)) ==
             Successes(reqs, fates) + BatchAnswers(WaitingIds(reqs, fates), WaitingResps(fates), None)
    ensures |Settle(fates + [f], None)| == |reqs| + 1 && |WaitingIds(reqs + [r], fates + [f])| == |WaitingResps(fates + [f])|
    ensures Successes(reqs + [r], Settle(fates + [f], None)) == Successes(reqs + [r], fates + [f]) +
            BatchAnswers(WaitingIds(reqs + [r], fates + [f]), WaitingResps(fates + [f]), None)
  {
    hide Successes, Settle, WaitingIds, WaitingResps, BatchAnswers, NoneWaits, Due;
    SettleMore(fates, f, None);
    OneMoreDue(reqs, fates, r, f);
    OneMoreDue(reqs, Settle(fates, None), r, SettleOne(f, None));
    var ids, resps := WaitingIds(reqs, fates), WaitingResps(fates);
    if f.Waits? {
      AnswersMore(ids, resps, None, r.id, f.resp);
    } else {
      assert ids + [] == ids && resps + [] == resps;
      if f.Succeeds? {
        WaitingMatch(reqs, fates);
        NoAnswers(None);
      }
    }
  }

  lemma {:induction false} DroppedSuccesses(reqs: seq<Request>, fates: seq<Fate>, err: string)
    requires |reqs| == |fates|
    ensures Successes(reqs, Settle(fates, Some(err))) == Successes(reqs, fates)
    decreases |reqs|
  {
    if reqs != [] {
      var n := |reqs| - 1;
      assert Settle(fates, Some(err))[..n] == Settle(fates[..n], Some(err));
      DroppedSuccesses(reqs[..n], fates[..n], err);
    }
  }

  lemma {:induction false} OksOfBatch(ids: seq<nat>, resps: seq<string>, err: Option)
    requires |ids| == |resps|
    ensures Oks(BatchAnswers(ids, resps, err)) == if err.None? then BatchAnswers(ids, resps, err) else []
    decreases |ids|
  {
    if ids != [] {
      var n := |ids| - 1;
      assert ids == ids[..n] + [ids[n]] && resps == resps[..n] + [resps[n]];
      AnswersMore(ids[..n], resps[..n], err, ids[n], resps[n]);
      OksOfBatch(ids[..n], resps[..n], err);
      assert BatchAnswers(ids, resps, err)[..n] == BatchAnswers(ids[..n], resps[..n], err);
    }
  }

  /** Every request taken up has its one answer or waits in the batch lists; successes are answered in order. */
  ghost predicate AnswersFit(answers: seq<Answer>, taken: seq<Request>, fates: seq<Fate>, ids: seq<nat>, resps: seq<string>) {
    && |taken| == |fates| && WaitsLast(fates)
    && BagOf(answers) == Due(taken, fates) && Oks(answers) == Successes(taken, fates)
    && ids == WaitingIds(taken, fates) && resps == WaitingResps(fates)
  }

  lemma AnswersSettle(answers: seq<Answer>, taken: seq<Request>, fates: seq<Fate>, ids: seq<nat>, resps: seq<string>, err: Option)
    requires AnswersFit(answers, taken, fates, ids, resps) && |ids| == |resps|
    ensures AnswersFit(answers + BatchAnswers(ids, resps, err), taken, Settle(fates, err), [], [])
  {
    hide Due, Successes, WaitingIds, WaitingResps, BagOf, Oks, BatchAnswers;
    SettledDue(taken, fates, err);
    Together(answers, BatchAnswers(ids, resps, err));
    OksOfBatch(ids, resps, err);
    if err.None? { KeptSuccesses(taken, fates); } else { DroppedSuccesses(taken, fates, err.value); }
    SettleOnce(fates, err, err);
    WaitingMatch(taken, Settle(fates, err));
  }

  lemma AnswerNow(answers: seq<Answer>, taken: seq<Request>, fates: seq<Fate>, ids: seq<nat>, resps: seq<string>, r: Request, f: Fate)
    requires AnswersFit(answers, taken, fates, ids, resps) && !f.Waits? && (f.Succeeds? ==> NoneWaits(fates))
    ensures AnswersFit(answers + [Answer(r.id, ReplyTo(r, f))], taken + [r], fates + [f], ids, resps)
  {
    var a := Answer(r.id, ReplyTo(r, f));
    hide Due, Successes, WaitingIds, WaitingResps, BagOf, Oks, WaitsLast;
    Alone(a);
    WaitsLastMore(fates, f);
    OneMoreDue(taken, fates, r, f);
    assert ids + [] == ids && resps + [] == resps;
    Together(answers, [a]);
  }

  lemma AnswerLater(answers: seq<Answer>, taken: seq<Request>, fates: seq<Fate>, ids: seq<nat>, resps: seq<string>, r: Request, resp: string)
    requires AnswersFit(answers, taken, fates, ids, resps)
    ensures AnswersFit(answers, taken + [r], fates + [Waits(resp)], ids + [r.id], resps + [resp])
  {
    hide Due, Successes, WaitingIds, WaitingResps, BagOf, Oks;
    OneMoreDue(taken, fates, r, Waits(resp));
  }

  // ---------------------------------------------------------------- what every step keeps: the losses

  predicate AbortsWith(r: Request, f: Fate, err: string) { r.kind.Batchable? && f == Fails(err) && NeedsAbort(err) }

  /** A request is lost only to a failed write or to a later command that failed in its batch; it
      is answered with that error. */
  ghost predicate Explained(taken: seq<Request>, fates: seq<Fate>, k: nat, failed: bool)
    requires |taken| == |fates| && k < |fates|
  {
    fates[k].Lost? ==>
      || (failed && fates[k].err == WRITE_FAILED)
      || exists j :: k < j < |fates| && AbortsWith(taken[j], fates[j], fates[k].err)
  }

  ghost predicate AllExplained(taken: seq<Request>, fates: seq<Fate>, failed: bool) {
    |taken| == |fates| && forall k | 0 <= k < |fates| :: Explained(taken, fates, k, failed)
  }

  lemma ExplainMore(taken: seq<Request>, fates: seq<Fate>, r: Request, f: Fate, failed: bool, failed': bool)
    requires AllExplained(taken, fates, failed) && (failed ==> failed') && (f.Lost? ==> failed' && f.err == WRITE_FAILED)
    ensures AllExplained(taken + [r], fates + [f], failed')
  {
    hide AbortsWith;
    forall k | 0 <= k < |fates| + 1 ensures Explained(taken + [r], fates + [f], k, failed') {
      if k < |fates| && fates[k].Lost? {
        assert Explained(taken, fates, k, failed);
        if !(failed && fates[k].err == WRITE_FAILED) {
          var j :| k < j < |fates| && AbortsWith(taken[j], fates[j], fates[k].err);
          assert AbortsWith((taken + [r])[j], (fates + [f])[j], (fates + [f])[k].err);
        }
      }
    }
  }

  lemma ExplainSettled(taken: seq<Request>, fates: seq<Fate>, err: Option, failed: bool, failed': bool)
    requires AllExplained(taken, fates, failed) && (failed ==> failed')
    requires || err.None? || (failed' && err.value == WRITE_FAILED)
             || (fates != [] && AbortsWith(taken[|fates| - 1], fates[|fates| - 1], err.value))
    ensures AllExplained(taken, Settle(fates, err), failed')
  {
    var settled := Settle(fates, err);
    var last := |fates| - 1;
    forall k | 0 <= k < |fates| ensures Explained(taken, settled, k, failed') {
      assert Explained(taken, fates, k, failed);
      if fates[k].Lost? && !(failed && fates[k].err == WRITE_FAILED) {
        var j :| k < j < |fates| && AbortsWith(taken[j], fates[j], fates[k].err);
        assert AbortsWith(taken[j], settled[j], settled[k].err);
      } else if fates[k].Waits? && err.Some? && !(failed' && err.value == WRITE_FAILED) {
        assert k < last && AbortsWith(taken[last], settled[last], settled[k].err);
      }
    }
  }

  // ---------------------------------------------------------------- small facts for the operator

  ghost predicate Idle(wb: Writes, fates: seq<Fate>, keys: set<string>) { wb == map[] && NoneWaits(fates) && keys == {} }

  lemma ListsMatch(answers: seq<Answer>, taken: seq<Request>, fates: seq<Fate>, ids: seq<nat>, resps: seq<string>)
    requires AnswersFit(answers, taken, fates, ids, resps)
    ensures |taken| == |fates| && |ids| == |resps| && (NoneWaits(fates) <==> ids == [])
  {
    WaitingMatch(taken, fates);
  }

  lemma Unsettled(fates: seq<Fate>, err: Option)
    requires NoneWaits(fates)
    ensures Settle(fates, err) == fates
  {
  }

  lemma NoneWaitsMore(fates: seq<Fate>, f: Fate)
    requires NoneWaits(fates) && !f.Waits?
    ensures NoneWaits(fates + [f])
  {
  }

  lemma NoAnswers(err: Option)
    ensures BatchAnswers([], [], err) == []
  {
  }

  lemma WriteCounts(writeFails: nat -> bool, writes: nat)
    ensures WriteFailed(writeFails, writes + 1) <==> WriteFailed(writeFails, writes) || writeFails(writes)
  {
  }

  /** What is decided stays decided. */
  ghost predicate Stays(before: seq<Fate>, after: seq<Fate>) {
    |before| <= |after| && forall k | 0 <= k < |before| && !before[k].Waits? :: after[k] == before[k]
  }

  lemma StaysMore(fates: seq<Fate>, f: Fate)
    ensures Stays(fates, fates + [f])
  {
  }

  lemma StaysSettled(fates: seq<Fate>, err: Option)
    ensures Stays(fates, Settle(fates, err))
  {
  }

  /** The fate of a command that runs by itself. */
  function SingleFate(exec: Command, db: Db, r: Request, writeFails: bool): Fate {
    var e := Effect(exec, db, r);
    if e.Failed? then Fails(e.err) else if writeFails then Lost(WRITE_FAILED) else Succeeds(e.resp)
  }

  lemma SingleStore(exec: Command, start: Db, db: Db, taken: seq<Request>, fates: seq<Fate>, r: Request, fails: bool)
    requires StoreFits(exec, start, db, map[], taken, fates) && NoneWaits(fates) && IsCommand(r)
    ensures var f := SingleFate(exec, db, r, fails);
            StoreFits(exec, start, if f.Succeeds? then AfterOne(exec, db, r) else db, map[], taken + [r], fates + [f])
  {
    var e := Effect(exec, db, r);
    if e.Failed? || fails {
      StoreAdds(exec, start, db, map[], taken, fates, r, SingleFate(exec, db, r, fails));
    } else {
      StoreWaits(exec, start, db, map[], taken, fates, r);
      var wb := map[][r.key := e.value];
      assert wb == map[r.key := e.value];
      StoreCommits(exec, start, db, wb, taken + [r], fates + [Waits(e.resp)]);
      SettleMore(fates, Waits(e.resp), None);
      Unsettled(fates, None);
    }
  }

  // ---------------------------------------------------------------- the engine and the batch operator

  class Applier {
    const exec: Command
    /** Whether the n-th write to the engine fails. */
    const writeFails: nat -> bool

    // RockDB
    var db: Db
    var wb: Writes
    var writes: nat

    // kvbatchOperator
    var batchReqIDList: seq<nat>
    var batchReqRspList: seq<string>
    var batching: bool
    var dupCheckMap: set<string>

    /** Every answer given so far. */
    var answers: seq<Answer>

    // History: the store at the start, the requests taken up, and what has become of each.
    ghost var start: Db
    ghost var taken: seq<Request>
    ghost var fates: seq<Fate>

    ghost predicate Valid()
      reads this
    {
      && WellBehaved(exec)
      && StoreFits(exec, start, db, wb, taken, fates)
      && AnswersFit(answers, taken, fates, batchReqIDList, batchReqRspList)
      && AllExplained(taken, fates, WriteFailed(writeFails, writes))
      && wb.Keys <= dupCheckMap
      && (!batching ==> Idle(wb, fates, dupCheckMap))
    }

    ghost predicate Tracking()
      reads this
    {
      Tracks(exec, start, taken, fates, Batch(dupCheckMap, |batchReqIDList|), WriteFailed(writeFails, writes))
    }

    constructor (exec: Command, writeFails: nat -> bool, db: Db)
      requires WellBehaved(exec)
      ensures Valid() && Tracking() && start == this.db == db && taken == [] && answers == [] && !batching
      ensures this.exec == exec && this.writeFails == writeFails && writes == 0
    {
      this.exec, this.writeFails := exec, writeFails;
      this.db, wb, writes := db, map[], 0;
      batchReqIDList, batchReqRspList, batching, dupCheckMap := [], [], false, {};
      answers := [];
      start, taken, fates := db, [], [];
      OverlayNothing(db);
    }

    predicate IsBatchable(r: Request)
      reads this
    {
      r.kind.Batchable? && |batchReqIDList| < MAX_BATCH && r.key !in dupCheckMap
    }

    /** The error with which the open batch would be answered if it were written now. */
    function CommitError(): Option
      reads this
    {
      if batching && writeFails(writes) then Some(WRITE_FAILED) else None
    }

    // RockDB.Write
    method Write() returns (ok: bool)
      modifies this`db, this`wb, this`writes
      ensures ok == !writeFails(old(writes)) && writes == old(writes) + 1
      ensures wb == map[] && db == if ok then Overlay(old(db), old(wb)) else old(db)
    {
      ok := !writeFails(writes);
      writes := writes + 1;
      if ok { db := Overlay(db, wb); }
      wb := map[];
    }

    /** A command handler: reads the store, not the write batch, and writes at once unless batching. */
    method Handle(r: Request) returns (reply: Reply)
      modifies this`db, this`wb, this`writes
      ensures var e := Effect(exec, old(db), r);
              if e.Failed? then reply == Error(e.err) && db == old(db) && wb == old(wb) + e.junk && writes == old(writes)
              else
                var wb' := old(wb)[r.key := e.value];
                if batching then reply == Ok(e.resp) && db == old(db) && wb == wb' && writes == old(writes)
                else
                  && writes == old(writes) + 1 && wb == map[]
                  && reply == (if writeFails(old(writes)) then Error(WRITE_FAILED) else Ok(e.resp))
                  && db == if reply.Ok? then Overlay(old(db), wb') else old(db)
    {
      var e := exec(r.cmd, Get(db, r.key));
      if e.Failed? {
        wb := wb + e.junk;
        return Error(e.err);
      }
      wb := wb[r.key := e.value];
      if !batching {
        var ok := Write();
        if !ok { return Error(WRITE_FAILED); }
      }
      reply := Ok(e.resp);
    }

    /** Answers everything in the batch, with its response or with an error. */
    method AnswerBatch(err: Option)
      requires |batchReqRspList| == |batchReqIDList|
      modifies this`answers, this`batchReqIDList, this`batchReqRspList
      ensures batchReqIDList == [] && batchReqRspList == []
      ensures answers == old(answers) + BatchAnswers(old(batchReqIDList), old(batchReqRspList), err)
    {
      var ids, resps := batchReqIDList, batchReqRspList;
      for k := 0 to |ids|
        invariant batchReqIDList == ids && batchReqRspList == resps
        invariant answers == old(answers) + BatchAnswers(ids[..k], resps[..k], err)
      {
        answers := answers + [Answer(ids[k], if err.Some? then Error(err.value) else Ok(resps[k]))];
        AnswersMore(ids[..k], resps[..k], err, ids[k], resps[k]);
        assert ids[..k + 1] == ids[..k] + [ids[k]] && resps[..k + 1] == resps[..k] + [resps[k]];
      }
      assert ids[..|ids|] == ids && resps[..|ids|] == resps;
      batchReqIDList, batchReqRspList := [], [];
    }

    /** Writes the batch: everything in it succeeds and is in the store, or is lost to the failed write. */
    method CommitBatch()
      requires Valid()
      modifies this
      ensures Valid() && !batching && taken == old(taken) && start == old(start)
      ensures batchReqIDList == [] && dupCheckMap == {} && wb == map[]
      ensures writes == old(writes) + if old(batching) then 1 else 0
      ensures fates == Settle(old(fates), old(CommitError()))
      ensures db == if old(CommitError()).None? then Overlay(old(db), old(wb)) else old(db)
      ensures |old(batchReqIDList)| == |old(batchReqRspList)|
      ensures answers == old(answers) + BatchAnswers(old(batchReqIDList), old(batchReqRspList), old(CommitError()))
    {
      hide StoreFits, AnswersFit, AllExplained, WellBehaved, WriteFailed, Overlay, Settle;
      ListsMatch(answers, taken, fates, batchReqIDList, batchReqRspList);
      if !batching {
        OverlayNothing(db);
        Unsettled(fates, None);
        NoAnswers(None);
        assert answers + [] == answers;
        return;
      }
      ghost var err, before, n := CommitError(), answers, writes;
      WriteCounts(writeFails, writes);
      ExplainSettled(taken, fates, err, WriteFailed(writeFails, writes), WriteFailed(writeFails, writes + 1));
      AnswersSettle(answers, taken, fates, batchReqIDList, batchReqRspList, err);
      if err.None? {
        StoreCommits(exec, start, db, wb, taken, fates);
      } else {
        StoreDrops(exec, start, db, wb, taken, fates, WRITE_FAILED);
      }
      SettleOnce(fates, err, err);
      var ok := Write();
      batching, dupCheckMap := false, {};
      AnswerBatch(if ok then None else Some(WRITE_FAILED));
      fates := Settle(fates, err);
    }

    /** Clears the write batch, and loses everything in it to the error. */
    method AbortBatchForError(err: string)
      requires WellBehaved(exec) && StoreFits(exec, start, db, map[], taken, Settle(fates, Some(err)))
      requires AnswersFit(answers, taken, fates, batchReqIDList, batchReqRspList)
      requires AllExplained(taken, Settle(fates, Some(err)), WriteFailed(writeFails, writes))
      requires !batching ==> NoneWaits(fates) && dupCheckMap == {}
      modifies this`wb, this`batching, this`dupCheckMap, this`answers, this`batchReqIDList, this`batchReqRspList, this`fates
      ensures Valid() && !batching && batchReqIDList == [] && dupCheckMap == {} && wb == map[]
      ensures fates == Settle(old(fates), Some(err))
      ensures |old(batchReqIDList)| == |old(batchReqRspList)|
      ensures answers == old(answers) + BatchAnswers(old(batchReqIDList), old(batchReqRspList), Some(err))
    {
      hide StoreFits, AnswersFit, AllExplained, WellBehaved, WriteFailed, Settle, BatchAnswers;
      ListsMatch(answers, taken, fates, batchReqIDList, batchReqRspList);
      AnswersSettle(answers, taken, fates, batchReqIDList, batchReqRspList, Some(err));
      SettleOnce(fates, Some(err), None);
      wb := map[];
      if !batching {
        Unsettled(fates, Some(err));
        NoAnswers(Some(err));
        assert answers + [] == answers;
        return;
      }
      batching, dupCheckMap := false, {};
      AnswerBatch(Some(err));
      fates := Settle(fates, Some(err));
    }

    /** A request that is answered with an error and nothing else. */
    method Refuse(r: Request)
      requires Valid() && !IsCommand(r)
      modifies this`answers, this`taken, this`fates
      ensures Valid() && taken == old(taken) + [r] && fates == old(fates) + [Refused]
      ensures answers == old(answers) + [Answer(r.id, Error(Complaint(r)))]
    {
      hide StoreFits, AnswersFit, AllExplained, WellBehaved, WriteFailed, Overlay;
      AnswerNow(answers, taken, fates, batchReqIDList, batchReqRspList, r, Refused);
      StoreAdds(exec, start, db, wb, taken, fates, r, Refused);
      ExplainMore(taken, fates, r, Refused, WriteFailed(writeFails, writes), WriteFailed(writeFails, writes));
      answers := answers + [Answer(r.id, Error(Complaint(r)))];
      taken, fates := taken + [r], fates + [Refused];
    }

    /** A handler failed: the request is answered, and the batch is aborted if it may have been touched. */
    method FailRequest(r: Request, err: string, ghost f: Fate)
      requires WellBehaved(exec) && f in {Fails(err), Lost(err)}
      requires StoreFits(exec, start, db, if NeedsAbort(err) then map[] else wb, taken + [r],
                         if NeedsAbort(err) then Settle(fates + [f], Some(err)) else fates + [f])
      requires AnswersFit(answers, taken, fates, batchReqIDList, batchReqRspList)
      requires AllExplained(taken + [r], fates + [f], WriteFailed(writeFails, writes))
      requires if batching then r.kind.Batchable? && f.Fails? else NoneWaits(fates) && dupCheckMap == {}
      requires !NeedsAbort(err) ==> wb.Keys <= dupCheckMap
      modifies this`wb, this`batching, this`dupCheckMap, this`answers, this`batchReqIDList, this`batchReqRspList, this`fates, this`taken
      ensures Valid() && taken == old(taken) + [r] && (old(batching) && !NeedsAbort(err) <==> batching)
      ensures |old(batchReqIDList)| == |old(batchReqRspList)|
      ensures !batching ==> batchReqIDList == [] && dupCheckMap == {}
      ensures batching ==> batchReqIDList == old(batchReqIDList) && dupCheckMap == old(dupCheckMap)
      ensures fates == if NeedsAbort(err) then Settle(old(fates) + [f], Some(err)) else old(fates) + [f]
      ensures answers == old(answers) + [Answer(r.id, Error(err))] +
                         if batching then [] else BatchAnswers(old(batchReqIDList), old(batchReqRspList), Some(err))
    {
      hide StoreFits, AnswersFit, AllExplained, WellBehaved, WriteFailed, NeedsAbort, Settle, BatchAnswers;
      ListsMatch(answers, taken, fates, batchReqIDList, batchReqRspList);
      AnswerNow(answers, taken, fates, batchReqIDList, batchReqRspList, r, f);
      NoAnswers(Some(err));
      answers := answers + [Answer(r.id, Error(err))];
      taken, fates := taken + [r], fates + [f];
      if NeedsAbort(err) {
        if batching {
          ExplainSettled(taken, fates, Some(err), WriteFailed(writeFails, writes), WriteFailed(writeFails, writes));
        } else {
          NoneWaitsMore(old(fates), f);
          Unsettled(fates, Some(err));
        }
        AbortBatchForError(err);
      } else {
        assert answers + [] == answers;
      }
    }

    /** The response waits until the batch is committed. */
    method AddBatchRsp(r: Request, resp: string)
      requires WellBehaved(exec) && StoreFits(exec, start, db, wb, taken + [r], fates + [Waits(resp)])
      requires AnswersFit(answers, taken, fates, batchReqIDList, batchReqRspList)
      requires AllExplained(taken, fates, WriteFailed(writeFails, writes))
      requires batching && wb.Keys <= dupCheckMap
      modifies this`taken, this`fates, this`batchReqIDList, this`batchReqRspList
      ensures Valid() && taken == old(taken) + [r] && fates == old(fates) + [Waits(resp)]
      ensures batchReqIDList == old(batchReqIDList) + [r.id] && batchReqRspList == old(batchReqRspList) + [resp]
    {
      hide StoreFits, AnswersFit, AllExplained, WellBehaved, WriteFailed;
      AnswerLater(answers, taken, fates, batchReqIDList, batchReqRspList, r, resp);
      ExplainMore(taken, fates, r, Waits(resp), WriteFailed(writeFails, writes), WriteFailed(writeFails, writes));
      taken, fates := taken + [r], fates + [Waits(resp)];
      batchReqIDList, batchReqRspList := batchReqIDList + [r.id], batchReqRspList + [resp];
    }

    /** A command in the open batch: it waits with its response, fails alone, or fails and takes
        with it everything that waits. The store is left alone. */
    method ApplyBatched(r: Request)
      requires Valid() && batching && r.kind.Batchable? && r.key !in dupCheckMap
      modifies this`wb, this`batching, this`dupCheckMap, this`answers, this`batchReqIDList, this`batchReqRspList, this`fates, this`taken
      modifies this`db, this`writes
      ensures Valid() && taken == old(taken) + [r] && db == old(db) && writes == old(writes)
      ensures |old(batchReqIDList)| == |old(batchReqRspList)|
      ensures var e := Effect(exec, db, r);
              if e.Wrote? then
                && batching && dupCheckMap == old(dupCheckMap) + {r.key} && answers == old(answers)
                && batchReqIDList == old(batchReqIDList) + [r.id] && fates == old(fates) + [Waits(e.resp)]
              else if !NeedsAbort(e.err) then
                && batching && dupCheckMap == old(dupCheckMap) + {r.key} && answers == old(answers) + [Answer(r.id, Error(e.err))]
                && batchReqIDList == old(batchReqIDList) && fates == old(fates) + [Fails(e.err)]
              else
                && !batching && dupCheckMap == {} && batchReqIDList == []
                && fates == Settle(old(fates) + [Fails(e.err)], Some(e.err))
                && answers == old(answers) + [Answer(r.id, Error(e.err))] +
                              BatchAnswers(old(batchReqIDList), old(batchReqRspList), Some(e.err))
    {
      hide StoreFits, AnswersFit, AllExplained, WellBehaved, WriteFailed, NeedsAbort, Settle, BatchAnswers, Get, Overlay;
      ListsMatch(answers, taken, fates, batchReqIDList, batchReqRspList);
      dupCheckMap := dupCheckMap + {r.key};
      ghost var e := Effect(exec, db, r);
      if e.Wrote? {
        StoreWaits(exec, start, db, wb, taken, fates, r);
      } else {
        StoreAdds(exec, start, db, wb, taken, fates, r, Fails(e.err));
        ExplainMore(taken, fates, r, Fails(e.err), WriteFailed(writeFails, writes), WriteFailed(writeFails, writes));
        StoreDrops(exec, start, db, wb, taken + [r], fates + [Fails(e.err)], e.err);
        if !NeedsAbort(e.err) { QuietFailure(exec, wb, r.cmd, Get(db, r.key)); }
      }
      var reply := Handle(r);
      if reply.Error? {
        FailRequest(r, reply.err, Fails(e.err));
        assert answers == old(answers) + [Answer(r.id, Error(e.err))] || NeedsAbort(e.err);
      } else {
        AddBatchRsp(r, reply.resp);
      }
    }

    /** A command by itself: it takes effect at once and is answered, or does nothing. */
    method ApplySingle(r: Request)
      requires Valid() && !batching && IsCommand(r)
      modifies this`wb, this`batching, this`dupCheckMap, this`answers, this`batchReqIDList, this`batchReqRspList, this`fates, this`taken
      modifies this`db, this`writes
      ensures Valid() && !batching && taken == old(taken) + [r] && dupCheckMap == {} && batchReqIDList == []
      ensures writes == old(writes) + if Effect(exec, old(db), r).Wrote? then 1 else 0
      ensures var f := SingleFate(exec, old(db), r, writeFails(old(writes)));
              && fates == old(fates) + [f] && answers == old(answers) + [Answer(r.id, ReplyTo(r, f))]
              && db == if f.Succeeds? then AfterOne(exec, old(db), r) else old(db)
    {
      hide StoreFits, AnswersFit, AllExplained, WellBehaved, WriteFailed, NeedsAbort, Settle, BatchAnswers, Get, Overlay;
      ListsMatch(answers, taken, fates, batchReqIDList, batchReqRspList);
      WriteCounts(writeFails, writes);
      ghost var e := Effect(exec, db, r);
      ghost var f := SingleFate(exec, db, r, writeFails(writes));
      SingleStore(exec, start, db, taken, fates, r, writeFails(writes));
      ExplainMore(taken, fates, r, f, WriteFailed(writeFails, writes),
                  WriteFailed(writeFails, if e.Wrote? then writes + 1 else writes));
      NoneWaitsMore(fates, f);
      if f.Succeeds? { AnswerNow(answers, taken, fates, batchReqIDList, batchReqRspList, r, f); }
      if e.Failed? && !NeedsAbort(e.err) { QuietFailure(exec, wb, r.cmd, Get(db, r.key)); }
      var reply := Handle(r);
      if reply.Error? {
        Unsettled(fates + [f], Some(reply.err));
        NoAnswers(Some(reply.err));
        FailRequest(r, reply.err, f);
        assert answers == old(answers) + [Answer(r.id, Error(f.err))];
      } else {
        answers, taken, fates := answers + [Answer(r.id, reply)], taken + [r], fates + [f];
      }
    }

    method BeginBatch()
      requires Valid()
      modifies this`batching
      ensures Valid() && batching
    {
      if !batching { batching := true; }
    }

    /** A command that joins the open batch. */
    method Join(r: Request)
      requires Valid() && Tracking() && batching && IsBatchable(r)
      modifies this
      ensures Valid() && Tracking() && taken == old(taken) + [r] && start == old(start)
      ensures old(answers) <= answers && Stays(old(fates), fates)
    {
      hide StoreFits, AnswersFit, AllExplained, WellBehaved, WriteFailed, Tracks, NeedsAbort, Settle, BatchAnswers, Effect, Overlay, EffectAfter;
      ghost var batch, failed := Batch(dupCheckMap, |batchReqIDList|), WriteFailed(writeFails, writes);
      ghost var e := Effect(exec, db, r);
      ListsMatch(answers, taken, fates, batchReqIDList, batchReqRspList);
      if NoneLost(fates) { SameEffect(exec, start, db, wb, taken, fates, r); }
      if e.Failed? && NeedsAbort(e.err) {
        TracksSpoiled(exec, start, taken, fates, batch, failed, r, e);
        StaysMore(fates, Fails(e.err));
        StaysSettled(fates + [Fails(e.err)], Some(e.err));
      } else {
        TracksJoined(exec, start, taken, fates, batch, failed, r, e);
        StaysMore(fates, if e.Wrote? then Waits(e.resp) else Fails(e.err));
      }
      ApplyBatched(r);
    }

    /** A command that runs by itself, after the batch before it was written. */
    method RunAlone(r: Request)
      requires Valid() && Tracking() && !Joins(Batch(dupCheckMap, |batchReqIDList|), r) && !r.kind.Malformed?
      modifies this
      ensures Valid() && Tracking() && taken == old(taken) + [r] && start == old(start)
      ensures old(answers) <= answers && Stays(old(fates), fates)
    {
      hide StoreFits, AnswersFit, AllExplained, WellBehaved, WriteFailed, Tracks, NeedsAbort, Settle, BatchAnswers, Effect, Overlay;
      hide Applier.Valid;
      ghost var batch, failed, err := Batch(dupCheckMap, |batchReqIDList|), WriteFailed(writeFails, writes), CommitError();
      WriteCounts(writeFails, writes);
      CommitBatch();
      ghost var f := if IsCommand(r) then SingleFate(exec, db, r, writeFails(writes)) else Refused;
      WriteCounts(writeFails, writes);
      if IsCommand(r) { ApplySingle(r); } else { Refuse(r); }
      TracksClosed(exec, start, old(taken), old(fates), batch, failed, r, err, f, WriteFailed(writeFails, writes));
      StaysSettled(old(fates), err);
      StaysMore(Settle(old(fates), err), f);
    }

    /** One round of the request loop: the request gets its fate, answers once given stay, and only
        what waits may change its fate. */
    method ApplyOne(r: Request)
      requires Valid() && Tracking()
      modifies this
      ensures Valid() && Tracking() && taken == old(taken) + [r] && start == old(start)
      ensures old(answers) <= answers && Stays(old(fates), fates)
    {
      hide Tracks, WriteFailed, Settle;
      if r.kind.Malformed? {
        TracksMalformed(exec, start, taken, fates, Batch(dupCheckMap, |batchReqIDList|), WriteFailed(writeFails, writes), r);
        StaysMore(fates, Refused);
        Refuse(r);
      } else if IsBatchable(r) {
        BeginBatch();
        Join(r);
      } else {
        RunAlone(r);
      }
    }

    /** Whatever the requests, failures and aborts. Every request has the fate it earns on the store
        left by the successful ones before it, and that store is the result; each gets exactly the
        answer of its fate, the successful ones in order. A request that would have succeeded is
        lost only to a failed write or to a later command failing in its batch. While no write
        fails, the replies are those of one request at a time exactly if no command spoils a batch. */
    method ApplyAll(reqs: seq<Request>)
      requires Valid() && Tracking() && taken == [] && !batching
      modifies this
      ensures |fates| == |reqs| && NoneWaits(fates) && Fits(exec, old(db), reqs, fates)
      ensures db == After(exec, old(db), reqs, fates)
      ensures BagOf(answers) == Due(reqs, fates) && Oks(answers) == Successes(reqs, fates)
      ensures AllExplained(reqs, fates, WriteFailed(writeFails, writes))
      ensures !WriteFailed(writeFails, writes) ==>
                (Replies(reqs, fates) == Replies(reqs, OneByOne(exec, old(db), reqs)) <==> !SomeSpoils(exec, old(db), reqs))
      ensures !WriteFailed(writeFails, writes) && !SomeSpoils(exec, old(db), reqs) ==> fates == OneByOne(exec, old(db), reqs)
    {
      assert start == db;
      for k := 0 to |reqs|
        invariant Valid() && Tracking() && taken == reqs[..k] && start == old(start)
      {
        ApplyOne(reqs[k]);
      }
      assert taken == reqs;
      ghost var before, failed := fates, WriteFailed(writeFails, writes);
      WriteCounts(writeFails, writes);
      LossOfSettled(fates, CommitError());
      CommitBatch();
      Unsettled(fates, Some(""));
      NoneLostIsOneByOne(exec, start, reqs, fates);
      LossShows(exec, start, reqs, fates);
    }
  }
}
