/** How a read that is delivered twice can release another one too early: a run of three voters, with
    unique contexts and one duplicated message. It makes the guard of ReadIndex exact. */
module StaleRead {
  import opened RaftTypes
  import opened Logs
  import opened RaftNode
  import opened Refinement
  import opened Cluster
  import opened ReadIndex

  // ---------------------------------------------------------------- three voters

  function NoSize(e: Entry): nat { 0 }

  const CFG: Config := Config({1, 2, 3}, 256, 0, 10, false, false, false, false, NoSize)
  const E1 := Entry(1, 2, "")
  const E2 := Entry(2, 3, "")

  function Three(a: Progress, b: Progress, c: Progress): map<Id, Progress> { map[1 := a, 2 := b, 3 := c] }

  function Probing(matched: nat, next: Pos, paused: bool, active: bool): Progress {
    Progress(matched, next, Probe, paused, active, [])
  }

  function Replicating(matched: nat, next: Pos, active: bool): Progress {
    Progress(matched, next, Replicate, false, active, [])
  }

  const NEW := Three(Probing(0, 1, false, false), Probing(0, 1, false, false), Probing(0, 1, false, false))

  lemma QuorumOfThree(n: Node, a: Progress, b: Progress, c: Progress)
    requires n.prs == Three(a, b, c)
    ensures n.prs.Keys == {1, 2, 3} && QuorumSize(n) == 2
  {
    assert n.prs.Keys == {1, 2, 3};
    assert |n.prs| == |n.prs.Keys|;
  }

  lemma QuorumIndexIs(prs: map<Id, Progress>, k: nat, some: set<Id>, more: set<Id>)
    requires |prs| >= 2 && Reached(prs, k) == some && Reached(prs, k + 1) == more && |some| >= 2 > |more|
    ensures QuorumIndex(prs, 2) == k
  {
    QuorumIndexUnique(prs, 2, k, QuorumIndex(prs, 2));
  }

  /** A follower of term t with vote v, log `log`, commit index c and leader l, all progress as `prs`. */
  function Follows(id: Id, t: nat, v: Id, log: seq<Entry>, c: nat, l: Id, prs: map<Id, Progress>): Node {
    Node(id, t, v, log, c, Follower, l, map[], prs, NONE, [], [], 0)
  }

  function Leads(id: Id, t: nat, log: seq<Entry>, c: nat, prs: map<Id, Progress>): Node {
    Node(id, t, id, log, c, Leader, id, map[], prs, NONE, [], [], 0)
  }

  function Stands(id: Id, t: nat, log: seq<Entry>, c: nat, prs: map<Id, Progress>): Node {
    Node(id, t, id, log, c, Candidate, NONE, map[id := true], prs, NONE, [], [], 0)
  }

  /** Every confirmation asked for in `ms` is for one of these contexts. */
  ghost predicate OnlyAsks(ms: set<Msg>, ctxs: set<Ctx>) { forall m | m in ms && m.MsgHeartbeat? :: m.ctx in ctxs }

  /** Handling m takes n to n' and sends at least `sent`, asking only about `ctxs`. */
  ghost predicate Takes(n: Node, m: Msg, n': Node, sent: set<Msg>, ctxs: set<Ctx>) {
    && Member(n) && Step(CFG, n, m).Done?
    && Step(CFG, n, m).value.n == n' && sent <= Step(CFG, n, m).value.out
    && OnlyAsks(Step(CFG, n, m).value.out, ctxs)
  }

  // ---------------------------------------------------------------- sending and committing with three voters

  /** One peer after a broadcast. */
  function Told(n: Node, j: Id, pr: Progress): Progress {
    if j != n.id && Sends(CFG, n, pr, true) then AfterSend(CFG, n, pr) else pr
  }

  lemma Broadcast(n: Node, prs: map<Id, Progress>)
    requires prs.Keys == n.prs.Keys && forall j | j in prs :: prs[j] == Told(n, j, n.prs[j])
    ensures BcastAppend(CFG, Work(n, {})).n == n.(prs := prs)
  {
    hide Sends, AfterSend, AppendMsg;
    assert BcastAppend(CFG, Work(n, {})).n.prs == prs;
  }

  lemma BroadcastSends(n: Node)
    ensures OnlyAsks(BcastAppend(CFG, Work(n, {})).out, {})
    ensures forall j | j in n.prs && j != n.id && Sends(CFG, n, n.prs[j], true) ::
              AppendMsg(CFG, n, j, n.prs[j]) in BcastAppend(CFG, Work(n, {})).out
  {
    hide Sends, AfterSend, EntriesFrom;
  }

  lemma ProbeSends(n: Node, j: Id, pr: Progress, es: seq<Entry>)
    requires pr.state == Probe && !pr.paused && EntriesFrom(CFG, n.log, pr.next) == es != [] && j != n.id
    ensures Sends(CFG, n, pr, true) && Told(n, j, pr) == pr.(paused := true)
    ensures AppendMsg(CFG, n, j, pr) == MsgApp(n.term, n.id, j, pr.next - 1, TermAt(n.log, pr.next - 1), n.committed, es)
  {
  }

  /** A paused probe is left alone, and so is a peer that has everything. */
  lemma Untold(n: Node, j: Id, pr: Progress)
    requires (pr.state == Probe && pr.paused) || (pr.state == Replicate && pr.ins == [] && EntriesFrom(CFG, n.log, pr.next) == [])
    ensures Told(n, j, pr) == pr && !Sends(CFG, n, pr, false)
  {
  }

  lemma OwnIsUntold(n: Node, pr: Progress)
    ensures Told(n, n.id, pr) == pr
  {
  }

  /** The commit rule with these match indexes. */
  lemma Commits3(n: Node, a: Progress, b: Progress, c: Progress, k: nat, some: set<Id>, more: set<Id>)
    requires n.prs == Three(a, b, c) && Member(n)
    requires Reached(n.prs, k) == some && Reached(n.prs, k + 1) == more && |some| >= 2 > |more|
    ensures MaybeCommit(n) == if k > n.committed && TermAt(n.log, k) == n.term then (n.(committed := k), true) else (n, false)
  {
    QuorumOfThree(n, a, b, c);
    QuorumIndexIs(n.prs, k, some, more);
  }

  // ---------------------------------------------------------------- the steps, node by node

  const START := Three(Probing(0, 1, false, true), Probing(0, 1, false, true), Probing(0, 1, false, true))

  lemma Stand1(n: Node)
    requires n == Follows(1, 1, NONE, [], 0, NONE, START)
    ensures n.role != Leader && Poll(BecomeCandidate(n), n.id, true) == Stands(1, 2, [], 0, NEW)
  {
    assert BecomeCandidate(n).prs == Stands(1, 2, [], 0, NEW).prs;
  }

  lemma Campaign1()
    ensures Takes(Follows(1, 1, NONE, [], 0, NONE, START), MsgHup, Stands(1, 2, [], 0, NEW),
                  {MsgVote(2, 1, 2, 0, 0, false)}, {})
  {
    hide BecomeCandidate, Poll, BecomeLeader;
    var n := Follows(1, 1, NONE, [], 0, NONE, START);
    var n' := Stands(1, 2, [], 0, NEW);
    Stand1(n);
    QuorumOfThree(n', NEW[1], NEW[2], NEW[3]);
    assert Granted(n') == {1};
    assert MsgVote(2, 1, 2, 0, 0, false) in Campaign(Work(n, {}), Election).out;
  }

  lemma Vote2()
    ensures Takes(Follows(2, 1, NONE, [], 0, NONE, START), MsgVote(2, 1, 2, 0, 0, false), Follows(2, 2, 1, [], 0, NONE, NEW),
                  {MsgVoteResp(2, 2, 1, false)}, {})
  {
    var n := Follows(2, 1, NONE, [], 0, NONE, START);
    assert BecomeFollower(n, 2, NONE).prs == NEW;
  }

  const ELECTED1 := Three(Replicating(1, 2, false), Probing(0, 1, false, false), Probing(0, 1, false, false))
  const OFFICE1 := Three(Replicating(1, 2, false), Probing(0, 1, true, false), Probing(0, 1, true, false))

  const TAKEN1 := Three(Replicating(0, 1, false), NEW[2], NEW[3])

  lemma Take1(n: Node)
    requires n == Poll(Stands(1, 2, [], 0, NEW), 2, true)
    ensures TakeOffice(n) == Leads(1, 2, [], 0, TAKEN1)
  {
    assert TakeOffice(n).prs == TAKEN1;
  }

  lemma Open1(n: Node)
    requires n == Leads(1, 2, [], 0, TAKEN1)
    ensures AppendEntry(n, [""]) == Leads(1, 2, [E1], 0, ELECTED1)
  {
    hide MaybeCommit;
    assert NewEntries(n, [""]) == [E1] && [] + [E1] == [E1];
    assert TAKEN1[1 := MaybeUpdate(TAKEN1[1], 1)] == ELECTED1;
    assert Reached(ELECTED1, 0) == {1, 2, 3} && Reached(ELECTED1, 1) == {1};
    Commits3(Leads(1, 2, [E1], 0, ELECTED1), ELECTED1[1], ELECTED1[2], ELECTED1[3], 0, {1, 2, 3}, {1});
  }

  lemma Office1(n: Node)
    requires n == Poll(Stands(1, 2, [], 0, NEW), 2, true)
    ensures BecomeLeader(n) == Leads(1, 2, [E1], 0, ELECTED1)
  {
    hide TakeOffice, AppendEntry;
    Take1(n);
    Open1(TakeOffice(n));
  }

  lemma Announce1(l: Node)
    requires l == Leads(1, 2, [E1], 0, ELECTED1)
    ensures var w := BcastAppend(CFG, Work(l, {}));
            && w.n == Leads(1, 2, [E1], 0, OFFICE1) && OnlyAsks(w.out, {})
            && {MsgApp(2, 1, 2, 0, 0, 0, [E1]), MsgApp(2, 1, 3, 0, 0, 0, [E1])} <= w.out
  {
    hide BcastAppend, Sends, AfterSend, EntriesFrom, AppendMsg, Told;
    SendsAll(l, 1);
    BroadcastSends(l);
    OwnIsUntold(l, ELECTED1[1]);
    ProbeSends(l, 2, ELECTED1[2], [E1]);
    ProbeSends(l, 3, ELECTED1[3], [E1]);
    Broadcast(l, OFFICE1);
  }

  lemma Win1()
    ensures Takes(Stands(1, 2, [], 0, NEW), MsgVoteResp(2, 2, 1, false), Leads(1, 2, [E1], 0, OFFICE1),
                  {MsgApp(2, 1, 2, 0, 0, 0, [E1]), MsgApp(2, 1, 3, 0, 0, 0, [E1])}, {})
  {
    hide BecomeLeader, BcastAppend;
    var n := Poll(Stands(1, 2, [], 0, NEW), 2, true);
    assert Granted(n) == {1, 2};
    QuorumOfThree(n, NEW[1], NEW[2], NEW[3]);
    Office1(n);
    Announce1(BecomeLeader(n));
  }

  /** With entries of no size, one append carries everything from `next` on. */
  lemma SendsAll(n: Node, next: Pos)
    requires 1 <= next <= 2
    ensures n.log == [E1] ==> EntriesFrom(CFG, n.log, next) == if next == 1 then [E1] else []
    ensures n.log == [E1, E2] && next == 2 ==> EntriesFrom(CFG, n.log, next) == [E2]
  {
    if n.log == [E1, E2] && next == 2 { assert n.log[1..] == [E2]; }
  }

  lemma Append2()
    ensures Takes(Follows(2, 2, 1, [], 0, NONE, NEW), MsgApp(2, 1, 2, 0, 0, 0, [E1]), Follows(2, 2, 1, [E1], 0, 1, NEW),
                  {MsgAppResp(2, 2, 1, 1, false, 0)}, {})
  {
    FirstAppend();
  }

  lemma FirstAppend()
    ensures FindConflict(Plain([]), [E1]) == 1 && Contiguous([E1], 1) && Merged(Plain([]), 0, [E1]).ents == [E1]
  {
    assert [E1][0..] == [E1];
  }

  lemma Append3()
    ensures Takes(Follows(3, 1, NONE, [], 0, NONE, START), MsgApp(2, 1, 3, 0, 0, 0, [E1]), Follows(3, 2, NONE, [E1], 0, 1, NEW), {}, {})
  {
    FirstAppend();
    assert BecomeFollower(Follows(3, 1, NONE, [], 0, NONE, START), 2, 1).prs == NEW;
  }

  const ACKED1 := Three(Replicating(1, 2, false), Replicating(1, 2, true), Probing(0, 1, true, false))

  lemma Matched1(n: Node)
    requires n == Leads(1, 2, [E1], 0, ACKED1)
    ensures var w := LeaderMatched(CFG, n, 2, true); w.n == Leads(1, 2, [E1], 1, ACKED1) && OnlyAsks(w.out, {})
  {
    hide BcastAppend, Sends, EntriesFrom, Told, MaybeCommit;
    assert Reached(ACKED1, 1) == {1, 2} && Reached(ACKED1, 2) == {};
    Commits3(n, ACKED1[1], ACKED1[2], ACKED1[3], 1, {1, 2}, {});
    var c := Leads(1, 2, [E1], 1, ACKED1);
    SendsAll(c, 2);
    BroadcastSends(c);
    OwnIsUntold(c, ACKED1[1]);
    Untold(c, 2, ACKED1[2]);
    Untold(c, 3, ACKED1[3]);
    Broadcast(c, ACKED1);
  }

  lemma Commit1()
    ensures Takes(Leads(1, 2, [E1], 0, OFFICE1), MsgAppResp(2, 2, 1, 1, false, 0), Leads(1, 2, [E1], 1, ACKED1), {}, {})
  {
    hide LeaderMatched;
    assert OFFICE1[2 := Replicating(1, 2, true)] == ACKED1;
    Matched1(Leads(1, 2, [E1], 0, ACKED1));
  }

  lemma Forward2()
    ensures Takes(Follows(2, 2, 1, [E1], 0, 1, NEW), MsgReadIndex(NONE, 2, "k"), Follows(2, 2, 1, [E1], 0, 1, NEW),
                  {MsgReadIndex(2, 1, "k")}, {})
  {
  }

  function Pends(pending: seq<PendingRead>): Node { Leads(1, 2, [E1], 1, ACKED1).(pending := pending) }

  const K := PendingRead("k", 2, 1, {})
  const X := PendingRead("x", NONE, 1, {})

  /** The leader of term 2 adds a read and asks for its confirmation. */
  lemma Ask(pending: seq<PendingRead>, m: Msg, r: PendingRead)
    requires m.MsgReadIndex? && r == PendingRead(m.ctx, m.from, 1, {}) && !IsPending(Pends(pending), m.ctx)
    ensures Takes(Pends(pending), m, Pends(pending + [r]),
                  {MsgHeartbeat(2, 1, 2, 1, m.ctx), MsgHeartbeat(2, 1, 3, 0, m.ctx)}, {m.ctx})
  {
    hide LeaderReadIndex, BcastHeartbeat;
    AddsAndAsks(Pends(pending), m, r);
    Asks(Pends(pending + [r]), m.ctx);
  }

  lemma AddsAndAsks(n: Node, m: Msg, r: PendingRead)
    requires n == Pends(n.pending) && m.MsgReadIndex? && r == PendingRead(m.ctx, m.from, 1, {}) && !IsPending(n, m.ctx)
    ensures LeaderReadIndex(CFG, n, m) == BcastHeartbeat(Work(Pends(n.pending + [r]), {}), m.ctx)
  {
    QuorumOfThree(n, ACKED1[1], ACKED1[2], ACKED1[3]);
    AddsRead(n, m);
    hide AddRead, QuorumSize, BcastHeartbeat;
  }

  lemma Asks(n: Node, ctx: Ctx)
    requires n == Pends(n.pending)
    ensures var w := BcastHeartbeat(Work(n, {}), ctx);
            && w.n == n && {MsgHeartbeat(2, 1, 2, 1, ctx), MsgHeartbeat(2, 1, 3, 0, ctx)} <= w.out
            && OnlyAsks(w.out, {ctx})
  {
    assert HeartbeatMsg(n, 2, ctx) == MsgHeartbeat(2, 1, 2, 1, ctx);
    assert HeartbeatMsg(n, 3, ctx) == MsgHeartbeat(2, 1, 3, 0, ctx);
  }

  lemma AddsRead(n: Node, m: Msg)
    requires m.MsgReadIndex? && !IsPending(n, m.ctx)
    ensures AddRead(n.pending, n.committed, m.from, m.ctx) == n.pending + [PendingRead(m.ctx, m.from, n.committed, {})]
  {
  }

  lemma Confirm3()
    ensures Takes(Follows(3, 2, NONE, [E1], 0, 1, NEW), MsgHeartbeat(2, 1, 3, 0, "k"), Follows(3, 2, NONE, [E1], 0, 1, NEW),
                  {MsgHeartbeatResp(2, 3, 1, "k")}, {})
  {
  }

  lemma Confirm2()
    ensures Takes(Follows(2, 2, 1, [E1], 0, 1, NEW), MsgHeartbeat(2, 1, 2, 1, "k"), Follows(2, 2, 1, [E1], 1, 1, NEW),
                  {MsgHeartbeatResp(2, 2, 1, "k")}, {})
  {
  }

  /** A confirmation that makes the majority releases its read and all that wait before it. */
  lemma AckReleases(w: Work, from: Id, ctx: Ctx, acked: seq<PendingRead>, k: nat)
    requires QuorumSize(w.n) == 2 && acked == AckRead(w.n.pending, ctx, from)
    requires k == FindRead(acked, ctx) < |acked| && |acked[k].acks| == 1
    ensures LeaderAckRead(w, from, ctx) == ReleaseReads(w.(n := w.n.(pending := acked[k + 1..])), acked[..k + 1])
  {
    hide AckRead, FindRead, ReleaseReads;
  }

  lemma AckReleasesOnly(w: Work, r: PendingRead, from: Id)
    requires QuorumSize(w.n) == 2 && w.n.pending == [r] && r.acks == {}
    ensures LeaderAckRead(w, from, r.ctx) == ReleaseRead(w.(n := w.n.(pending := [])), r.(acks := {from}))
  {
    hide LeaderAckRead, QuorumSize, ReleaseReads, ReleaseRead, AckRead, FindRead;
    var acked := [r.(acks := {from})];
    AcksOne(r, from);
    AckReleases(w, from, r.ctx, acked, 0);
    assert acked[..1] == acked && acked[1..] == [];
    ReleasesOne(w.(n := w.n.(pending := [])), acked[0]);
  }

  lemma AckReleases1(n: Node)
    requires n == Pends([K])
    ensures LeaderAckRead(Work(n, {}), 2, "k") == Work(Pends([]), {MsgReadIndexResp(2, 1, 2, 1, "k")})
  {
    QuorumOfThree(n, ACKED1[1], ACKED1[2], ACKED1[3]);
    hide LeaderAckRead, QuorumSize;
    AckReleasesOnly(Work(n, {}), K, 2);
  }

  lemma AcksOne(r: PendingRead, from: Id)
    requires r.acks == {}
    ensures AckRead([r], r.ctx, from) == [r.(acks := {from})] && FindRead([r.(acks := {from})], r.ctx) == 0
  {
    assert {} + {from} == {from};
    assert [r][0 := r.(acks := {from})] == [r.(acks := {from})];
  }

  lemma ReleasesOne(w: Work, r: PendingRead)
    ensures ReleaseReads(w, [r]) == ReleaseRead(w, r)
  {
    hide ReleaseRead;
    assert [r][1..] == [];
  }

  /** The first release of k is sound. */
  lemma Release1()
    ensures Takes(Pends([K]), MsgHeartbeatResp(2, 2, 1, "k"), Pends([]), {MsgReadIndexResp(2, 1, 2, 1, "k")}, {})
  {
    hide LeaderAckRead, SendAppend, FreeTo;
    var n := Pends([K]);
    assert SetProgress(n, 2, ACKED1[2]) == n by { assert ACKED1[2 := ACKED1[2]] == ACKED1; }
    AckReleases1(n);
  }

  // The other two voters elect a new leader, which commits more.

  const AGAIN2 := Three(Probing(0, 2, false, false), Probing(1, 2, false, false), Probing(0, 2, false, false))
  const AGAIN3 := Three(Probing(0, 2, false, false), Probing(0, 2, false, false), Probing(1, 2, false, false))

  lemma Stand2(n: Node)
    requires n == Follows(2, 2, 1, [E1], 1, 1, NEW)
    ensures n.role != Leader && Poll(BecomeCandidate(n), n.id, true) == Stands(2, 3, [E1], 1, AGAIN2)
  {
    assert BecomeCandidate(n).prs == Stands(2, 3, [E1], 1, AGAIN2).prs;
  }

  lemma Campaign2()
    ensures Takes(Follows(2, 2, 1, [E1], 1, 1, NEW), MsgHup, Stands(2, 3, [E1], 1, AGAIN2),
                  {MsgVote(3, 2, 3, 1, 2, false)}, {})
  {
    hide BecomeCandidate, Poll, BecomeLeader;
    var n := Follows(2, 2, 1, [E1], 1, 1, NEW);
    var n' := Stands(2, 3, [E1], 1, AGAIN2);
    Stand2(n);
    QuorumOfThree(n', AGAIN2[1], AGAIN2[2], AGAIN2[3]);
    assert Granted(n') == {2};
    assert MsgVote(3, 2, 3, 1, 2, false) in Campaign(Work(n, {}), Election).out;
  }

  lemma Vote3()
    ensures Takes(Follows(3, 2, NONE, [E1], 0, 1, NEW), MsgVote(3, 2, 3, 1, 2, false), Follows(3, 3, 2, [E1], 0, NONE, AGAIN3),
                  {MsgVoteResp(3, 3, 2, false)}, {})
  {
    assert BecomeFollower(Follows(3, 2, NONE, [E1], 0, 1, NEW), 3, NONE).prs == AGAIN3;
  }

  const ELECTED2 := Three(Probing(0, 2, false, false), Replicating(2, 3, false), Probing(0, 2, false, false))
  const OFFICE2 := Three(Probing(0, 2, true, false), Replicating(2, 3, false), Probing(0, 2, true, false))

  const TAKEN2 := Three(AGAIN2[1], Replicating(1, 2, false), AGAIN2[3])

  lemma Take2(n: Node)
    requires n == Poll(Stands(2, 3, [E1], 1, AGAIN2), 3, true)
    ensures TakeOffice(n) == Leads(2, 3, [E1], 1, TAKEN2)
  {
    assert TakeOffice(n).prs == TAKEN2;
  }

  lemma Open2(n: Node)
    requires n == Leads(2, 3, [E1], 1, TAKEN2)
    ensures AppendEntry(n, [""]) == Leads(2, 3, [E1, E2], 1, ELECTED2)
  {
    hide MaybeCommit;
    assert NewEntries(n, [""]) == [E2] && [E1] + [E2] == [E1, E2];
    assert TAKEN2[2 := MaybeUpdate(TAKEN2[2], 2)] == ELECTED2;
    assert Reached(ELECTED2, 0) == {1, 2, 3} && Reached(ELECTED2, 1) == {2};
    Commits3(Leads(2, 3, [E1, E2], 1, ELECTED2), ELECTED2[1], ELECTED2[2], ELECTED2[3], 0, {1, 2, 3}, {2});
  }

  lemma Office2(n: Node)
    requires n == Poll(Stands(2, 3, [E1], 1, AGAIN2), 3, true)
    ensures BecomeLeader(n) == Leads(2, 3, [E1, E2], 1, ELECTED2)
  {
    hide TakeOffice, AppendEntry;
    Take2(n);
    Open2(TakeOffice(n));
  }

  lemma Announce2(l: Node)
    requires l == Leads(2, 3, [E1, E2], 1, ELECTED2)
    ensures var w := BcastAppend(CFG, Work(l, {}));
            w.n == Leads(2, 3, [E1, E2], 1, OFFICE2) && OnlyAsks(w.out, {}) && MsgApp(3, 2, 3, 1, 2, 1, [E2]) in w.out
  {
    hide BcastAppend, Sends, AfterSend, EntriesFrom, AppendMsg, Told;
    SendsAll(l, 2);
    BroadcastSends(l);
    OwnIsUntold(l, ELECTED2[2]);
    ProbeSends(l, 1, ELECTED2[1], [E2]);
    ProbeSends(l, 3, ELECTED2[3], [E2]);
    Broadcast(l, OFFICE2);
  }

  lemma Win2()
    ensures Takes(Stands(2, 3, [E1], 1, AGAIN2), MsgVoteResp(3, 3, 2, false), Leads(2, 3, [E1, E2], 1, OFFICE2),
                  {MsgApp(3, 2, 3, 1, 2, 1, [E2])}, {})
  {
    hide BecomeLeader, BcastAppend;
    var n := Poll(Stands(2, 3, [E1], 1, AGAIN2), 3, true);
    assert Granted(n) == {2, 3};
    QuorumOfThree(n, AGAIN2[1], AGAIN2[2], AGAIN2[3]);
    Office2(n);
    Announce2(BecomeLeader(n));
  }

  lemma AppendNext3()
    ensures Takes(Follows(3, 3, 2, [E1], 0, NONE, AGAIN3), MsgApp(3, 2, 3, 1, 2, 1, [E2]), Follows(3, 3, 2, [E1, E2], 1, 2, AGAIN3),
                  {MsgAppResp(3, 3, 2, 2, false, 0)}, {})
  {
    SecondAppend();
  }

  lemma SecondAppend()
    ensures FindConflict(Plain([E1]), [E2]) == 2 && Contiguous([E2], 2) && Merged(Plain([E1]), 1, [E2]).ents == [E1, E2]
  {
    assert [E2][0..] == [E2] && [E1][..1] == [E1];
  }

  const ACKED2 := Three(Probing(0, 2, true, false), Replicating(2, 3, false), Replicating(2, 3, true))

  lemma Matched2(n: Node)
    requires n == Leads(2, 3, [E1, E2], 1, ACKED2)
    ensures var w := LeaderMatched(CFG, n, 3, true); w.n == Leads(2, 3, [E1, E2], 2, ACKED2) && OnlyAsks(w.out, {})
  {
    hide BcastAppend, Sends, Told, MaybeCommit;
    assert Reached(ACKED2, 2) == {2, 3} && Reached(ACKED2, 3) == {};
    Commits3(n, ACKED2[1], ACKED2[2], ACKED2[3], 2, {2, 3}, {});
    var c := Leads(2, 3, [E1, E2], 2, ACKED2);
    BroadcastSends(c);
    OwnIsUntold(c, ACKED2[2]);
    Untold(c, 1, ACKED2[1]);
    Untold(c, 3, ACKED2[3]);
    Broadcast(c, ACKED2);
  }

  lemma Commit2()
    ensures Takes(Leads(2, 3, [E1, E2], 1, OFFICE2), MsgAppResp(3, 3, 2, 2, false, 0), Leads(2, 3, [E1, E2], 2, ACKED2), {}, {})
  {
    hide LeaderMatched;
    assert OFFICE2[3 := Replicating(2, 3, true)] == ACKED2;
    Matched2(Leads(2, 3, [E1, E2], 1, ACKED2));
  }

  // The old leader takes an old acknowledgement of k for a new one, and releases x with it.

  const STALE := Three(Replicating(1, 2, false), Replicating(1, 2, true), Probing(0, 1, true, true))

  lemma Resend3(n: Node, w: Work)
    requires n == Pends([X, K]) && w == Work(n.(prs := ACKED1[3 := Probing(0, 1, false, true)]), {})
    ensures SendAppend(CFG, w, 3, true).n == n.(prs := STALE) && OnlyAsks(SendAppend(CFG, w, 3, true).out, {})
  {
    SendsAll(w.n, 1);
    assert SendAppend(CFG, w, 3, true).n.prs == STALE;
  }

  function Fooled(): Node { Leads(1, 2, [E1], 1, STALE).(readStates := [ReadState(1, "x")]) }

  lemma ReleaseBoth(w: Work)
    requires w.n == Pends([X, K]).(prs := STALE) && OnlyAsks(w.out, {})
    ensures LeaderAckRead(w, 3, "k").n == Fooled() && OnlyAsks(LeaderAckRead(w, 3, "k").out, {})
  {
    QuorumOfThree(w.n, STALE[1], STALE[2], STALE[3]);
    hide LeaderAckRead, QuorumSize, AckRead, FindRead, ReleaseReads;
    var k := K.(acks := {3});
    AcksSecond(X, K, 3);
    AckReleases(w, 3, "k", [X, k], 1);
    assert [X, k][..2] == [X, k] && [X, k][2..] == [];
    ReleasesTwo(w.(n := w.n.(pending := [])), X, k);
  }

  lemma AcksSecond(q: PendingRead, r: PendingRead, from: Id)
    requires q.ctx != r.ctx && r.acks == {}
    ensures AckRead([q, r], r.ctx, from) == [q, r.(acks := {from})] && FindRead([q, r.(acks := {from})], r.ctx) == 1
  {
    assert [q, r][1..] == [r] && [q, r.(acks := {from})][1..] == [r.(acks := {from})];
    assert {} + {from} == {from};
    assert [q, r][1 := r.(acks := {from})] == [q, r.(acks := {from})];
  }

  lemma ReleasesTwo(w: Work, q: PendingRead, r: PendingRead)
    ensures ReleaseReads(w, [q, r]) == ReleaseRead(ReleaseRead(w, q), r)
  {
    hide ReleaseRead;
    assert [q, r][1..] == [r];
    ReleasesOne(ReleaseRead(w, q), r);
  }

  lemma Release3()
    ensures Takes(Pends([X, K]), MsgHeartbeatResp(2, 3, 1, "k"), Fooled(), {}, {})
  {
    hide SendAppend, LeaderAckRead;
    var n := Pends([X, K]);
    var w := Work(n.(prs := ACKED1[3 := Probing(0, 1, false, true)]), {});
    Resend3(n, w);
    ReleaseBoth(SendAppend(CFG, w, 3, true));
    assert LeaderHeartbeatResp(CFG, n, MsgHeartbeatResp(2, 3, 1, "k")) == LeaderAckRead(SendAppend(CFG, w, 3, true), 3, "k");
  }

  // ---------------------------------------------------------------- the run

  /** Where a run stands: its nodes, messages in the network, and the contexts asked about. */
  datatype Stage = Stage(a: Node, b: Node, c: Node, msgs: set<Msg>, asks: set<Ctx>) {
    function Node(i: Id): Node
      requires 1 <= i <= 3
    {
      if i == 1 then a else if i == 2 then b else c
    }

    function After(i: Id, n: Node, sent: set<Msg>, ctxs: set<Ctx>): Stage {
      Stage(if i == 1 then n else a, if i == 2 then n else b, if i == 3 then n else c, msgs + sent, asks + ctxs)
    }
  }

  ghost predicate At(c: Cluster, s: Stage) {
    c.nodes == map[1 := s.a, 2 := s.b, 3 := s.c] && s.msgs <= c.net && OnlyAsks(c.net, s.asks)
  }

  ghost predicate Reaches(guard: Standing -> bool, r: seq<Cluster>, s: Stage) {
    RunUnder(guard, CFG, [], r) && |r| > 0 && At(r[|r| - 1], s)
  }

  lemma Extends(guard: Standing -> bool, r: seq<Cluster>, c: Cluster)
    requires RunUnder(guard, CFG, [], r) && |r| > 0 && NextUnder(guard, CFG, r[|r| - 1], c)
    ensures RunUnder(guard, CFG, [], r + [c])
  {
    hide Init, NextUnder;
    var r' := r + [c];
    forall x | 0 <= x < |r'| - 1 ensures NextUnder(guard, CFG, r'[x], r'[x + 1]) {
      if x < |r| - 1 { assert NextUnder(guard, CFG, r[x], r[x + 1]); }
    }
  }

  /** Message m may be delivered to node i here. */
  ghost predicate Due(guard: Standing -> bool, c: Cluster, s: Stage, i: Id, m: Msg)
    requires 1 <= i <= 3
  {
    && (if IsLocal(m) then m.MsgHup? || m.MsgReadIndex? else m in s.msgs && m.to == i)
    && (m.MsgReadIndex? && s.Node(i).role == Leader ==> i in c.nodes && Admits(guard, c, i, m))
  }

  lemma Deliver(guard: Standing -> bool, c: Cluster, s: Stage, i: Id, m: Msg, n: Node, sent: set<Msg>, ctxs: set<Ctx>)
    returns (c': Cluster)
    requires 1 <= i <= 3 && At(c, s) && Due(guard, c, s, i, m) && Takes(s.Node(i), m, n, sent, ctxs)
    ensures NextUnder(guard, CFG, c, c') && At(c', s.After(i, n, sent, ctxs))
  {
    hide Step, StandingOf, OnlyAsks;
    assert s.Node(i) == c.nodes[i];
    var w := Step(CFG, c.nodes[i], m).value;
    c' := Cluster(c.nodes[i := w.n], c.net + w.out);
    assert DeliversTo(guard, CFG, c, c', i, m);
    Arrives(c, s, i, n, w.out, sent, ctxs);
  }

  lemma Arrives(c: Cluster, s: Stage, i: Id, n: Node, out: set<Msg>, sent: set<Msg>, ctxs: set<Ctx>)
    requires 1 <= i <= 3 && At(c, s) && sent <= out && OnlyAsks(out, ctxs)
    ensures At(Cluster(c.nodes[i := n], c.net + out), s.After(i, n, sent, ctxs))
  {
  }

  lemma Move(guard: Standing -> bool, r: seq<Cluster>, s: Stage, i: Id, m: Msg, n: Node, sent: set<Msg>, ctxs: set<Ctx>)
    returns (r': seq<Cluster>, s': Stage)
    requires 1 <= i <= 3 && Reaches(guard, r, s) && Due(guard, r[|r| - 1], s, i, m) && Takes(s.Node(i), m, n, sent, ctxs)
    ensures s' == s.After(i, n, sent, ctxs) && |r'| == |r| + 1 && r == r'[..|r|] && Reaches(guard, r', s')
  {
    hide Takes, RunUnder, Due, At, NextUnder;
    var c' := Deliver(guard, r[|r| - 1], s, i, m, n, sent, ctxs);
    Extends(guard, r, c');
    r', s' := r + [c'], s.After(i, n, sent, ctxs);
  }

  lemma Boot(guard: Standing -> bool) returns (r: seq<Cluster>, s: Stage)
    ensures s == Stage(Follows(1, 1, NONE, [], 0, NONE, START), Follows(2, 1, NONE, [], 0, NONE, START),
                       Follows(3, 1, NONE, [], 0, NONE, START), {}, {})
    ensures Reaches(guard, r, s)
  {
    var nodes := map i | i in CFG.voters :: InitNode(CFG, [], i);
    r := [Cluster(nodes, {})];
    forall i | i in CFG.voters ensures InitNode(CFG, [], i) == Follows(i, 1, NONE, [], 0, NONE, START) {
      assert InitNode(CFG, [], i).prs == START;
    }
    s := Stage(Follows(1, 1, NONE, [], 0, NONE, START), Follows(2, 1, NONE, [], 0, NONE, START),
               Follows(3, 1, NONE, [], 0, NONE, START), {}, {});
    assert nodes == map[1 := s.a, 2 := s.b, 3 := s.c];
  }

  /** Node 1 leads term 2 and has sent its first entry. */
  lemma FirstElection(guard: Standing -> bool) returns (r: seq<Cluster>, s: Stage)
    ensures Reaches(guard, r, s) && s.asks == {}
    ensures s.a == Leads(1, 2, [E1], 0, OFFICE1)
    ensures s.b == Follows(2, 2, 1, [], 0, NONE, NEW) && s.c == Follows(3, 1, NONE, [], 0, NONE, START)
    ensures {MsgApp(2, 1, 2, 0, 0, 0, [E1]), MsgApp(2, 1, 3, 0, 0, 0, [E1])} <= s.msgs
  {
    hide Takes, At, RunUnder, Admits;
    r, s := Boot(guard);
    Campaign1();
    r, s := Move(guard, r, s, 1, MsgHup, Stands(1, 2, [], 0, NEW), {MsgVote(2, 1, 2, 0, 0, false)}, {});
    Vote2();
    r, s := Move(guard, r, s, 2, MsgVote(2, 1, 2, 0, 0, false), Follows(2, 2, 1, [], 0, NONE, NEW), {MsgVoteResp(2, 2, 1, false)}, {});
    Win1();
    r, s := Move(guard, r, s, 1, MsgVoteResp(2, 2, 1, false), Leads(1, 2, [E1], 0, OFFICE1),
                 {MsgApp(2, 1, 2, 0, 0, 0, [E1]), MsgApp(2, 1, 3, 0, 0, 0, [E1])}, {});
  }

  /** Node 1 leads term 2 and has committed its first entry. */
  lemma FirstTerm(guard: Standing -> bool) returns (r: seq<Cluster>, s: Stage)
    ensures Reaches(guard, r, s) && s.asks == {}
    ensures s.a == Pends([]) && s.b == Follows(2, 2, 1, [E1], 0, 1, NEW) && s.c == Follows(3, 2, NONE, [E1], 0, 1, NEW)
  {
    hide Takes, At, RunUnder, Admits;
    r, s := FirstElection(guard);
    Append2();
    r, s := Move(guard, r, s, 2, MsgApp(2, 1, 2, 0, 0, 0, [E1]), Follows(2, 2, 1, [E1], 0, 1, NEW), {MsgAppResp(2, 2, 1, 1, false, 0)}, {});
    Append3();
    r, s := Move(guard, r, s, 3, MsgApp(2, 1, 3, 0, 0, 0, [E1]), Follows(3, 2, NONE, [E1], 0, 1, NEW), {}, {});
    Commit1();
    r, s := Move(guard, r, s, 1, MsgAppResp(2, 2, 1, 1, false, 0), Leads(1, 2, [E1], 1, ACKED1), {}, {});
  }

  /** A context that nobody asked about is new, whatever else is pending. */
  lemma NewRead(guard: Standing -> bool, r: seq<Cluster>, s: Stage, m: Msg)
    requires Reaches(guard, r, s) && m.MsgReadIndex? && m.ctx !in s.asks && (forall st: Standing | !st.asked :: guard(st))
    ensures 1 in r[|r| - 1].nodes && Admits(guard, r[|r| - 1], 1, m)
  {
    assert !Asked(r[|r| - 1].net, ReadKey(s.a.term, m.ctx));
  }

  /** Node 2 forwards read k; node 1 adds it, both others confirm it, and one confirmation releases it. */
  lemma FirstRead(guard: Standing -> bool) returns (r: seq<Cluster>, s: Stage)
    requires forall st: Standing | !st.asked :: guard(st)
    ensures Reaches(guard, r, s) && s.asks == {"k"}
    ensures s.a == Pends([]) && s.b == Follows(2, 2, 1, [E1], 1, 1, NEW) && s.c == Follows(3, 2, NONE, [E1], 0, 1, NEW)
    ensures {MsgReadIndex(2, 1, "k"), MsgHeartbeat(2, 1, 3, 0, "k"), MsgHeartbeatResp(2, 3, 1, "k")} <= s.msgs
  {
    hide Takes, At, RunUnder, Admits;
    r, s := FirstTerm(guard);
    Forward2();
    r, s := Move(guard, r, s, 2, MsgReadIndex(NONE, 2, "k"), s.b, {MsgReadIndex(2, 1, "k")}, {});
    Ask([], MsgReadIndex(2, 1, "k"), K);
    NewRead(guard, r, s, MsgReadIndex(2, 1, "k"));
    assert [] + [K] == [K];
    r, s := Move(guard, r, s, 1, MsgReadIndex(2, 1, "k"), Pends([K]), {MsgHeartbeat(2, 1, 2, 1, "k"), MsgHeartbeat(2, 1, 3, 0, "k")}, {"k"});
    Confirm3();
    r, s := Move(guard, r, s, 3, MsgHeartbeat(2, 1, 3, 0, "k"), s.c, {MsgHeartbeatResp(2, 3, 1, "k")}, {});
    Confirm2();
    r, s := Move(guard, r, s, 2, MsgHeartbeat(2, 1, 2, 1, "k"), Follows(2, 2, 1, [E1], 1, 1, NEW), {MsgHeartbeatResp(2, 2, 1, "k")}, {});
    Release1();
    r, s := Move(guard, r, s, 1, MsgHeartbeatResp(2, 2, 1, "k"), Pends([]), {MsgReadIndexResp(2, 1, 2, 1, "k")}, {});
  }

  /** Node 2 leads term 3 with the vote of node 3 and commits an entry that node 1 does not have. */
  lemma SecondTerm(guard: Standing -> bool) returns (r: seq<Cluster>, s: Stage)
    requires forall st: Standing | !st.asked :: guard(st)
    ensures Reaches(guard, r, s) && s.asks == {"k"}
    ensures s.a == Pends([]) && s.b.committed == 2
    ensures {MsgReadIndex(2, 1, "k"), MsgHeartbeat(2, 1, 3, 0, "k"), MsgHeartbeatResp(2, 3, 1, "k")} <= s.msgs
  {
    hide Takes, At, RunUnder, Admits;
    r, s := FirstRead(guard);
    Campaign2();
    r, s := Move(guard, r, s, 2, MsgHup, Stands(2, 3, [E1], 1, AGAIN2), {MsgVote(3, 2, 3, 1, 2, false)}, {});
    Vote3();
    r, s := Move(guard, r, s, 3, MsgVote(3, 2, 3, 1, 2, false), Follows(3, 3, 2, [E1], 0, NONE, AGAIN3), {MsgVoteResp(3, 3, 2, false)}, {});
    Win2();
    r, s := Move(guard, r, s, 2, MsgVoteResp(3, 3, 2, false), Leads(2, 3, [E1, E2], 1, OFFICE2), {MsgApp(3, 2, 3, 1, 2, 1, [E2])}, {});
    AppendNext3();
    r, s := Move(guard, r, s, 3, MsgApp(3, 2, 3, 1, 2, 1, [E2]), Follows(3, 3, 2, [E1, E2], 1, 2, AGAIN3), {MsgAppResp(3, 3, 2, 2, false, 0)}, {});
    Commit2();
    r, s := Move(guard, r, s, 2, MsgAppResp(3, 3, 2, 2, false, 0), Leads(2, 3, [E1, E2], 2, ACKED2), {}, {});
  }

  /** Asked about, released since, and another read waiting. */
  const RELEASED := Standing(true, false, false)

  lemma OldRead(guard: Standing -> bool, r: seq<Cluster>, s: Stage)
    requires Reaches(guard, r, s) && s.a == Pends([X]) && MsgHeartbeat(2, 1, 3, 0, "k") in s.msgs && guard(RELEASED)
    ensures 1 in r[|r| - 1].nodes && Admits(guard, r[|r| - 1], 1, MsgReadIndex(2, 1, "k"))
  {
    var c := r[|r| - 1];
    assert Asked(c.net, ReadKey(2, "k"));
    assert StandingOf(c, 1, "k") == RELEASED;
  }

  /** Every read in this run has a context of its own. One request is delivered twice, and the old
      leader releases read x although node 2 had already committed more when x was issued. */
  lemma StaleRelease(guard: Standing -> bool) returns (r: seq<Cluster>)
    requires (forall st: Standing | !st.asked :: guard(st)) && guard(RELEASED)
    ensures RunUnder(guard, CFG, [], r) && |r| > 0
    ensures 1 in r[|r| - 1].nodes && r[|r| - 1].nodes[1].readStates == [ReadState(1, "x")]
    ensures forall term: nat :: !CoversHistory(r, |r| - 1, ReadKey(term, "x"), 1)
  {
    hide Takes, RunUnder, Admits, CoversHistory;
    var r0, s0 := SecondTerm(guard);
    Ask([], MsgReadIndex(NONE, 1, "x"), X);
    NewRead(guard, r0, s0, MsgReadIndex(NONE, 1, "x"));
    assert [] + [X] == [X] && [X] + [K] == [X, K];
    var r1, s1 := Move(guard, r0, s0, 1, MsgReadIndex(NONE, 1, "x"), Pends([X]),
                       {MsgHeartbeat(2, 1, 2, 1, "x"), MsgHeartbeat(2, 1, 3, 0, "x")}, {"x"});
    Ask([X], MsgReadIndex(2, 1, "k"), K);
    OldRead(guard, r1, s1);
    var r2, s2 := Move(guard, r1, s1, 1, MsgReadIndex(2, 1, "k"), Pends([X, K]),
                       {MsgHeartbeat(2, 1, 2, 1, "k"), MsgHeartbeat(2, 1, 3, 0, "k")}, {"k"});
    Release3();
    var s3;
    r, s3 := Move(guard, r2, s2, 1, MsgHeartbeatResp(2, 3, 1, "k"), Fooled(), {}, {});
    assert r[|r0| - 1] == r0[|r0| - 1];
    Uncovered(r, |r0| - 1);
  }

  lemma Uncovered(r: seq<Cluster>, x: nat)
    requires x < |r| && OnlyAsks(r[x].net, {"k"}) && 2 in r[x].nodes && r[x].nodes[2].committed == 2
    ensures forall term: nat :: !CoversHistory(r, |r| - 1, ReadKey(term, "x"), 1)
  {
    forall term: nat ensures !CoversHistory(r, |r| - 1, ReadKey(term, "x"), 1) {
      assert !Asked(r[x].net, ReadKey(term, "x"));
    }
  }

  // ---------------------------------------------------------------- the exact condition

  /** Every index released or answered in a run covers what was committed before its read was asked about. */
  ghost predicate ReadsCover(b: seq<Cluster>) {
    && (forall y, i, p | 0 <= y < |b| && i in b[y].nodes && 0 <= p < |b[y].nodes[i].readStates| ::
          Released(b, y, b[y].nodes[i].readStates[p]))
    && (forall y, m | 0 <= y < |b| && m in b[y].net && m.MsgReadIndexResp? :: CoversHistory(b, y, ReadKey(m.term, m.ctx), m.index))
  }

  ghost predicate Released(b: seq<Cluster>, y: nat, r: ReadState)
    requires y < |b|
  {
    exists term: nat :: CoversHistory(b, y, ReadKey(term, r.ctx), r.index)
  }

  /** Reads are safe in every run, of every cluster of two voters or more, whose leaders add a read only where the guard lets them. */
  ghost predicate SafeUnder(guard: Standing -> bool) {
    forall cfg, boot, b | RunUnder(guard, cfg, boot, b) && !cfg.leaseRead && |cfg.voters| >= 2 :: ReadsCover(b)
  }

  lemma StricterRun(guard: Standing -> bool, cfg: Config, boot: seq<Entry>, b: seq<Cluster>)
    requires RunUnder(guard, cfg, boot, b) && forall st: Standing | guard(st) :: Harmless(st)
    ensures RunUnder(Harmless, cfg, boot, b)
  {
    hide Init, NextUnder, Harmless;
    forall x | 0 <= x < |b| - 1 ensures NextUnder(Harmless, cfg, b[x], b[x + 1]) {
      assert NextUnder(guard, cfg, b[x], b[x + 1]);
      StricterNext(guard, cfg, b[x], b[x + 1]);
    }
  }

  lemma StricterNext(guard: Standing -> bool, cfg: Config, c: Cluster, c': Cluster)
    requires NextUnder(guard, cfg, c, c') && forall st: Standing | guard(st) :: Harmless(st)
    ensures NextUnder(Harmless, cfg, c, c')
  {
    hide Harmless, Ticks, Restarts, Delivers;
    if i, m :| DeliversTo(guard, cfg, c, c', i, m) {
      assert DeliversTo(Harmless, cfg, c, c', i, m);
    }
  }

  lemma HarmlessCovers(cfg: Config, boot: seq<Entry>, b: seq<Cluster>)
    requires RunUnder(Harmless, cfg, boot, b) && !cfg.leaseRead && |cfg.voters| >= 2
    ensures ReadsCover(b)
  {
    hide RunUnder, CoversHistory;
    forall y, i, p | 0 <= y < |b| && i in b[y].nodes && 0 <= p < |b[y].nodes[i].readStates|
      ensures Released(b, y, b[y].nodes[i].readStates[p])
    {
      var term := ReadIndexSafety(cfg, boot, b, y, i, p);
    }
    forall y, m | 0 <= y < |b| && m in b[y].net && m.MsgReadIndexResp? ensures CoversHistory(b, y, ReadKey(m.term, m.ctx), m.index) {
      ReadIndexRespSafety(cfg, boot, b, y, m);
    }
  }

  /** Among the guards that let every new read through, the safe ones are exactly those that turn
      away a read asked about before in this term and released since, while another is waiting. */
  lemma ExactGuard(guard: Standing -> bool)
    requires forall st: Standing | !st.asked :: guard(st)
    ensures SafeUnder(guard) <==> forall st: Standing | guard(st) :: Harmless(st)
  {
    hide RunUnder, ReadsCover;
    if forall st: Standing | guard(st) :: Harmless(st) {
      forall cfg, boot, b | RunUnder(guard, cfg, boot, b) && !cfg.leaseRead && |cfg.voters| >= 2 ensures ReadsCover(b) {
        StricterRun(guard, cfg, boot, b);
        HarmlessCovers(cfg, boot, b);
      }
    } else {
      var st: Standing :| guard(st) && !Harmless(st);
      assert st == RELEASED;
      var b := StaleRelease(guard);
      NotCovered(b);
      assert |CFG.voters| == 3;
    }
  }

  lemma NotCovered(b: seq<Cluster>)
    requires |b| > 0 && 1 in b[|b| - 1].nodes && b[|b| - 1].nodes[1].readStates == [ReadState(1, "x")]
    requires forall term: nat :: !CoversHistory(b, |b| - 1, ReadKey(term, "x"), 1)
    ensures !ReadsCover(b)
  {
    hide CoversHistory;
    assert !Released(b, |b| - 1, b[|b| - 1].nodes[1].readStates[0]);
  }
}
