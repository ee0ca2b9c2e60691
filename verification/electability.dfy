/** No run gets stuck without a leader: wherever a run has come, a node whose log is not behind those of
    a majority that is free to answer can still be elected, with or without pre-vote. */
module Electability {
  import opened RaftTypes
  import opened Logs
  import opened RaftNode
  import opened Refinement
  import opened Cluster
  import opened Elections
  import Quorums

  ghost predicate OnRun(cfg: Config, boot: seq<Entry>, r: seq<Cluster>) { r != [] && Run(cfg, boot, r) }

  function Last(r: seq<Cluster>): Cluster
    requires r != []
  {
    r[|r| - 1]
  }

  /** The run goes on with the delivery of one message. */
  lemma Deliver(cfg: Config, boot: seq<Entry>, r: seq<Cluster>, i: Id, m: Msg) returns (b: seq<Cluster>)
    requires OnRun(cfg, boot, r) && i in Last(r).nodes && Member(Last(r).nodes[i]) && Deliverable(Last(r).net, i, m)
    requires Step(cfg, Last(r).nodes[i], m).Done?
    ensures OnRun(cfg, boot, b) && r <= b
    ensures var c, w := Last(r), Step(cfg, Last(r).nodes[i], m).value; Last(b) == Cluster(c.nodes[i := w.n], c.net + w.out)
  {
    hide Step, Init;
    var c, w := Last(r), Step(cfg, Last(r).nodes[i], m).value;
    var c' := Cluster(c.nodes[i := w.n], c.net + w.out);
    assert Delivers(cfg, c, c', i, m);
    b := r + [c'];
    forall x | 0 <= x < |b| - 1 ensures Next(cfg, b[x], b[x + 1]) {
      if x < |r| - 1 { assert Next(cfg, r[x], r[x + 1]); }
    }
  }

  /** What the theorem asks of a voter: it has not got further, is not bound to a leader, and its log is not ahead. */
  predicate Willing(cfg: Config, n: Node, j: Node) { j.term <= n.term && !InLease(cfg, j) && NotBehind(n.log, j.log) }

  /** For a leader transfer the lease does not count. */
  predicate Open(cfg: Config, n: Node, j: Node, transfer: bool) {
    j.term <= n.term && (transfer || !InLease(cfg, j)) && NotBehind(n.log, j.log)
  }

  ghost predicate AllOpen(cfg: Config, c: Cluster, n: Node, q: set<Id>, transfer: bool) {
    forall j | j in q :: j in c.nodes && Open(cfg, n, c.nodes[j], transfer)
  }

  ghost predicate AllWilling(cfg: Config, c: Cluster, n: Node, q: set<Id>) { forall j | j in q :: j in c.nodes && Willing(cfg, n, c.nodes[j]) }

  function AllYes(ids: set<Id>): map<Id, bool> { map j | j in ids :: true }

  lemma OneMoreYes(ids: set<Id>, j: Id)
    requires j !in ids
    ensures AllYes(ids)[j := true] == AllYes(ids + {j}) && Yes(AllYes(ids + {j})) == ids + {j}
    ensures |AllYes(ids + {j})| == |ids + {j}| == |ids| + 1
  {
    var votes := AllYes(ids + {j});
    assert votes.Keys == ids + {j} && |votes| == |votes.Keys|;
  }

  function PreVoteTo(n: Node, j: Id): Msg { MsgPreVote(n.term + 1, n.id, j, |n.log|, LastTermOf(n.log)) }

  function VoteTo(n: Node, j: Id, transfer: bool): Msg { MsgVote(n.term, n.id, j, |n.log|, LastTermOf(n.log), transfer) }

  /** All nodes but i are as they were. */
  ghost predicate Untouched(c: Cluster, c': Cluster, i: Id) {
    c'.nodes.Keys == c.nodes.Keys && forall j | j in c.nodes && j != i :: c'.nodes[j] == c.nodes[j]
  }

  /** Node i is n with the pre-votes of `done`, and may still ask the rest of q. */
  ghost predicate Gathering(cfg: Config, c: Cluster, i: Id, n: Node, done: set<Id>, q: set<Id>) {
    && i in c.nodes && n.id == i && i in done && done <= q
    && c.nodes[i] == n.(role := PreCandidate, lead := NONE, votes := AllYes(done))
    && (forall j | j in q - done :: PreVoteTo(n, j) in c.net) && AllWilling(cfg, c, n, q - {i})
  }

  /** Node i stands in the next term, and has asked everyone. */
  ghost predicate Standing(cfg: Config, c: Cluster, i: Id, n: Node, a: Node, done: set<Id>, q: set<Id>, transfer: bool) {
    && i in c.nodes && c.nodes[i] == a.(votes := AllYes(done)) && i in done && done <= q
    && a.id == i && a.term == n.term + 1 && a.role == Candidate && a.log == n.log && a.prs.Keys == n.prs.Keys
    && (forall j | j in q - done :: VoteTo(a, j, transfer) in c.net) && AllOpen(cfg, c, n, q - done, transfer) && NotFurther(c, a.term, q)
  }

  ghost predicate NotFurther(c: Cluster, T: nat, q: set<Id>) { forall j | j in q :: j in c.nodes && c.nodes[j].term <= T }

  /** A majority counts as one. */
  ghost predicate Enough(n: Node, q: set<Id>) { Member(n) && |n.prs| >= 2 && n.term > 0 && q <= n.prs.Keys && |q| == |n.prs| / 2 + 1 }

  lemma NamedMember(cfg: Config, boot: seq<Entry>, r: seq<Cluster>, j: Id)
    requires OnRun(cfg, boot, r) && j in Last(r).nodes
    ensures Member(Last(r).nodes[j]) && Last(r).nodes[j].id == j && Last(r).nodes[j].prs.Keys == cfg.voters
  {
    hide Run;
    RunNamed(cfg, boot, r, |r| - 1);
  }

  /** One voter is asked for its pre-vote and its grant comes back. */
  lemma OnePreVote(cfg: Config, boot: seq<Entry>, r: seq<Cluster>, i: Id, n: Node, done: set<Id>, q: set<Id>, j: Id)
    returns (b: seq<Cluster>)
    requires OnRun(cfg, boot, r) && Gathering(cfg, Last(r), i, n, done, q) && Enough(n, q) && j in q - done
    ensures OnRun(cfg, boot, b) && r <= b && Untouched(Last(r), Last(b), i)
    ensures if done + {j} == q then exists a :: Standing(cfg, Last(b), i, n, a, {i}, q, false)
            else Gathering(cfg, Last(b), i, n, done + {j}, q)
  {
    hide Step, Run, Enough, Untouched, Gathering, Standing;
    b := Asked(cfg, boot, r, i, n, done, q, j);
    var b1 := b;
    b := Counted(cfg, boot, b1, i, n, done, q, j);
    UntouchedTwice(Last(r), Last(b1), Last(b), i);
  }

  lemma UntouchedTwice(a: Cluster, b: Cluster, c: Cluster, i: Id)
    requires Untouched(a, b, i) && Untouched(b, c, i)
    ensures Untouched(a, c, i)
  {
  }

  lemma Asked(cfg: Config, boot: seq<Entry>, r: seq<Cluster>, i: Id, n: Node, done: set<Id>, q: set<Id>, j: Id)
    returns (b: seq<Cluster>)
    requires OnRun(cfg, boot, r) && Gathering(cfg, Last(r), i, n, done, q) && j in q - done
    ensures OnRun(cfg, boot, b) && r <= b && Untouched(Last(r), Last(b), i)
    ensures Gathering(cfg, Last(b), i, n, done, q) && MsgPreVoteResp(n.term + 1, j, i, false) in Last(b).net
  {
    hide Step, Run;
    NamedMember(cfg, boot, r, j);
    var c := Last(r);
    PreVoteAnswered(cfg, n, c.nodes[j]);
    b := Deliver(cfg, boot, r, j, PreVoteTo(n, j));
    assert c.nodes[j := c.nodes[j]] == c.nodes;
  }

  lemma Counted(cfg: Config, boot: seq<Entry>, r: seq<Cluster>, i: Id, n: Node, done: set<Id>, q: set<Id>, j: Id)
    returns (b: seq<Cluster>)
    requires OnRun(cfg, boot, r) && Gathering(cfg, Last(r), i, n, done, q) && Enough(n, q) && j in q - done
    requires MsgPreVoteResp(n.term + 1, j, i, false) in Last(r).net
    ensures OnRun(cfg, boot, b) && r <= b && Untouched(Last(r), Last(b), i)
    ensures if done + {j} == q then exists a :: Standing(cfg, Last(b), i, n, a, {i}, q, false)
            else Gathering(cfg, Last(b), i, n, done + {j}, q)
  {
    hide Step, Run, Gathering, Standing, Untouched, Enough;
    var m := MsgPreVoteResp(n.term + 1, j, i, false);
    var c := Last(r);
    GatheringNode(cfg, c, i, n, done, q);
    OneMoreYes(done, j);
    EnoughPeersFor(n, c.nodes[i], q);
    PreVoteCounted(cfg, c.nodes[i], m);
    b := Deliver(cfg, boot, r, i, m);
    Sizes(n, done + {j}, q);
    var w := Step(cfg, c.nodes[i], m).value;
    OnlyOne(c, Last(b), i, w);
    if done + {j} == q {
      SameFields(n, c.nodes[i], w);
      StillWilling(cfg, c, Last(b), i, n, w, done, q);
      StandsFresh(cfg, Last(b), i, n, w, q, false);
    } else {
      StillGathering(cfg, c, Last(b), i, n, done, q, j);
    }
  }

  lemma GatheringNode(cfg: Config, c: Cluster, i: Id, n: Node, done: set<Id>, q: set<Id>)
    requires Gathering(cfg, c, i, n, done, q)
    ensures i in c.nodes && c.nodes[i] == n.(role := PreCandidate, lead := NONE, votes := AllYes(done)) && n.id == i && done <= q && i in q
  {
  }

  lemma EnoughPeersFor(n: Node, p: Node, q: set<Id>)
    requires Enough(n, q) && p.prs == n.prs && p.id == n.id && p.term == n.term
    ensures Member(p) && |p.prs| >= 2 && p.term > 0 && q <= p.prs.Keys
  {
  }

  lemma OnlyOne(c: Cluster, c': Cluster, i: Id, w: Work)
    requires i in c.nodes && c' == Cluster(c.nodes[i := w.n], c.net + w.out)
    ensures Untouched(c, c', i) && i in c'.nodes && c'.nodes[i] == w.n && w.out <= c'.net && c.net <= c'.net
  {
  }

  lemma StillWilling(cfg: Config, c: Cluster, c': Cluster, i: Id, n: Node, w: Work, done: set<Id>, q: set<Id>)
    requires Gathering(cfg, c, i, n, done, q) && Untouched(c, c', i) && i in c'.nodes && c'.nodes[i] == w.n && StandsFor(n, false, w)
    ensures AllOpen(cfg, c', n, q - {i}, false) && NotFurther(c', w.n.term, q)
  {
  }

  lemma StillGathering(cfg: Config, c: Cluster, c': Cluster, i: Id, n: Node, done: set<Id>, q: set<Id>, j: Id)
    requires Gathering(cfg, c, i, n, done, q) && Untouched(c, c', i) && c.net <= c'.net && j in q - done && i in c'.nodes
    requires c'.nodes[i] == n.(role := PreCandidate, lead := NONE, votes := AllYes(done + {j}))
    ensures Gathering(cfg, c', i, n, done + {j}, q)
  {
  }

  lemma Sizes(n: Node, done: set<Id>, q: set<Id>)
    requires Enough(n, q) && done <= q
    ensures |done| == |n.prs| / 2 + 1 <==> done == q
  {
    if done != q {
      assert done < q;
      var x :| x in q && x !in done;
      Quorums.SubsetCardinality(done, q - {x});
    }
  }

  lemma SameFields(n: Node, p: Node, w: Work)
    requires p == n.(role := PreCandidate, lead := NONE, votes := p.votes) && StandsFor(p, false, w)
    ensures StandsFor(n, false, w)
  {
  }

  lemma StandsFresh(cfg: Config, c: Cluster, i: Id, n: Node, w: Work, q: set<Id>, transfer: bool)
    requires StandsFor(n, transfer, w)
    requires i in c.nodes && c.nodes[i] == w.n && w.out <= c.net && n.id == i && i in q && q <= n.prs.Keys
    requires AllOpen(cfg, c, n, q - {i}, transfer) && NotFurther(c, w.n.term, q)
    ensures Standing(cfg, c, i, n, w.n, {i}, q, transfer)
  {
    assert AllYes({i}) == map[i := true];
    forall j | j in q - {i} ensures VoteTo(w.n, j, transfer) in c.net { assert VoteTo(w.n, j, transfer) in w.out; }
  }

  /** All of q are asked for their pre-votes, one after the other. */
  lemma {:induction false} AllPreVotes(cfg: Config, boot: seq<Entry>, r: seq<Cluster>, i: Id, n: Node, done: set<Id>, q: set<Id>)
    returns (b: seq<Cluster>, a: Node)
    requires OnRun(cfg, boot, r) && Gathering(cfg, Last(r), i, n, done, q) && Enough(n, q) && done != q
    ensures OnRun(cfg, boot, b) && r <= b && Standing(cfg, Last(b), i, n, a, {i}, q, false)
    decreases |q - done|
  {
    hide Run, Untouched, Enough, Standing;
    assert done < q;
    var j :| j in q && j !in done;
    b := OnePreVote(cfg, boot, r, i, n, done, q, j);
    if done + {j} == q {
      a :| Standing(cfg, Last(b), i, n, a, {i}, q, false);
    } else {
      Quorums.SubsetCardinality(q - done - {j}, q - done);
      assert q - (done + {j}) == q - done - {j} && |q - done - {j}| == |q - done| - 1;
      var b1 := b;
      b, a := AllPreVotes(cfg, boot, b1, i, n, done + {j}, q);
    }
  }

  lemma VoteGiven(cfg: Config, boot: seq<Entry>, r: seq<Cluster>, i: Id, n: Node, a: Node, done: set<Id>, q: set<Id>, j: Id, transfer: bool)
    returns (b: seq<Cluster>)
    requires OnRun(cfg, boot, r) && Standing(cfg, Last(r), i, n, a, done, q, transfer) && j in q - done
    ensures OnRun(cfg, boot, b) && r <= b && MsgVoteResp(a.term, j, i, false) in Last(b).net
    ensures i in Last(b).nodes && Last(b).nodes[i] == Last(r).nodes[i] && Last(r).net <= Last(b).net
    ensures AllOpen(cfg, Last(b), n, q - done - {j}, transfer) && NotFurther(Last(b), a.term, q)
  {
    hide Step, Run;
    NamedMember(cfg, boot, r, j);
    VoteAnswered(cfg, a, Last(r).nodes[j], transfer);
    b := Deliver(cfg, boot, r, j, VoteTo(a, j, transfer));
  }

  lemma VoteTaken(cfg: Config, boot: seq<Entry>, r: seq<Cluster>, i: Id, a: Node, done: set<Id>, q: set<Id>, j: Id)
    returns (b: seq<Cluster>)
    requires OnRun(cfg, boot, r) && Enough(a, q) && j in q - done && i in Last(r).nodes && Last(r).nodes[i] == a.(votes := AllYes(done))
    requires a.role == Candidate && done <= q && a.id == i && MsgVoteResp(a.term, j, i, false) in Last(r).net
    ensures OnRun(cfg, boot, b) && r <= b && Last(r).net <= Last(b).net && i in Last(b).nodes && Untouched(Last(r), Last(b), i)
    ensures if done + {j} == q then
              && Last(b).nodes[i].role == Leader && Last(b).nodes[i].term == a.term && Last(b).nodes[i].transferee == NONE
              && Last(b).nodes[i].log == a.log + [Entry(|a.log| + 1, a.term, "")]
            else Last(b).nodes[i] == a.(votes := AllYes(done + {j}))
  {
    hide Step, Run, Enough, Untouched, AllYes;
    var p := a.(votes := AllYes(done));
    OneMoreYes(done, j);
    YesIsDone(done, j);
    EnoughPeersFor(a, p, q);
    VoteCounted(cfg, p, j, i, false);
    b := Deliver(cfg, boot, r, i, MsgVoteResp(a.term, j, i, false));
    Sizes(a, done + {j}, q);
    OnlyOne(Last(r), Last(b), i, Step(cfg, p, MsgVoteResp(a.term, j, i, false)).value);
  }

  lemma YesIsDone(done: set<Id>, j: Id)
    requires j !in done
    ensures j !in AllYes(done)
  {
  }

  lemma OneVote(cfg: Config, boot: seq<Entry>, r: seq<Cluster>, i: Id, n: Node, a: Node, done: set<Id>, q: set<Id>, j: Id, transfer: bool)
    returns (b: seq<Cluster>)
    requires OnRun(cfg, boot, r) && Standing(cfg, Last(r), i, n, a, done, q, transfer) && Enough(a, q) && j in q - done
    ensures OnRun(cfg, boot, b) && r <= b && i in Last(b).nodes && NotFurther(Last(b), a.term, q)
    ensures if done + {j} == q then
              && Last(b).nodes[i].role == Leader && Last(b).nodes[i].term == a.term && Last(b).nodes[i].transferee == NONE
              && Last(b).nodes[i].log == a.log + [Entry(|a.log| + 1, a.term, "")]
            else Standing(cfg, Last(b), i, n, a, done + {j}, q, transfer)
  {
    hide Run, Enough, Step;
    var b1 := VoteGiven(cfg, boot, r, i, n, a, done, q, j, transfer);
    b := VoteTaken(cfg, boot, b1, i, a, done, q, j);
    assert q - (done + {j}) == q - done - {j};
  }

  lemma {:induction false} AllVotes(cfg: Config, boot: seq<Entry>, r: seq<Cluster>, i: Id, n: Node, a: Node, done: set<Id>, q: set<Id>, transfer: bool)
    returns (b: seq<Cluster>)
    requires OnRun(cfg, boot, r) && Standing(cfg, Last(r), i, n, a, done, q, transfer) && Enough(a, q) && done != q && done <= q
    ensures OnRun(cfg, boot, b) && r <= b && i in Last(b).nodes
    ensures Last(b).nodes[i].role == Leader && Last(b).nodes[i].term == a.term
    ensures Last(b).nodes[i].log == a.log + [Entry(|a.log| + 1, a.term, "")]
    ensures Last(b).nodes[i].transferee == NONE && NotFurther(Last(b), a.term, q)
    decreases |q - done|
  {
    hide Run, Enough, Standing, NotFurther;
    assert done < q;
    var j :| j in q && j !in done;
    b := OneVote(cfg, boot, r, i, n, a, done, q, j, transfer);
    if done + {j} != q {
      assert q - (done + {j}) == q - done - {j} && |q - done - {j}| == |q - done| - 1;
      var b2 := b;
      b := AllVotes(cfg, boot, b2, i, n, a, done + {j}, q, transfer);
    }
  }

  lemma EnoughVoters(cfg: Config, boot: seq<Entry>, r: seq<Cluster>, i: Id, q: set<Id>)
    requires OnRun(cfg, boot, r) && |cfg.voters| >= 2 && i in Last(r).nodes && q <= cfg.voters && |q| == |cfg.voters| / 2 + 1
    ensures Enough(Last(r).nodes[i], q) && Last(r).nodes[i].id == i
  {
    hide Run;
    RunNamed(cfg, boot, r, |r| - 1);
    NamedPeers(cfg, Last(r), i);
  }

  lemma SameEnough(n: Node, a: Node, q: set<Id>)
    requires Enough(n, q) && a.prs.Keys == n.prs.Keys && a.id == n.id && a.term > 0
    ensures Enough(a, q)
  {
    assert |a.prs| == |a.prs.Keys| && |n.prs| == |n.prs.Keys|;
  }

  lemma NotAlone(n: Node, q: set<Id>, i: Id)
    requires Enough(n, q)
    ensures q != {i}
  {
    assert |{i}| == 1;
  }

  /** The node asks: first for pre-votes, if so configured. */
  lemma BeginElection(cfg: Config, boot: seq<Entry>, r: seq<Cluster>, i: Id, n: Node, q: set<Id>)
    returns (b: seq<Cluster>, a: Node)
    requires OnRun(cfg, boot, r) && i in Last(r).nodes && n == Last(r).nodes[i] && n.id == i && n.role != Leader
    requires Enough(n, q) && i in q && q != {i} && AllWilling(cfg, Last(r), n, q - {i})
    ensures OnRun(cfg, boot, b) && r <= b && Standing(cfg, Last(b), i, n, a, {i}, q, false)
  {
    hide Run, Step;
    if cfg.preVote {
      PreVoteAsks(cfg, n);
      var r1 := Deliver(cfg, boot, r, i, MsgHup);
      assert AllYes({i}) == map[i := true];
      assert Gathering(cfg, Last(r1), i, n, {i}, q);
      b, a := AllPreVotes(cfg, boot, r1, i, n, {i}, q);
    } else {
      VoteAsks(cfg, n);
      b := Deliver(cfg, boot, r, i, MsgHup);
      var w := Step(cfg, n, MsgHup).value;
      a := w.n;
      StandsFresh(cfg, Last(b), i, n, w, q, false);
    }
  }

  /** A leader can hand over to a follower that is known to have its whole log: whatever leases there are, the run can
      go on to a state in which that follower leads the next term. */
  lemma CanTransfer(cfg: Config, boot: seq<Entry>, r: seq<Cluster>, i: Id, j: Id, q: set<Id>) returns (b: seq<Cluster>)
    requires OnRun(cfg, boot, r) && |cfg.voters| >= 2 && j in q && q <= cfg.voters && |q| == |cfg.voters| / 2 + 1
    requires i in Last(r).nodes && Last(r).nodes[i].role == Leader && Last(r).nodes[i].transferee == NONE
    requires j in Last(r).nodes && j != i && j != NONE && Last(r).nodes[j].role == Follower && Last(r).nodes[j].term == Last(r).nodes[i].term
    requires j in Last(r).nodes[i].prs && Last(r).nodes[i].prs[j].matched == |Last(r).nodes[i].log|
    requires AllOpen(cfg, Last(r), Last(r).nodes[j], q - {j}, true)
    ensures OnRun(cfg, boot, b) && r <= b && j in Last(b).nodes
    ensures var n, n' := Last(r).nodes[j], Last(b).nodes[j];
            n'.role == Leader && n'.term == n.term + 1 && n'.log == n.log + [Entry(|n.log| + 1, n.term + 1, "")]
  {
    hide Run, Step;
    var n := Last(r).nodes[j];
    NamedMember(cfg, boot, r, i);
    EnoughVoters(cfg, boot, r, j, q);
    NotAlone(n, q, j);
    TransferTold(cfg, Last(r).nodes[i], j);
    var r1 := Deliver(cfg, boot, r, i, MsgTransferLeader(0, j, i));
    TimeoutNowStands(cfg, n, i, j);
    var r2 := Deliver(cfg, boot, r1, j, MsgTimeoutNow(n.term, i, j));
    var w := Step(cfg, n, MsgTimeoutNow(n.term, i, j)).value;
    StandsFresh(cfg, Last(r2), j, n, w, q, true);
    SameEnough(n, w.n, q);
    b := AllVotes(cfg, boot, r2, j, n, w.n, {j}, q, true);
  }

  lemma TransferTold(cfg: Config, n: Node, j: Id)
    requires Member(n) && n.role == Leader && n.transferee == NONE && j in n.prs && j != n.id && j != NONE && n.prs[j].matched == |n.log|
    ensures Step(cfg, n, MsgTransferLeader(0, j, n.id)) ==
            Done(Work(n.(elapsed := 0, transferee := j), {MsgTimeoutNow(n.term, n.id, j)}))
  {
  }

  /** From the last state of any run: if a majority is free to answer and node i is not behind any of it,
      the run can go on to a state in which i leads the next term. */
  lemma CanBeElected(cfg: Config, boot: seq<Entry>, r: seq<Cluster>, i: Id, q: set<Id>) returns (b: seq<Cluster>)
    requires OnRun(cfg, boot, r) && |cfg.voters| >= 2 && i in q && q <= cfg.voters && |q| == |cfg.voters| / 2 + 1
    requires i in Last(r).nodes && Last(r).nodes[i].role != Leader
    requires AllWilling(cfg, Last(r), Last(r).nodes[i], q - {i})
    ensures OnRun(cfg, boot, b) && r <= b && i in Last(b).nodes
    ensures var n, n' := Last(r).nodes[i], Last(b).nodes[i];
            && n'.role == Leader && n'.term == n.term + 1 && n'.log == n.log + [Entry(|n.log| + 1, n.term + 1, "")]
            && n'.transferee == NONE && NotFurther(Last(b), n'.term, q)
  {
    hide Run, Step, AllWilling;
    var n := Last(r).nodes[i];
    EnoughVoters(cfg, boot, r, i, q);
    NotAlone(n, q, i);
    var r1, a := BeginElection(cfg, boot, r, i, n, q);
    SameEnough(n, a, q);
    b := AllVotes(cfg, boot, r1, i, n, a, {i}, q, false);
  }

  lemma {:induction false} MajorityWith(voters: set<Id>, i: Id, size: nat) returns (q: set<Id>)
    requires i in voters && 1 <= size <= |voters|
    ensures i in q && q <= voters && |q| == size
    decreases size
  {
    if size == 1 {
      q := {i};
    } else {
      q := MajorityWith(voters, i, size - 1);
      if voters <= q { Quorums.SubsetCardinality(voters, q); }
      var x :| x in voters && x !in q;
      q := q + {x};
    }
  }

  /** Any voter can become the first leader, whatever the configuration and the boot log. */
  lemma FirstLeader(cfg: Config, boot: seq<Entry>, i: Id) returns (b: seq<Cluster>, q: set<Id>)
    requires ValidConfig(cfg) && BootLog(boot) && |cfg.voters| >= 2 && i in cfg.voters
    ensures OnRun(cfg, boot, b) && i in Last(b).nodes && i in q && q <= cfg.voters && |q| == |cfg.voters| / 2 + 1
    ensures Last(b).nodes[i].role == Leader && Last(b).nodes[i].term == 2
    ensures Last(b).nodes[i].log == boot + [Entry(|boot| + 1, 2, "")]
    ensures Last(b).nodes[i].transferee == NONE && NotFurther(Last(b), Last(b).nodes[i].term, q)
  {
    var c := Cluster(map j | j in cfg.voters :: InitNode(cfg, boot, j), {});
    q := MajorityWith(cfg.voters, i, |cfg.voters| / 2 + 1);
    assert OnRun(cfg, boot, [c]);
    assert AllWilling(cfg, c, c.nodes[i], q - {i});
    hide Run, AllWilling, NotFurther;
    b := CanBeElected(cfg, boot, [c], i, q);
  }
}
