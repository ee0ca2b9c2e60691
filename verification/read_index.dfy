/**
 Read-index safety (section 6.4 of the Raft thesis): the index a leader releases for a
 read covers everything that was committed anywhere when the read was added.
 */
module ReadIndex {
  import opened RaftTypes
  import opened Logs
  import opened Quorums
  import opened Protocol
  import opened ProtocolReplication
  import opened RaftNode
  import opened Refinement
  import opened Cluster
  import opened Safety

  // ---------------------------------------------------------------- what a leader knows when it adds a read

  ghost predicate AheadQuorum(s: State, T: nat, q: set<Id>) {
    Quorum(s.voters, q) && forall p | p in q :: p in s.nodes && s.nodes[p].term > T
  }

  /** A leader that committed an entry of its own term knows everything committed anywhere,
      unless a majority has already moved to a later term. */
  lemma LeaderKnowsCommitted(s: State, i: Id, j: Id)
    requires Inv(s) && i in s.nodes && j in s.nodes && s.nodes[i].role == Leader
    requires TermAt(s.nodes[i].log, s.nodes[i].committed) == s.nodes[i].term
    ensures s.nodes[j].committed <= s.nodes[i].committed || exists q :: AheadQuorum(s, s.nodes[i].term, q)
  {
    hide Inv, HistInv, Good, CommittedIn, KeepsAcks;
    InvNode(s, i);
    InvNode(s, j);
    var n, m := s.nodes[i], s.nodes[j];
    if m.committed > 0 {
      var U, k := Witness(s, m.log, m.term, m.committed);
      if U > n.term {
        var q := ChosenIsAhead(s, U, k);
        assert AheadQuorum(s, n.term, q);
      } else if U < n.term {
        OlderIsBelow(s, i, U, k);
      }
    }
  }

  lemma Witness(s: State, log: seq<Entry>, bound: nat, c: nat) returns (T: nat, k: nat)
    requires CommittedIn(s, log, bound, c) && c > 0
    ensures CommitWitness(s, log, bound, c, T, k)
  {
    T, k :| CommitWitness(s, log, bound, c, T, k);
  }

  lemma ChosenIsAhead(s: State, U: nat, k: nat) returns (q: set<Id>)
    requires HistInv(s) && Chosen(s, U, k)
    ensures Quorum(s.voters, q) && forall p | p in q :: p in s.nodes && s.nodes[p].term >= U
  {
    hide HistInv;
    q :| AckQuorum(s, U, k, q);
    AckKeysOf(s);
    forall p | p in q ensures p in s.nodes && s.nodes[p].term >= U {
      assert At(U, p) in s.h.acked;
    }
  }

  /** Everything chosen in an earlier term lies below the leader's first own entry. */
  lemma OlderIsBelow(s: State, i: Id, U: nat, k: nat)
    requires Inv(s) && i in s.nodes && s.nodes[i].role == Leader && Chosen(s, U, k) && U < s.nodes[i].term
    requires TermAt(s.nodes[i].log, s.nodes[i].committed) == s.nodes[i].term
    ensures k < s.nodes[i].committed
  {
    hide Inv, CommittedIn, KeepsAcks, Covered, NotChoosable, KeysInv, ElectedInv, BallotsInv, CampaignsInv, TermLogsInv;
    InvNode(s, i);
    var n := s.nodes[i];
    ChosenIsChoosable(s, U, k);
    assert Safe(s, s.h.tlog[n.term], U, k);
    HasLast(n.log, s.h.tlog[U], k);
  }

  // ---------------------------------------------------------------- marks: the moment each read was added

  datatype ReadKey = ReadKey(term: nat, ctx: Ctx)

  /** Taken when the leader of `term` first adds the read `ctx`: that leader, its index, everyone's
      commit index, and who had already left the term. */
  datatype Mark = Mark(owner: Id, index: nat, committed: map<Id, nat>, ahead: set<Id>)

  type Marks = map<ReadKey, Mark>

  predicate Covers(mk: Mark, index: nat) { forall j | j in mk.committed :: mk.committed[j] <= index }

  /** The leader of `term` has asked for confirmation of `ctx`. */
  ghost predicate Asked(net: set<Msg>, k: ReadKey) {
    exists m :: m in net && m.MsgHeartbeat? && m.term == k.term && m.ctx == k.ctx
  }

  ghost predicate AskedBy(net: set<Msg>, k: ReadKey, owner: Id) {
    exists m :: m in net && m.MsgHeartbeat? && m.term == k.term && m.ctx == k.ctx && m.from == owner
  }

  ghost predicate MarkOk(cfg: Config, c: Cluster, k: ReadKey, mk: Mark) {
    && AskedBy(c.net, k, mk.owner) && mk.owner in c.nodes && mk.index <= c.nodes[mk.owner].committed
    && (forall j | j in mk.ahead :: j in c.nodes && c.nodes[j].term > k.term)
    && (Covers(mk, mk.index) || exists q :: Quorum(cfg.voters, q) && q <= mk.ahead)
  }

  ghost predicate MsgReads(marks: Marks, m: Msg) {
    match m
    case MsgHeartbeat(term, _, _, _, ctx) => ctx != "" ==> ReadKey(term, ctx) in marks
    case MsgHeartbeatResp(term, from, _, ctx) =>
      ctx != "" ==> ReadKey(term, ctx) in marks && from !in marks[ReadKey(term, ctx)].ahead
    case MsgReadIndexResp(term, _, _, index, ctx) =>
      ReadKey(term, ctx) in marks && Covers(marks[ReadKey(term, ctx)], index)
    case _ => true
  }

  /** A pending read has its mark, and whoever acknowledged it was not ahead. A read without a
      context is never acknowledged itself. */
  ghost predicate PendingOk(cfg: Config, marks: Marks, n: Node, r: PendingRead) {
    var k := ReadKey(n.term, r.ctx);
    && k in marks && marks[k].index <= r.index
    && r.acks <= cfg.voters - {n.id} - marks[k].ahead
  }

  ghost predicate PendingInOrder(marks: Marks, n: Node)
    requires forall p | 0 <= p < |n.pending| :: ReadKey(n.term, n.pending[p].ctx) in marks
  {
    forall p, q | 0 <= p <= q < |n.pending| && n.pending[q].ctx != "" ::
      marks[ReadKey(n.term, n.pending[p].ctx)].ahead <= marks[ReadKey(n.term, n.pending[q].ctx)].ahead
  }

  ghost predicate ReleasedOk(marks: Marks, r: ReadState) {
    exists T: nat :: ReadKey(T, r.ctx) in marks && Covers(marks[ReadKey(T, r.ctx)], r.index)
  }

  ghost predicate NodeReads(cfg: Config, marks: Marks, n: Node) {
    && (n.pending != [] ==> n.role == Leader)
    && (forall p | 0 <= p < |n.pending| :: PendingOk(cfg, marks, n, n.pending[p]))
    && PendingInOrder(marks, n)
    && (forall p | 0 <= p < |n.readStates| :: ReleasedOk(marks, n.readStates[p]))
  }

  ghost predicate ReadInv(cfg: Config, c: Cluster, marks: Marks) {
    && (forall k | k in marks :: MarkOk(cfg, c, k, marks[k]))
    && (forall m | m in c.net :: MsgReads(marks, m))
    && (forall i | i in c.nodes :: NodeReads(cfg, marks, c.nodes[i]))
  }

  // ---------------------------------------------------------------- handlers that leave reads alone

  /** Messages that speak about reads. */
  predicate Carries(m: Msg) {
    (m.MsgHeartbeat? && m.ctx != "") || (m.MsgHeartbeatResp? && m.ctx != "") || m.MsgReadIndexResp?
  }

  /** From w to w' no read was added, confirmed or released; at most all were dropped. */
  ghost predicate Quiet(w: Work, w': Work) {
    && (forall m | m in w'.out :: m in w.out || !Carries(m))
    && (w'.n.pending == [] || (w'.n.pending == w.n.pending && w'.n.role == w.n.role && w'.n.term == w.n.term))
    && w'.n.readStates == w.n.readStates && w'.n.id == w.n.id
  }

  lemma QuietTogether(a: Work, b: Work, c: Work)
    requires Quiet(a, b) && Quiet(b, c)
    ensures Quiet(a, c)
  {
  }

  lemma SendAppendQuiet(cfg: Config, w: Work, to: Id, e: bool)
    requires to in w.n.prs
    ensures Quiet(w, SendAppend(cfg, w, to, e)) && SendAppend(cfg, w, to, e).n.prs.Keys == w.n.prs.Keys
  {
  }

  lemma BcastAppendQuiet(cfg: Config, w: Work)
    ensures Quiet(w, BcastAppend(cfg, w))
  {
  }

  lemma {:induction false} SendAllQuiet(cfg: Config, w: Work, to: Id)
    requires to in w.n.prs
    ensures Quiet(w, SendAll(cfg, w, to))
    decreases |w.n.log| + 1 - w.n.prs[to].next, if w.n.prs[to].paused then 0 else 1
  {
    if Sends(cfg, w.n, w.n.prs[to], false) {
      SendAppendQuiet(cfg, w, to, false);
      SendAllQuiet(cfg, SendAppend(cfg, w, to, false), to);
      QuietTogether(w, SendAppend(cfg, w, to, false), SendAll(cfg, w, to));
    }
  }

  lemma BecomeLeaderQuiet(n: Node, out: set<Msg>)
    requires n.role != Follower && Member(n)
    ensures Quiet(Work(n, out), Work(BecomeLeader(n), out))
  {
  }

  lemma CampaignQuiet(w: Work, t: CampaignType)
    requires Member(w.n) && w.n.role != Leader && w.n.pending == []
    ensures Quiet(w, RaftNode.Campaign(w, t))
    decreases t.PreElection?
  {
    if t.PreElection? {
      var n := Poll(BecomePreCandidate(w.n), w.n.id, true);
      if QuorumSize(n) == |Granted(n)| { CampaignQuiet(w.(n := n), Election); }
    }
  }

  lemma LeaderAppRespQuiet(cfg: Config, n: Node, m: Msg)
    requires m.MsgAppResp? && m.from in n.prs && Member(n)
    ensures Quiet(Work(n, {}), LeaderAppResp(cfg, n, m))
  {
    hide SendAppend, LeaderMatched;
    var pr := n.prs[m.from].(recentActive := true);
    if m.reject {
      var (pr', decreased) := MaybeDecrTo(pr, m.index, m.rejectHint);
      if decreased {
        var pr'' := if pr'.state == Replicate then BecomeProbe(pr') else pr';
        SendAppendQuiet(cfg, Work(SetProgress(n, m.from, pr''), {}), m.from, true);
      }
    } else if pr.matched < m.index {
      LeaderAppRespIs(cfg, n, m);
      LeaderMatchedQuiet(cfg, SetProgress(n, m.from, Advanced(pr, m.index)), m.from, IsPaused(cfg, pr));
    }
  }

  lemma CommitAndSendQuiet(cfg: Config, n: Node, from: Id, oldPaused: bool)
    requires from in n.prs && Member(n)
    ensures Quiet(Work(n, {}), CommitAndSend(cfg, n, from, oldPaused)) && from in CommitAndSend(cfg, n, from, oldPaused).n.prs
  {
    var n' := MaybeCommit(n).0;
    BcastAppendQuiet(cfg, Work(n', {}));
    SendAppendQuiet(cfg, Work(n', {}), from, true);
  }

  lemma LeaderMatchedQuiet(cfg: Config, n: Node, from: Id, oldPaused: bool)
    requires from in n.prs && Member(n)
    ensures Quiet(Work(n, {}), LeaderMatched(cfg, n, from, oldPaused))
  {
    hide CommitAndSend, SendAll;
    CommitAndSendQuiet(cfg, n, from, oldPaused);
    var w := CommitAndSend(cfg, n, from, oldPaused);
    SendAllQuiet(cfg, w, from);
    QuietTogether(Work(n, {}), w, SendAll(cfg, w, from));
  }

  lemma AfterPollQuiet(cfg: Config, n: Node)
    requires Member(n) && (n.role == Candidate || n.role == PreCandidate) && n.pending == []
    ensures Quiet(Work(n, {}), AfterPoll(cfg, n))
  {
    hide BecomeLeader, BcastAppend, RaftNode.Campaign;
    CampaignQuiet(Work(n, {}), Election);
    BecomeLeaderQuiet(n, {});
    BcastAppendQuiet(cfg, Work(BecomeLeader(n), {}));
    QuietTogether(Work(n, {}), Work(BecomeLeader(n), {}), BcastAppend(cfg, Work(BecomeLeader(n), {})));
  }

  lemma LeaderTransferQuiet(cfg: Config, n: Node, m: Msg)
    requires m.MsgTransferLeader? && m.from in n.prs
    ensures Quiet(Work(n, {}), LeaderTransfer(cfg, n, m))
  {
    hide SendAppend;
    SendAppendQuiet(cfg, Work(n.(elapsed := 0, transferee := m.from), {}), m.from, true);
  }

  lemma ProposeQuiet(cfg: Config, n: Node, payload: seq<string>)
    requires Member(n)
    ensures Quiet(Work(n, {}), BcastAppend(cfg, Work(AppendEntry(n, payload), {})))
  {
    BcastAppendQuiet(cfg, Work(AppendEntry(n, payload), {}));
  }

  // ---------------------------------------------------------------- which messages touch reads

  predicate TouchesReads(n: Node, m: Msg) {
    || (n.role == Leader && (m.MsgBeat? || m.MsgReadIndex? || m.MsgHeartbeatResp?))
    || (n.role != Leader && m.MsgHeartbeat?)
    || (n.role == Follower && m.MsgReadIndexResp?)
  }

  lemma LeaderQuiet(cfg: Config, n: Node, m: Msg)
    requires Member(n) && n.role == Leader && !TouchesReads(n, m) && StepLeader(cfg, n, m).Done?
    ensures Quiet(Work(n, {}), StepLeader(cfg, n, m).value)
  {
    hide LeaderAppResp, LeaderTransfer, AppendEntry, BcastAppend;
    match m
    case MsgProp(_, _, payload) => ProposeQuiet(cfg, n, payload);
    case MsgAppResp(_, from, _, _, _, _) => if from in n.prs { LeaderAppRespQuiet(cfg, n, m); }
    case MsgTransferLeader(_, from, _) => if from in n.prs { LeaderTransferQuiet(cfg, n, m); }
    case _ =>
  }

  lemma FollowerQuiet(cfg: Config, n: Node, m: Msg)
    requires Member(n) && n.role == Follower && n.pending == [] && !TouchesReads(n, m) && StepFollower(cfg, n, m).Done?
    ensures Quiet(Work(n, {}), StepFollower(cfg, n, m).value)
  {
    hide RaftNode.Campaign;
    if m.MsgTimeoutNow? { CampaignQuiet(Work(n, {}), Transfer); }
  }

  lemma CandidateQuiet(cfg: Config, n: Node, m: Msg)
    requires Member(n) && (n.role == Candidate || n.role == PreCandidate) && n.pending == []
    requires !TouchesReads(n, m) && StepCandidate(cfg, n, m).Done?
    ensures Quiet(Work(n, {}), StepCandidate(cfg, n, m).value)
  {
    hide AfterPoll, Merged, FindConflict, Contiguous;
    match m
    case MsgVoteResp(_, from, _, reject) => AfterPollQuiet(cfg, Poll(n, from, !reject));
    case MsgPreVoteResp(_, from, _, reject) => AfterPollQuiet(cfg, Poll(n, from, !reject));
    case _ =>
  }

  lemma DispatchQuiet(cfg: Config, n: Node, m: Msg)
    requires Member(n) && (n.pending != [] ==> n.role == Leader) && !TouchesReads(n, m) && Dispatch(cfg, n, m).Done?
    ensures Quiet(Work(n, {}), Dispatch(cfg, n, m).value)
  {
    hide StepLeader, StepFollower, StepCandidate, RaftNode.Campaign, Quiet;
    match m
    case MsgHup =>
      if n.role == Leader { QuietSelf(Work(n, {})); }
      else { CampaignQuiet(Work(n, {}), if cfg.preVote then PreElection else Election); }
    case MsgVote(_, _, _, _, _, _) => VoteQuiet(n, m);
    case MsgPreVote(_, _, _, _, _) => PreVoteQuiet(n, m);
    case _ =>
      match n.role
      case Leader => LeaderQuiet(cfg, n, m);
      case Follower => FollowerQuiet(cfg, n, m);
      case _ => CandidateQuiet(cfg, n, m);
  }

  lemma QuietSelf(w: Work)
    ensures Quiet(w, w)
  {
  }

  lemma VoteQuiet(n: Node, m: Msg)
    requires m.MsgVote?
    ensures Quiet(Work(n, {}), HandleVote(n, m))
  {
  }

  lemma PreVoteQuiet(n: Node, m: Msg)
    requires m.MsgPreVote?
    ensures Quiet(Work(n, {}), HandlePreVote(n, m))
  {
  }

  // ---------------------------------------------------------------- one node's reads across a handler

  lemma QuietKeepsReads(cfg: Config, marks: Marks, n: Node, w: Work)
    requires NodeReads(cfg, marks, n) && Quiet(Work(n, {}), w)
    ensures NodeReads(cfg, marks, w.n) && forall x | x in w.out :: MsgReads(marks, x)
  {
  }

  lemma BeatReads(cfg: Config, marks: Marks, n: Node)
    requires NodeReads(cfg, marks, n) && Member(n) && n.role == Leader
    ensures var w := StepLeader(cfg, n, MsgBeat).value;
            NodeReads(cfg, marks, w.n) && forall x | x in w.out :: MsgReads(marks, x)
  {
    if n.pending != [] { assert PendingOk(cfg, marks, n, n.pending[|n.pending| - 1]); }
  }

  lemma HeartbeatReads(cfg: Config, marks: Marks, n: Node, m: Msg)
    requires NodeReads(cfg, marks, n) && Member(n) && n.role != Leader && m.MsgHeartbeat? && m.term == n.term
    requires MsgReads(marks, m) && (m.ctx != "" ==> n.id !in marks[ReadKey(m.term, m.ctx)].ahead)
    requires Dispatch(cfg, n, m).Done?
    ensures var w := Dispatch(cfg, n, m).value;
            NodeReads(cfg, marks, w.n) && forall x | x in w.out :: MsgReads(marks, x)
  {
  }

  lemma ReadRespReads(cfg: Config, marks: Marks, n: Node, m: Msg)
    requires NodeReads(cfg, marks, n) && Member(n) && n.role == Follower && m.MsgReadIndexResp? && MsgReads(marks, m)
    ensures var w := StepFollower(cfg, n, m).value;
            NodeReads(cfg, marks, w.n) && forall x | x in w.out :: MsgReads(marks, x)
  {
    var rs := n.readStates + [ReadState(m.index, m.ctx)];
    forall p | 0 <= p < |rs| ensures ReleasedOk(marks, rs[p]) {
      if p == |n.readStates| { assert ReadKey(m.term, m.ctx) in marks; }
    }
  }

  // ---------------------------------------------------------------- acknowledging and releasing

  /** A confirmed read covers its mark: the acknowledging majority cannot all have been ahead. */
  lemma ConfirmedCovers(cfg: Config, c: Cluster, marks: Marks, n: Node, r: PendingRead, confirm: set<Id>)
    requires PendingOk(cfg, marks, n, r) && MarkOk(cfg, c, ReadKey(n.term, r.ctx), marks[ReadKey(n.term, r.ctx)])
    requires n.id in cfg.voters && n.prs.Keys == cfg.voters && n.id in c.nodes && c.nodes[n.id].term <= n.term
    requires confirm <= cfg.voters - {n.id} - marks[ReadKey(n.term, r.ctx)].ahead
    requires |confirm| + 1 >= QuorumSize(n)
    ensures Covers(marks[ReadKey(n.term, r.ctx)], r.index)
  {
    var mk := marks[ReadKey(n.term, r.ctx)];
    if !Covers(mk, r.index) {
      var q :| Quorum(cfg.voters, q) && q <= mk.ahead;
      var p := confirm + {n.id};
      ReachedIsQuorum(cfg, n, p);
      var j := QuorumsIntersect(cfg.voters, p, q);
      assert false;
    }
  }

  lemma {:induction false} ReleaseReadsReads(cfg: Config, marks: Marks, w: Work, rs: seq<PendingRead>, T: nat)
    requires w.n.term == T
    requires forall p | 0 <= p < |rs| :: ReadKey(T, rs[p].ctx) in marks && Covers(marks[ReadKey(T, rs[p].ctx)], rs[p].index)
    requires forall p | 0 <= p < |w.n.readStates| :: ReleasedOk(marks, w.n.readStates[p])
    requires forall x | x in w.out :: MsgReads(marks, x)
    ensures var w' := ReleaseReads(w, rs);
            && w'.n == w.n.(readStates := w'.n.readStates)
            && (forall p | 0 <= p < |w'.n.readStates| :: ReleasedOk(marks, w'.n.readStates[p]))
            && (forall x | x in w'.out :: MsgReads(marks, x))
    decreases |rs|
  {
    if rs != [] {
      var w1 := ReleaseRead(w, rs[0]);
      assert ReadKey(T, rs[0].ctx) in marks;
      forall p | 0 <= p < |w1.n.readStates| ensures ReleasedOk(marks, w1.n.readStates[p]) {}
      ReleaseReadsReads(cfg, marks, w1, rs[1..], T);
    }
  }

  lemma AckKeepsPending(cfg: Config, marks: Marks, n: Node, from: Id, ctx: Ctx)
    requires NodeReads(cfg, marks, n) && ctx != "" && from in cfg.voters && from != n.id
    requires ReadKey(n.term, ctx) in marks && from !in marks[ReadKey(n.term, ctx)].ahead
    ensures NodeReads(cfg, marks, n.(pending := AckRead(n.pending, ctx, from)))
  {
    var n' := n.(pending := AckRead(n.pending, ctx, from));
    assert |n'.pending| == |n.pending|;
    assert forall p | 0 <= p < |n.pending| :: n'.pending[p].ctx == n.pending[p].ctx;
    forall p | 0 <= p < |n'.pending| ensures PendingOk(cfg, marks, n', n'.pending[p]) {
      assert PendingOk(cfg, marks, n, n.pending[p]);
    }
  }

  /** An acknowledgement, and the releases it triggers. */
  lemma AckReadReads(cfg: Config, c: Cluster, marks: Marks, w: Work, from: Id, ctx: Ctx)
    requires NodeReads(cfg, marks, w.n) && ctx != "" && from in cfg.voters && from != w.n.id
    requires ReadKey(w.n.term, ctx) in marks && from !in marks[ReadKey(w.n.term, ctx)].ahead
    requires forall k | k in marks :: MarkOk(cfg, c, k, marks[k])
    requires w.n.id in cfg.voters && w.n.prs.Keys == cfg.voters && w.n.id in c.nodes && c.nodes[w.n.id].term <= w.n.term
    requires forall x | x in w.out :: MsgReads(marks, x)
    ensures var w' := LeaderAckRead(w, from, ctx);
            NodeReads(cfg, marks, w'.n) && forall x | x in w'.out :: MsgReads(marks, x)
  {
    hide MarkOk, AckRead, ReleasedOk, MsgReads, ReleaseReads, Covers;
    AckKeepsPending(cfg, marks, w.n, from, ctx);
    var pending := AckRead(w.n.pending, ctx, from);
    var k := FindRead(pending, ctx);
    var n := w.n.(pending := pending);
    if k < |pending| && |pending[k].acks| + 1 >= QuorumSize(n) {
      var acks := pending[k].acks;
      assert PendingOk(cfg, marks, n, pending[k]);
      forall p | 0 <= p < k + 1
        ensures ReadKey(n.term, pending[p].ctx) in marks && Covers(marks[ReadKey(n.term, pending[p].ctx)], pending[p].index)
      {
        assert PendingOk(cfg, marks, n, pending[p]);
        assert marks[ReadKey(n.term, pending[p].ctx)].ahead <= marks[ReadKey(n.term, pending[k].ctx)].ahead;
        assert MarkOk(cfg, c, ReadKey(n.term, pending[p].ctx), marks[ReadKey(n.term, pending[p].ctx)]);
        ConfirmedCovers(cfg, c, marks, n, pending[p], acks);
      }
      var n' := n.(pending := pending[k + 1..]);
      RestKeepsReads(cfg, marks, n, k + 1);
      ReleaseReadsReads(cfg, marks, w.(n := n'), pending[..k + 1], n.term);
      var w' := ReleaseReads(w.(n := n'), pending[..k + 1]);
      ReadStatesOnly(cfg, marks, n', w'.n);
    }
  }

  lemma RestKeepsReads(cfg: Config, marks: Marks, n: Node, k: nat)
    requires NodeReads(cfg, marks, n) && k <= |n.pending|
    ensures NodeReads(cfg, marks, n.(pending := n.pending[k..]))
  {
    var n' := n.(pending := n.pending[k..]);
    forall p | 0 <= p < |n'.pending| ensures PendingOk(cfg, marks, n', n'.pending[p]) {
      assert PendingOk(cfg, marks, n, n.pending[p + k]);
    }
  }

  lemma ReadStatesOnly(cfg: Config, marks: Marks, n: Node, n': Node)
    requires NodeReads(cfg, marks, n) && n' == n.(readStates := n'.readStates)
    requires forall p | 0 <= p < |n'.readStates| :: ReleasedOk(marks, n'.readStates[p])
    ensures NodeReads(cfg, marks, n')
  {
    forall p | 0 <= p < |n'.pending| ensures PendingOk(cfg, marks, n', n'.pending[p]) {
      assert PendingOk(cfg, marks, n, n.pending[p]);
    }
  }

  lemma HeartbeatRespReads(cfg: Config, c: Cluster, marks: Marks, n: Node, m: Msg)
    requires NodeReads(cfg, marks, n) && Member(n) && n.role == Leader && m.MsgHeartbeatResp? && m.term == n.term
    requires MsgReads(marks, m) && m.from in cfg.voters && m.from != n.id && !cfg.leaseRead
    requires forall k | k in marks :: MarkOk(cfg, c, k, marks[k])
    requires n.id in cfg.voters && n.prs.Keys == cfg.voters && n.id in c.nodes && c.nodes[n.id].term <= n.term
    ensures var w := LeaderHeartbeatResp(cfg, n, m);
            NodeReads(cfg, marks, w.n) && forall x | x in w.out :: MsgReads(marks, x)
  {
    hide MarkOk, NodeReads, LeaderAckRead, SendAppend, FreeTo;
    var pr := n.prs[m.from].(recentActive := true, paused := false);
    var pr' := if pr.state == Replicate && pr.ins != [] && |pr.ins| == cfg.maxInflight
               then pr.(ins := FreeTo(pr.ins, pr.ins[0])) else pr;
    var w := Work(SetProgress(n, m.from, pr'), {});
    SendAppendQuiet(cfg, w, m.from, true);
    var w' := if pr'.matched < |n.log| then SendAppend(cfg, w, m.from, true) else w;
    assert Quiet(Work(n, {}), w');
    QuietKeepsReads(cfg, marks, n, w');
    if m.ctx != "" {
      assert w'.n.term == n.term && w'.n.prs.Keys == cfg.voters by { SendAppendFrame(cfg, w, m.from, true); }
      AckReadReads(cfg, c, marks, w', m.from, m.ctx);
    }
  }

  lemma SendAppendFrame(cfg: Config, w: Work, to: Id, e: bool)
    requires to in w.n.prs
    ensures SendAppend(cfg, w, to, e).n == w.n.(prs := SendAppend(cfg, w, to, e).n.prs)
  {
  }

  // ---------------------------------------------------------------- a whole step, except adding a read

  /** What the reads argument needs to know about the node that handles m. */
  ghost predicate ReadsReady(cfg: Config, c: Cluster, marks: Marks, n: Node, m: Msg) {
    && !cfg.leaseRead && Member(n) && n.id in cfg.voters && n.prs.Keys == cfg.voters
    && n.id in c.nodes && c.nodes[n.id].term <= n.term
    && NodeReads(cfg, marks, n)
    && (forall k | k in marks :: MarkOk(cfg, c, k, marks[k]))
    && MsgReads(marks, m)
    && (m.MsgHeartbeatResp? ==> m.from != n.id)
    && (m.MsgHeartbeat? || m.MsgHeartbeatResp? ==> m.term == n.term)
  }

  lemma DispatchReads(cfg: Config, c: Cluster, marks: Marks, n: Node, m: Msg)
    requires ReadsReady(cfg, c, marks, n, m) && Dispatch(cfg, n, m).Done? && !(n.role == Leader && m.MsgReadIndex?)
    ensures var w := Dispatch(cfg, n, m).value;
            NodeReads(cfg, marks, w.n) && forall x | x in w.out :: MsgReads(marks, x)
  {
    hide LeaderHeartbeatResp, MarkOk, Dispatch, Quiet, BcastHeartbeat, PendingOk, ReleasedOk, PendingInOrder;
    if !TouchesReads(n, m) {
      DispatchQuiet(cfg, n, m);
      QuietKeepsReads(cfg, marks, n, Dispatch(cfg, n, m).value);
    } else if m.MsgHeartbeat? {
      if m.ctx != "" { NotAhead(cfg, c, marks, n, ReadKey(m.term, m.ctx)); }
      HeartbeatReads(cfg, marks, n, m);
    } else {
      DispatchIs(cfg, n, m);
      match m
      case MsgBeat => BeatReads(cfg, marks, n);
      case MsgHeartbeatResp(_, from, _, _) => if from in n.prs { HeartbeatRespReads(cfg, c, marks, n, m); }
      case _ => ReadRespReads(cfg, marks, n, m);
    }
  }

  lemma DispatchIs(cfg: Config, n: Node, m: Msg)
    requires Member(n) && TouchesReads(n, m) && !m.MsgHeartbeat?
    ensures Dispatch(cfg, n, m) == if n.role == Leader then StepLeader(cfg, n, m) else StepFollower(cfg, n, m)
  {
  }

  lemma NotAhead(cfg: Config, c: Cluster, marks: Marks, n: Node, k: ReadKey)
    requires k in marks && MarkOk(cfg, c, k, marks[k]) && n.id in c.nodes && c.nodes[n.id].term <= k.term
    ensures n.id !in marks[k].ahead
  {
  }

  /** The mirrored facts about one node. */
  ghost predicate SameNode(cfg: Config, c: Cluster, s: State, j: Id) {
    && j in s.nodes && j in c.nodes && s.voters == cfg.voters
    && s.nodes[j].term == c.nodes[j].term && s.nodes[j].committed == c.nodes[j].committed
    && s.nodes[j].role == c.nodes[j].role && s.nodes[j].log == c.nodes[j].log
    && c.nodes[j].id == j && c.nodes[j].prs.Keys == cfg.voters && j in cfg.voters
  }

  lemma MirrorView(cfg: Config, c: Cluster, s: State, j: Id)
    requires Mirrors(cfg, c, s) && j in c.nodes
    ensures SameNode(cfg, c, s, j)
  {
    hide Inv;
    assert Ready(cfg, s, j, c.nodes[j]);
  }

  lemma DeliveredReads(cfg: Config, c: Cluster, marks: Marks, s: State, i: Id, m: Msg)
    requires Mirrors(cfg, c, s) && ReadInv(cfg, c, marks) && i in c.nodes && Deliverable(c.net, i, m)
    ensures MsgReads(marks, m) && (m.MsgHeartbeatResp? ==> m.from != i)
    ensures Termless(m) || IsLocal(m) || m.term >= BOOT_TERM
  {
    hide Inv, Ready, NodeReads, MarkOk, MsgReads;
    MsgFacts(s, i, m);
    if IsLocal(m) { LocalReads(marks, m); } else { NotFromSelf(s, m); }
  }

  lemma StepReads(cfg: Config, c: Cluster, marks: Marks, s: State, i: Id, m: Msg)
    requires Mirrors(cfg, c, s) && ReadInv(cfg, c, marks) && !cfg.leaseRead
    requires i in c.nodes && Member(c.nodes[i]) && Deliverable(c.net, i, m) && Step(cfg, c.nodes[i], m).Done?
    requires !(c.nodes[i].role == Leader && m.MsgReadIndex?)
    ensures var w := Step(cfg, c.nodes[i], m).value;
            NodeReads(cfg, marks, w.n) && forall x | x in w.out :: MsgReads(marks, x)
  {
    hide Mirrors, Dispatch, NodeReads, MarkOk, Quiet, BecomeFollower, IgnoredInLease, Deliverable;
    var n := c.nodes[i];
    MirrorView(cfg, c, s, i);
    DeliveredReads(cfg, c, marks, s, i, m);
    var term := TermOf(m);
    if term == 0 || term == n.term {
      DispatchReads(cfg, c, marks, n, m);
    } else if term > n.term && !IgnoredInLease(cfg, n, m) {
      if m.MsgPreVote? || (m.MsgPreVoteResp? && !m.reject) {
        DispatchReads(cfg, c, marks, n, m);
      } else {
        var n' := BecomeFollower(n, term, if m.MsgApp? || m.MsgHeartbeat? then m.from else NONE);
        FollowerIsQuiet(n, term, if m.MsgApp? || m.MsgHeartbeat? then m.from else NONE);
        QuietKeepsReads(cfg, marks, n, Work(n', {}));
        DispatchReads(cfg, c, marks, n', m);
      }
    }
  }

  lemma FollowerIsQuiet(n: Node, term: nat, lead: Id)
    ensures var n' := BecomeFollower(n, term, lead);
            && Quiet(Work(n, {}), Work(n', {})) && n'.prs.Keys == n.prs.Keys && n'.role == Follower
            && n'.id == n.id && n'.term == term
  {
  }

  lemma LocalReads(marks: Marks, m: Msg)
    requires IsLocal(m)
    ensures MsgReads(marks, m)
  {
  }

  // ---------------------------------------------------------------- adding a read

  function Commits(c: Cluster): map<Id, nat> { map j | j in c.nodes :: c.nodes[j].committed }

  function NewMark(c: Cluster, n: Node): Mark {
    Mark(n.id, n.committed, Commits(c), set j | j in c.nodes && c.nodes[j].term > n.term)
  }

  /** At the moment it is added, the mark is covered or a majority is already ahead. */
  lemma NewMarkIsSound(cfg: Config, c: Cluster, s: State, i: Id)
    requires Mirrors(cfg, c, s) && i in c.nodes && c.nodes[i].role == Leader
    requires TermAt(c.nodes[i].log, c.nodes[i].committed) == c.nodes[i].term
    ensures var mk := NewMark(c, c.nodes[i]);
            Covers(mk, mk.index) || exists q :: Quorum(cfg.voters, q) && q <= mk.ahead
  {
    hide Mirrors, Inv;
    MirrorView(cfg, c, s, i);
    var n := c.nodes[i];
    var mk := NewMark(c, n);
    if j :| j in mk.committed && mk.committed[j] > mk.index {
      MirrorView(cfg, c, s, j);
      LeaderKnowsCommitted(s, i, j) by { MirrorInv(cfg, c, s); }
      var q :| AheadQuorum(s, n.term, q);
      forall p | p in q ensures p in mk.ahead {
        MirrorInv(cfg, c, s);
        MirrorView(cfg, c, s, p);
      }
    }
  }

  lemma MirrorInv(cfg: Config, c: Cluster, s: State)
    requires Mirrors(cfg, c, s)
    ensures Inv(s) && c.nodes.Keys == cfg.voters && s.net == c.net
  {
  }

  lemma SomeoneElse(voters: set<Id>, i: Id) returns (j: Id)
    requires |voters| >= 2
    ensures j in voters && j != i
  {
    if forall x | x in voters :: x == i {
      SubsetCardinality(voters, {i});
      assert false;
    }
    j :| j in voters && j != i;
  }

  /** The node and its messages after adding read `ctx`. */
  lemma AddReadReads(cfg: Config, c: Cluster, marks: Marks, n: Node, m: Msg)
    requires NodeReads(cfg, marks, n) && n.role == Leader && m.MsgReadIndex? && n.prs.Keys == cfg.voters
    requires forall k | k in marks :: MarkOk(cfg, c, k, marks[k])
    requires ReadKey(n.term, m.ctx) !in marks
    ensures var marks' := marks[ReadKey(n.term, m.ctx) := NewMark(c, n)];
            var n' := n.(pending := AddRead(n.pending, n.committed, m.from, m.ctx));
            var w := BcastHeartbeat(Work(n', {}), m.ctx);
            NodeReads(cfg, marks', w.n) && forall x | x in w.out :: MsgReads(marks', x)
  {
    hide Covers;
    var key := ReadKey(n.term, m.ctx);
    var marks' := marks[key := NewMark(c, n)];
    var n' := n.(pending := AddRead(n.pending, n.committed, m.from, m.ctx));
    forall p | 0 <= p < |n.pending| ensures n.pending[p].ctx != m.ctx { assert PendingOk(cfg, marks, n, n.pending[p]); }
    assert n'.pending == n.pending + [PendingRead(m.ctx, m.from, n.committed, {})];
    forall p | 0 <= p < |n'.pending| ensures PendingOk(cfg, marks', n', n'.pending[p]) {
      if p < |n.pending| { assert PendingOk(cfg, marks, n, n.pending[p]); }
    }
    forall p | 0 <= p < |n.pending| ensures marks[ReadKey(n.term, n.pending[p].ctx)].ahead <= NewMark(c, n).ahead {
      assert PendingOk(cfg, marks, n, n.pending[p]);
      assert MarkOk(cfg, c, ReadKey(n.term, n.pending[p].ctx), marks[ReadKey(n.term, n.pending[p].ctx)]);
    }
    ReleasedGrows(cfg, marks, marks', n);
  }

  predicate IsPending(n: Node, ctx: Ctx) { exists p :: 0 <= p < |n.pending| && n.pending[p].ctx == ctx }

  /** The node and its messages after handling a read that is still pending: it only asks again. */
  lemma AskAgainReads(cfg: Config, marks: Marks, n: Node, m: Msg)
    requires NodeReads(cfg, marks, n) && m.MsgReadIndex? && IsPending(n, m.ctx)
    ensures AddRead(n.pending, n.committed, m.from, m.ctx) == n.pending
    ensures forall x | x in BcastHeartbeat(Work(n, {}), m.ctx).out :: MsgReads(marks, x)
  {
    hide Covers;
    var p :| 0 <= p < |n.pending| && n.pending[p].ctx == m.ctx;
    assert PendingOk(cfg, marks, n, n.pending[p]);
  }

  /** The node and its messages after adding a read again that was released before, with no other
      read waiting, or a read without a context. Old acknowledgements vouch for its first asking. */
  lemma ReaddReads(cfg: Config, marks: Marks, n: Node, m: Msg)
    requires NodeReads(cfg, marks, n) && n.role == Leader && m.MsgReadIndex? && !IsPending(n, m.ctx)
    requires n.pending == [] || m.ctx == ""
    requires ReadKey(n.term, m.ctx) in marks && marks[ReadKey(n.term, m.ctx)].index <= n.committed
    ensures var w := BcastHeartbeat(Work(n.(pending := AddRead(n.pending, n.committed, m.from, m.ctx)), {}), m.ctx);
            NodeReads(cfg, marks, w.n) && forall x | x in w.out :: MsgReads(marks, x)
  {
    hide Covers, ReleasedOk;
    var n' := n.(pending := AddRead(n.pending, n.committed, m.from, m.ctx));
    assert n'.pending == n.pending + [PendingRead(m.ctx, m.from, n.committed, {})];
    forall p | 0 <= p < |n'.pending| ensures PendingOk(cfg, marks, n', n'.pending[p]) {
      if p < |n.pending| { assert PendingOk(cfg, marks, n, n.pending[p]); }
    }
  }

  /** The leader of a term is the one that asked in it. */
  lemma OwnerIsLeader(cfg: Config, c: Cluster, s: State, marks: Marks, i: Id, k: ReadKey)
    requires Mirrors(cfg, c, s) && ReadInv(cfg, c, marks) && k in marks
    requires i in c.nodes && c.nodes[i].role == Leader && c.nodes[i].term == k.term
    ensures marks[k].index <= c.nodes[i].committed
  {
    hide Inv, NodeReads, MsgReads, Covers, Mirrors;
    assert MarkOk(cfg, c, k, marks[k]);
    var m :| m in c.net && m.MsgHeartbeat? && m.term == k.term && m.ctx == k.ctx && m.from == marks[k].owner;
    MirrorView(cfg, c, s, i);
    MirrorInv(cfg, c, s);
    HeartbeatIsLeaders(s, i, m);
  }

  lemma HeartbeatIsLeaders(s: State, i: Id, m: Msg)
    requires Inv(s) && m in s.net && m.MsgHeartbeat? && i in s.nodes && s.nodes[i].role == Leader && s.nodes[i].term == m.term
    ensures m.from == i
  {
    hide Inv, LogInv, VoteInv, CommittedIn;
    InvMsg(s, m);
    InvNode(s, i);
  }

  /** Marks are only ever added. */
  ghost predicate MarksGrow(a: Marks, b: Marks) { forall k | k in a :: k in b && b[k] == a[k] }

  lemma ReleasedGrows(cfg: Config, marks: Marks, marks': Marks, n: Node)
    requires MarksGrow(marks, marks') && NodeReads(cfg, marks, n)
    ensures forall p | 0 <= p < |n.readStates| :: ReleasedOk(marks', n.readStates[p])
  {
    hide Covers;
    forall p | 0 <= p < |n.readStates| ensures ReleasedOk(marks', n.readStates[p]) {
      var r := n.readStates[p];
      assert ReleasedOk(marks, r);
      var T: nat :| ReadKey(T, r.ctx) in marks && Covers(marks[ReadKey(T, r.ctx)], r.index);
      assert ReadKey(T, r.ctx) in marks';
    }
  }

  lemma NodeReadsGrows(cfg: Config, marks: Marks, marks': Marks, n: Node)
    requires MarksGrow(marks, marks') && NodeReads(cfg, marks, n)
    ensures NodeReads(cfg, marks', n)
  {
    hide Covers, ReleasedOk;
    ReleasedGrows(cfg, marks, marks', n);
    forall p | 0 <= p < |n.pending| ensures PendingOk(cfg, marks', n, n.pending[p]) {
      assert PendingOk(cfg, marks, n, n.pending[p]);
    }
  }

  // ---------------------------------------------------------------- steps of the cluster

  /** Where a leader stands with a context it is handed: whether it already asked about it in its
      term, whether that read is still pending, and whether any read is. */
  datatype Standing = Standing(asked: bool, waiting: bool, idle: bool)

  ghost function StandingOf(c: Cluster, i: Id, ctx: Ctx): Standing
    requires i in c.nodes
  {
    var n := c.nodes[i];
    Standing(Asked(c.net, ReadKey(n.term, ctx)), IsPending(n, ctx), n.pending == [])
  }

  /** Handling the read is harmless unless it was asked about, has been released since, and other
      reads are waiting. */
  predicate Harmless(st: Standing) { !st.asked || st.waiting || st.idle }

  /** A leader that can confirm reads is only handed those that `guard` admits. */
  ghost predicate Admits(guard: Standing -> bool, c: Cluster, i: Id, m: Msg)
    requires i in c.nodes
  {
    var n := c.nodes[i];
    m.MsgReadIndex? && m.ctx != "" && n.role == Leader && TermAt(n.log, n.committed) == n.term ==>
      guard(StandingOf(c, i, m.ctx))
  }

  ghost predicate DeliversTo(guard: Standing -> bool, cfg: Config, c: Cluster, c': Cluster, i: Id, m: Msg) {
    Delivers(cfg, c, c', i, m) && Admits(guard, c, i, m)
  }

  ghost predicate NextUnder(guard: Standing -> bool, cfg: Config, c: Cluster, c': Cluster) {
    || (exists i :: Ticks(c, c', i))
    || (exists i :: Restarts(c, c', i))
    || (exists i, m :: DeliversTo(guard, cfg, c, c', i, m))
  }

  /** Everything that does not concern the node that moved. */
  lemma MarkOkGrows(cfg: Config, c: Cluster, c': Cluster, k: ReadKey, mk: Mark)
    requires MarkOk(cfg, c, k, mk) && c.net <= c'.net && c'.nodes.Keys == c.nodes.Keys
    requires forall j | j in c.nodes :: c.nodes[j].term <= c'.nodes[j].term && c.nodes[j].committed <= c'.nodes[j].committed
    ensures MarkOk(cfg, c', k, mk)
  {
    hide Covers;
    var m :| m in c.net && m.MsgHeartbeat? && m.term == k.term && m.ctx == k.ctx && m.from == mk.owner;
    assert m in c'.net;
  }

  lemma MsgReadsGrows(marks: Marks, marks': Marks, m: Msg)
    requires MarksGrow(marks, marks') && MsgReads(marks, m)
    ensures MsgReads(marks', m)
  {
  }

  lemma ReadInvFrom(cfg: Config, c: Cluster, c': Cluster, marks: Marks, marks': Marks, i: Id, out: set<Msg>)
    requires ReadInv(cfg, c, marks) && MarksGrow(marks, marks')
    requires i in c.nodes && i in c'.nodes && c' == Cluster(c.nodes[i := c'.nodes[i]], c.net + out)
    requires c.nodes[i].term <= c'.nodes[i].term && c.nodes[i].committed <= c'.nodes[i].committed
    requires NodeReads(cfg, marks', c'.nodes[i]) && forall x | x in out :: MsgReads(marks', x)
    requires forall k | k in marks' && k !in marks :: MarkOk(cfg, c', k, marks'[k])
    ensures ReadInv(cfg, c', marks')
  {
    hide MarkOk, MsgReads, NodeReads;
    assert c'.nodes.Keys == c.nodes.Keys;
    forall k | k in marks' ensures MarkOk(cfg, c', k, marks'[k]) {
      if k in marks { MarkOkGrows(cfg, c, c', k, marks[k]); }
    }
    forall m | m in c'.net ensures MsgReads(marks', m) {
      if m in c.net { MsgReadsGrows(marks, marks', m); }
    }
    forall j | j in c'.nodes ensures NodeReads(cfg, marks', c'.nodes[j]) {
      if j != i { NodeReadsGrows(cfg, marks, marks', c.nodes[j]); }
    }
  }

  lemma MarksGrowSelf(marks: Marks)
    ensures MarksGrow(marks, marks)
  {
  }

  lemma TickReads(cfg: Config, c: Cluster, c': Cluster, marks: Marks, i: Id)
    requires ReadInv(cfg, c, marks) && (Ticks(c, c', i) || Restarts(c, c', i))
    ensures NodeReads(cfg, marks, c'.nodes[i]) && c.nodes[i].term <= c'.nodes[i].term
    ensures c.nodes[i].committed <= c'.nodes[i].committed
    ensures c' == Cluster(c.nodes[i := c'.nodes[i]], c.net + {})
  {
    hide MarkOk, MsgReads;
    assert NodeReads(cfg, marks, c.nodes[i]);
    var n := c'.nodes[i];
    assert Quiet(Work(c.nodes[i], {}), Work(n.(readStates := c.nodes[i].readStates), {}));
    QuietKeepsReads(cfg, marks, c.nodes[i], Work(n.(readStates := c.nodes[i].readStates), {}));
    ReadStatesOnly(cfg, marks, n.(readStates := c.nodes[i].readStates), n);
  }

  /** A leader adds a read: the new mark is in order. */
  lemma AddReadStep(cfg: Config, c: Cluster, c': Cluster, marks: Marks, s: State, i: Id, m: Msg) returns (marks': Marks)
    requires Mirrors(cfg, c, s) && ReadInv(cfg, c, marks) && !cfg.leaseRead && |cfg.voters| >= 2
    requires DeliversTo(Harmless, cfg, c, c', i, m) && c.nodes[i].role == Leader && m.MsgReadIndex?
    ensures ReadInv(cfg, c', marks') && MarksGrow(marks, marks')
    ensures forall k | k in marks' && k !in marks :: marks'[k].committed == Commits(c)
  {
    hide Mirrors, NodeReads, MarkOk, MsgReads, AddRead, IsPending, BcastHeartbeat;
    MirrorView(cfg, c, s, i);
    var n := c.nodes[i];
    var w := LeaderReadIndex(cfg, n, m);
    assert Step(cfg, n, m).value == w;
    assert |n.prs| == |n.prs.Keys|;
    assert NodeReads(cfg, marks, n);
    var key := ReadKey(n.term, m.ctx);
    marks' := marks;
    MarksGrowSelf(marks);
    if TermAt(n.log, n.committed) != n.term {
      ReadInvFrom(cfg, c, c', marks, marks', i, {});
    } else {
      BcastKeepsNode(Work(n.(pending := AddRead(n.pending, n.committed, m.from, m.ctx)), {}), m.ctx);
      if IsPending(n, m.ctx) {
        AskAgainReads(cfg, marks, n, m);
        ReadInvFrom(cfg, c, c', marks, marks', i, w.out);
      } else if key in marks {
        OwnerIsLeader(cfg, c, s, marks, i, key);
        MarkIsAsked(cfg, c, marks, key);
        ReaddReads(cfg, marks, n, m);
        ReadInvFrom(cfg, c, c', marks, marks', i, w.out);
      } else {
        marks' := marks[key := NewMark(c, n)];
        AddReadReads(cfg, c, marks, n, m);
        NewMarkIsSound(cfg, c, s, i);
        NewMarkOk(cfg, c, c', i, m, w);
        ReadInvFrom(cfg, c, c', marks, marks', i, w.out);
      }
    }
  }

  lemma BcastKeepsNode(w: Work, ctx: Ctx)
    ensures BcastHeartbeat(w, ctx).n == w.n
  {
  }

  lemma NewMarkOk(cfg: Config, c: Cluster, c': Cluster, i: Id, m: Msg, w: Work)
    requires i in c.nodes && c.nodes[i].id == i && c.nodes[i].prs.Keys == cfg.voters && |cfg.voters| >= 2 && m.MsgReadIndex?
    requires w == BcastHeartbeat(Work(c.nodes[i].(pending := w.n.pending), {}), m.ctx)
    requires c' == Cluster(c.nodes[i := w.n], c.net + w.out)
    requires var mk := NewMark(c, c.nodes[i]); Covers(mk, mk.index) || exists q :: Quorum(cfg.voters, q) && q <= mk.ahead
    ensures MarkOk(cfg, c', ReadKey(c.nodes[i].term, m.ctx), NewMark(c, c.nodes[i]))
  {
    hide Covers;
    var j := SomeoneElse(cfg.voters, i);
    assert HeartbeatMsg(w.n, j, m.ctx) in c'.net;
  }

  lemma ReadsNext(cfg: Config, c: Cluster, c': Cluster, s: State, marks: Marks) returns (marks': Marks)
    requires Mirrors(cfg, c, s) && ReadInv(cfg, c, marks) && !cfg.leaseRead && |cfg.voters| >= 2
    requires NextUnder(Harmless, cfg, c, c')
    ensures ReadInv(cfg, c', marks') && MarksGrow(marks, marks')
    ensures forall k | k in marks' && k !in marks :: marks'[k].committed == Commits(c)
    ensures c.net <= c'.net
  {
    hide Mirrors, ReadInv, NodeReads, MsgReads, MarkOk, Step;
    MarksGrowSelf(marks);
    marks' := marks;
    if i :| Ticks(c, c', i) || Restarts(c, c', i) {
      TickReads(cfg, c, c', marks, i);
      ReadInvFrom(cfg, c, c', marks, marks, i, {});
    } else {
      var i, m :| DeliversTo(Harmless, cfg, c, c', i, m);
      if c.nodes[i].role == Leader && m.MsgReadIndex? {
        marks' := AddReadStep(cfg, c, c', marks, s, i, m);
      } else {
        StepReads(cfg, c, marks, s, i, m);
        StepTerm(cfg, c, s, i, m);
        ReadInvFrom(cfg, c, c', marks, marks, i, Step(cfg, c.nodes[i], m).value.out);
      }
    }
  }

  lemma StepTerm(cfg: Config, c: Cluster, s: State, i: Id, m: Msg)
    requires Mirrors(cfg, c, s) && i in c.nodes && Member(c.nodes[i]) && Deliverable(c.net, i, m)
    ensures Step(cfg, c.nodes[i], m).Done? && c.nodes[i].term <= Step(cfg, c.nodes[i], m).value.n.term
    ensures c.nodes[i].committed <= Step(cfg, c.nodes[i], m).value.n.committed
  {
    hide Inv, Step, HistGrows, AcksFrozen;
    assert Ready(cfg, s, i, c.nodes[i]);
    var t := StepMoves(cfg, s, i, c.nodes[i], m);
    assert s.nodes[i].term <= t.nodes[i].term;
  }

  // ---------------------------------------------------------------- runs

  /** A run in which every read handed to a leader is admitted by `guard`. */
  ghost predicate RunUnder(guard: Standing -> bool, cfg: Config, boot: seq<Entry>, b: seq<Cluster>) {
    && ValidConfig(cfg) && |b| > 0 && Init(cfg, boot, b[0])
    && forall x | 0 <= x < |b| - 1 :: NextUnder(guard, cfg, b[x], b[x + 1])
  }

  lemma UnderIsNext(cfg: Config, c: Cluster, c': Cluster)
    requires NextUnder(Harmless, cfg, c, c')
    ensures Next(cfg, c, c')
  {
    hide Delivers, Ticks, Restarts;
    if i, m :| DeliversTo(Harmless, cfg, c, c', i, m) { assert Delivers(cfg, c, c', i, m); }
  }

  lemma UnderIsRun(cfg: Config, boot: seq<Entry>, b: seq<Cluster>)
    requires RunUnder(Harmless, cfg, boot, b)
    ensures Run(cfg, boot, b)
  {
    hide NextUnder, Next, Init;
    forall x | 0 <= x < |b| - 1 ensures Next(cfg, b[x], b[x + 1]) {
      assert NextUnder(Harmless, cfg, b[x], b[x + 1]);
      UnderIsNext(cfg, b[x], b[x + 1]);
    }
  }

  /** Everyone's commit index in c is at most what the mark recorded. */
  ghost predicate NotAfter(c: Cluster, mk: Mark) {
    forall j | j in c.nodes :: j in mk.committed && c.nodes[j].committed <= mk.committed[j]
  }

  /** Each mark was taken after every state in which its read had not been asked about yet. */
  ghost predicate MarksSince(b: seq<Cluster>, marks: Marks) {
    forall k, x | k in marks && 0 <= x < |b| && !Asked(b[x].net, k) :: NotAfter(b[x], marks[k])
  }

  lemma {:induction false} RunReads(cfg: Config, boot: seq<Entry>, b: seq<Cluster>) returns (marks: Marks)
    requires RunUnder(Harmless, cfg, boot, b) && !cfg.leaseRead && |cfg.voters| >= 2
    ensures ReadInv(cfg, b[|b| - 1], marks) && MarksSince(b, marks)
    decreases |b|
  {
    hide Mirrors, ReadInv, Grows, NextUnder, Init, Run;
    var last := |b| - 1;
    if last == 0 {
      marks := map[];
      InitReads(cfg, boot, b[0]);
    } else {
      assert RunUnder(Harmless, cfg, boot, b[..last]);
      var front := RunReads(cfg, boot, b[..last]);
      assert b[..last][last - 1] == b[last - 1];
      assert NextUnder(Harmless, cfg, b[last - 1], b[last - 1 + 1]);
      UnderIsRun(cfg, boot, b);
      var ss := RunMirrors(cfg, boot, b);
      marks := ReadsNext(cfg, b[last - 1], b[last], ss[last - 1], front);
      SinceGrows(cfg, boot, b, front, marks);
    }
  }

  lemma InitReads(cfg: Config, boot: seq<Entry>, c: Cluster)
    requires Init(cfg, boot, c)
    ensures ReadInv(cfg, c, map[])
  {
  }

  lemma SinceGrows(cfg: Config, boot: seq<Entry>, b: seq<Cluster>, front: Marks, marks: Marks)
    requires |b| >= 2 && Run(cfg, boot, b) && MarksSince(b[..|b| - 1], front) && MarksGrow(front, marks)
    requires ReadInv(cfg, b[|b| - 1], marks)
    requires forall k | k in marks && k !in front :: marks[k].committed == Commits(b[|b| - 2])
    ensures MarksSince(b, marks)
  {
    hide Run, ReadInv, Asked;
    var last := |b| - 1;
    forall k, x | k in marks && 0 <= x < |b| && !Asked(b[x].net, k) ensures NotAfter(b[x], marks[k]) {
      if x == last {
        MarkIsAsked(cfg, b[last], marks, k);
      } else if k in front {
        assert b[..last][x] == b[x];
      } else {
        forall j | j in b[x].nodes ensures j in marks[k].committed && b[x].nodes[j].committed <= marks[k].committed[j] {
          Monotonicity(cfg, boot, b, x, last - 1, j);
        }
      }
    }
  }

  lemma MarkIsAsked(cfg: Config, c: Cluster, marks: Marks, k: ReadKey)
    requires ReadInv(cfg, c, marks) && k in marks
    ensures Asked(c.net, k)
  {
    hide NodeReads, MsgReads, Covers;
    assert MarkOk(cfg, c, k, marks[k]);
  }

  // ---------------------------------------------------------------- the theorem

  /** Read index `index` for `ctx`, confirmed by the leader of `term`, covers everything committed
      in every earlier state of the run in which that leader had not yet asked about `ctx`,
      in particular everything committed when the request was added or issued. */
  ghost predicate CoversHistory(b: seq<Cluster>, y: nat, k: ReadKey, index: nat)
    requires y < |b|
  {
    && Asked(b[y].net, k)
    && forall x, j | 0 <= x <= y && !Asked(b[x].net, k) && j in b[x].nodes :: b[x].nodes[j].committed <= index
  }

  lemma CoversFromMark(cfg: Config, b: seq<Cluster>, y: nat, marks: Marks, k: ReadKey, index: nat)
    requires y < |b| && ReadInv(cfg, b[y], marks) && MarksSince(b[..y + 1], marks)
    requires k in marks && Covers(marks[k], index)
    ensures CoversHistory(b, y, k, index)
  {
    hide ReadInv, Asked;
    MarkIsAsked(cfg, b[y], marks, k);
    forall x, j | 0 <= x <= y && !Asked(b[x].net, k) && j in b[x].nodes ensures b[x].nodes[j].committed <= index {
      assert b[..y + 1][x] == b[x];
      assert NotAfter(b[x], marks[k]);
    }
  }

  lemma PrefixIsUnder(cfg: Config, boot: seq<Entry>, b: seq<Cluster>, y: nat)
    requires RunUnder(Harmless, cfg, boot, b) && y < |b|
    ensures RunUnder(Harmless, cfg, boot, b[..y + 1])
  {
    hide NextUnder, Init;
  }

  /** Every read state a node ever holds is safe. */
  lemma ReadIndexSafety(cfg: Config, boot: seq<Entry>, b: seq<Cluster>, y: nat, i: Id, p: nat) returns (term: nat)
    requires RunUnder(Harmless, cfg, boot, b) && !cfg.leaseRead && |cfg.voters| >= 2
    requires y < |b| && i in b[y].nodes && p < |b[y].nodes[i].readStates|
    ensures CoversHistory(b, y, ReadKey(term, b[y].nodes[i].readStates[p].ctx), b[y].nodes[i].readStates[p].index)
  {
    hide RunUnder, Covers, MarkOk, MsgReads, CoversHistory;
    PrefixIsUnder(cfg, boot, b, y);
    var marks := RunReads(cfg, boot, b[..y + 1]);
    assert b[..y + 1][y] == b[y];
    var r := b[y].nodes[i].readStates[p];
    assert NodeReads(cfg, marks, b[y].nodes[i]) && ReleasedOk(marks, r);
    term :| ReadKey(term, r.ctx) in marks && Covers(marks[ReadKey(term, r.ctx)], r.index);
    CoversFromMark(cfg, b, y, marks, ReadKey(term, r.ctx), r.index);
  }

  /** So is every answer a leader ever sends to another node. */
  lemma ReadIndexRespSafety(cfg: Config, boot: seq<Entry>, b: seq<Cluster>, y: nat, m: Msg)
    requires RunUnder(Harmless, cfg, boot, b) && !cfg.leaseRead && |cfg.voters| >= 2
    requires y < |b| && m in b[y].net && m.MsgReadIndexResp?
    ensures CoversHistory(b, y, ReadKey(m.term, m.ctx), m.index)
  {
    hide RunUnder, Covers, MarkOk, NodeReads, CoversHistory;
    PrefixIsUnder(cfg, boot, b, y);
    var marks := RunReads(cfg, boot, b[..y + 1]);
    assert b[..y + 1][y] == b[y];
    assert MsgReads(marks, m);
    CoversFromMark(cfg, b, y, marks, ReadKey(m.term, m.ctx), m.index);
  }

  /** With a single voter a read is released at once, at the newest commit index of the run. */
  lemma SingleVoterRead(cfg: Config, boot: seq<Entry>, b: seq<Cluster>, x: nat, y: nat, i: Id, m: Msg)
    requires Run(cfg, boot, b) && cfg.voters == {i} && x <= y < |b| && i in b[x].nodes
    requires i in b[y].nodes && b[y].nodes[i].role == Leader && Member(b[y].nodes[i])
    requires m.MsgReadIndex? && m.from == NONE
    ensures Step(cfg, b[y].nodes[i], m).Done?
    ensures var n := Step(cfg, b[y].nodes[i], m).value.n;
            && |n.readStates| == |b[y].nodes[i].readStates| + 1
            && n.readStates[|n.readStates| - 1].ctx == m.ctx
            && b[x].nodes[i].committed <= n.readStates[|n.readStates| - 1].index
  {
    hide Grows, Mirrors, Run, Step;
    Monotonicity(cfg, boot, b, x, y, i);
    var ss := RunMirrors(cfg, boot, b);
    MirrorView(cfg, b[y], ss[y], i);
    ReadAlone(cfg, b[y].nodes[i], m);
  }

  lemma ReadAlone(cfg: Config, n: Node, m: Msg)
    requires n.role == Leader && Member(n) && n.prs.Keys == {n.id} && m.MsgReadIndex? && m.from == NONE
    ensures Step(cfg, n, m) == Done(Work(n.(readStates := n.readStates + [ReadState(n.committed, m.ctx)]), {}))
  {
    assert |n.prs| == |n.prs.Keys|;
  }
}
