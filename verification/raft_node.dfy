/**
 One Raft replica as a deterministic message-driven state machine: the
 handlers of raft/raft.go as functions from a node and a message to the next
 node and the messages it sends. The voter set is fixed and the log is never
 compacted, so snapshots and membership changes do not occur here.
 A panic of the source is an explicit outcome, and module Refinement proves
 that no run reaches one.
 */
module RaftNode {
  import opened RaftTypes
  import opened Logs
  import opened Quorums
  import opened SizeLimit

  datatype Config = Config(voters: set<Id>, maxInflight: nat, maxMsgSize: nat, electionTimeout: nat,
                           checkQuorum: bool, preVote: bool, leaseRead: bool, noForwarding: bool,
                           size: Entry -> nat)

  /** `Next` is never 0: every assignment in raft/progress.go keeps it positive. */
  type Pos = x: nat | 1 <= x witness 1

  datatype ProgressState = Probe | Replicate

  /** A follower in the view of the leader; `ins` are the in-flight appends, oldest first. */
  datatype Progress = Progress(matched: nat, next: Pos, state: ProgressState, paused: bool,
                               recentActive: bool, ins: seq<nat>)

  datatype PendingRead = PendingRead(ctx: Ctx, from: Id, index: nat, acks: set<Id>)
  datatype ReadState = ReadState(index: nat, ctx: Ctx)

  datatype Node = Node(id: Id, term: nat, vote: Id, log: seq<Entry>, committed: nat, role: Role, lead: Id,
                       votes: map<Id, bool>, prs: map<Id, Progress>, transferee: Id,
                       pending: seq<PendingRead>, readStates: seq<ReadState>, elapsed: nat)

  /** A node together with what it has sent so far while handling one message. */
  datatype Work = Work(n: Node, out: set<Msg>) {
    function Sending(m: Msg): Work { this.(out := out + {m}) }
  }

  datatype Outcome = Done(value: Work) | Panic {
    predicate IsFailure() { Panic? }
    function PropagateFailure(): Outcome
      requires Panic?
    {
      Panic
    }
    function Extract(): Work
      requires Done?
    {
      value
    }
  }

  function QuorumSize(n: Node): nat { |n.prs| / 2 + 1 }

  // ---------------------------------------------------------------- progress (raft/progress.go)

  function FreshProgress(n: Node, id: Id): Progress {
    Progress(if id == n.id then |n.log| else 0, |n.log| + 1, Probe, false, false, [])
  }

  function BecomeProbe(pr: Progress): Progress {
    pr.(state := Probe, paused := false, ins := [], next := pr.matched + 1)
  }

  function BecomeReplicate(pr: Progress): Progress {
    pr.(state := Replicate, paused := false, ins := [], next := pr.matched + 1)
  }

  /** raft/progress.go:123-134 */
  function MaybeUpdate(pr: Progress, i: nat): Progress {
    var a := if pr.matched < i then pr.(matched := i, paused := false) else pr;
    if a.next < i + 1 then a.(next := i + 1) else a
  }

  /** raft/progress.go:140-162; the flag says whether the rejection was current. */
  function MaybeDecrTo(pr: Progress, rejected: nat, last: nat): (Progress, bool) {
    if pr.state == Replicate then
      if rejected <= pr.matched then (pr, false)
      else (pr.(next := pr.matched + 1), true)
    else if pr.next - 1 != rejected then (pr, false)
    else (pr.(next := Max(Min(rejected, last + 1), 1), paused := false), true)
  }

  predicate IsPaused(cfg: Config, pr: Progress) {
    match pr.state
    case Probe => pr.paused
    case Replicate => |pr.ins| == cfg.maxInflight
  }

  /** Drops the longest prefix of in-flight appends that `to` covers. */
  function FreeTo(ins: seq<nat>, to: nat): seq<nat> {
    if ins == [] || to < ins[0] then ins else FreeTo(ins[1..], to)
  }

  // ---------------------------------------------------------------- sending appends (raft/raft.go:522-633)

  function EntriesFrom(cfg: Config, log: seq<Entry>, next: Pos): seq<Entry> {
    if next > |log| then [] else LimitSize(cfg.size, log[next - 1..], cfg.maxMsgSize)
  }

  function AppendMsg(cfg: Config, n: Node, to: Id, pr: Progress): Msg {
    MsgApp(n.term, n.id, to, pr.next - 1, TermAt(n.log, pr.next - 1), n.committed, EntriesFrom(cfg, n.log, pr.next))
  }

  /** Whether maybeSendAppend sends, and what it does to the progress. */
  predicate Sends(cfg: Config, n: Node, pr: Progress, sendIfEmpty: bool) {
    !IsPaused(cfg, pr) && (sendIfEmpty || EntriesFrom(cfg, n.log, pr.next) != [])
  }

  /** Positions in the log are the entries' indexes, so the last entry sent has index next - 1 + |es|. */
  function AfterSend(cfg: Config, n: Node, pr: Progress): Progress {
    var es := EntriesFrom(cfg, n.log, pr.next);
    if es == [] then pr
    else match pr.state
         case Probe => pr.(paused := true)
         case Replicate => pr.(next := pr.next + |es|, ins := pr.ins + [pr.next - 1 + |es|])
  }

  function SendAppend(cfg: Config, w: Work, to: Id, sendIfEmpty: bool): Work
    requires to in w.n.prs
  {
    var pr := w.n.prs[to];
    if !Sends(cfg, w.n, pr, sendIfEmpty) then w
    else Work(w.n.(prs := w.n.prs[to := AfterSend(cfg, w.n, pr)]), w.out + {AppendMsg(cfg, w.n, to, pr)})
  }

  function BcastAppend(cfg: Config, w: Work): Work {
    Work(w.n.(prs := map j | j in w.n.prs ::
                if j != w.n.id && Sends(cfg, w.n, w.n.prs[j], true) then AfterSend(cfg, w.n, w.n.prs[j]) else w.n.prs[j]),
         w.out + (set j | j in w.n.prs && j != w.n.id && Sends(cfg, w.n, w.n.prs[j], true) ::
                    AppendMsg(cfg, w.n, j, w.n.prs[j])))
  }

  /** The burst of non-empty appends after flow control opened up (raft/raft.go:1138-1139). */
  function SendAll(cfg: Config, w: Work, to: Id): Work
    requires to in w.n.prs
    decreases |w.n.log| + 1 - w.n.prs[to].next, if w.n.prs[to].paused then 0 else 1
  {
    if Sends(cfg, w.n, w.n.prs[to], false) then SendAll(cfg, SendAppend(cfg, w, to, false), to) else w
  }

  function HeartbeatMsg(n: Node, to: Id, ctx: Ctx): Msg
    requires to in n.prs
  {
    MsgHeartbeat(n.term, n.id, to, Min(n.prs[to].matched, n.committed), ctx)
  }

  function BcastHeartbeat(w: Work, ctx: Ctx): Work {
    w.(out := w.out + set j | j in w.n.prs && j != w.n.id :: HeartbeatMsg(w.n, j, ctx))
  }

  // ---------------------------------------------------------------- committing (raft/raft.go:638-689)

  /** The voters known to match at least k. */
  function Reached(prs: map<Id, Progress>, k: nat): set<Id> { set j | j in prs && prs[j].matched >= k }

  /** k is the largest index that a majority has reached. */
  predicate IsQuorumIndex(prs: map<Id, Progress>, quorum: nat, k: nat) {
    |Reached(prs, k)| >= quorum > |Reached(prs, k + 1)|
  }

  lemma QuorumIndexUnique(prs: map<Id, Progress>, quorum: nat, k: nat, l: nat)
    requires IsQuorumIndex(prs, quorum, k) && IsQuorumIndex(prs, quorum, l)
    ensures k == l
  {
    if k < l { SubsetCardinality(Reached(prs, l), Reached(prs, k + 1)); }
    if l < k { SubsetCardinality(Reached(prs, k), Reached(prs, l + 1)); }
  }

  lemma {:induction false} QuorumIndexBelow(prs: map<Id, Progress>, quorum: nat, k: nat) returns (r: nat)
    requires |Reached(prs, 0)| >= quorum && |Reached(prs, k + 1)| < quorum
    ensures IsQuorumIndex(prs, quorum, r)
    decreases k
  {
    if |Reached(prs, k)| >= quorum {
      r := k;
    } else {
      r := QuorumIndexBelow(prs, quorum, k - 1);
    }
  }

  lemma {:induction false} AboveAll(prs: map<Id, Progress>, ids: set<Id>) returns (k: nat)
    requires ids <= prs.Keys
    ensures forall j | j in ids :: prs[j].matched <= k
  {
    if ids == {} {
      k := 0;
    } else {
      var x :| x in ids;
      var l := AboveAll(prs, ids - {x});
      k := Max(l, prs[x].matched);
    }
  }

  lemma QuorumIndexExists(prs: map<Id, Progress>, quorum: nat)
    requires 1 <= quorum <= |prs|
    ensures exists k :: IsQuorumIndex(prs, quorum, k)
  {
    var top := AboveAll(prs, prs.Keys);
    assert Reached(prs, 0) == prs.Keys && Reached(prs, top + 1) == {};
    var k := QuorumIndexBelow(prs, quorum, top);
  }

  ghost function QuorumIndex(prs: map<Id, Progress>, quorum: nat): (k: nat)
    requires 1 <= quorum <= |prs|
    ensures IsQuorumIndex(prs, quorum, k)
  {
    QuorumIndexExists(prs, quorum);
    var k :| IsQuorumIndex(prs, quorum, k);
    k
  }

  /** With a fixed voter set every node tracks every voter, itself included. */
  predicate Member(n: Node) { n.id in n.prs }

  lemma MemberHasQuorum(n: Node)
    requires Member(n)
    ensures 1 <= QuorumSize(n) <= |n.prs|
  {
    assert n.prs.Keys != {};
  }

  /** Commits the quorum index if it is an entry of the current term; the flag says whether it moved. */
  ghost function MaybeCommit(n: Node): (Node, bool)
    requires Member(n)
  {
    MemberHasQuorum(n);
    var mci := QuorumIndex(n.prs, QuorumSize(n));
    if mci > n.committed && TermAt(n.log, mci) == n.term then (n.(committed := mci), true)
    else (n, false)
  }

  function NewEntries(n: Node, payload: seq<string>): seq<Entry> {
    seq(|payload|, x requires 0 <= x < |payload| => Entry(|n.log| + 1 + x, n.term, payload[x]))
  }

  ghost function AppendEntry(n: Node, payload: seq<string>): Node
    requires Member(n)
  {
    var log := n.log + NewEntries(n, payload);
    MaybeCommit(n.(log := log, prs := n.prs[n.id := MaybeUpdate(n.prs[n.id], |log|)])).0
  }

  // ---------------------------------------------------------------- changing role (raft/raft.go:655-857)

  function Reset(n: Node, term: nat): Node {
    n.(term := term, vote := if n.term != term then NONE else n.vote, lead := NONE, elapsed := 0, transferee := NONE,
       votes := map[], prs := map j | j in n.prs :: FreshProgress(n, j), pending := [])
  }

  function BecomeFollower(n: Node, term: nat, lead: Id): Node {
    Reset(n, term).(lead := lead, role := Follower)
  }

  function BecomeCandidate(n: Node): Node
    requires n.role != Leader
  {
    Reset(n, n.term + 1).(vote := n.id, role := Candidate)
  }

  function BecomePreCandidate(n: Node): Node
    requires n.role != Leader
  {
    n.(votes := map[], lead := NONE, role := PreCandidate)
  }

  function TakeOffice(n: Node): Node
    requires Member(n)
  {
    var a := Reset(n, n.term).(lead := n.id, role := Leader);
    a.(prs := a.prs[n.id := BecomeReplicate(a.prs[n.id])])
  }

  /** A leader starts its term with an empty entry of its own. */
  ghost function BecomeLeader(n: Node): Node
    requires n.role != Follower && Member(n)
  {
    AppendEntry(TakeOffice(n), [""])
  }

  /** The first answer of a voter counts. */
  function Poll(n: Node, id: Id, granted: bool): Node {
    if id in n.votes then n else n.(votes := n.votes[id := granted])
  }

  function Granted(n: Node): set<Id> { set j | j in n.votes && n.votes[j] }

  datatype CampaignType = PreElection | Election | Transfer

  ghost function Campaign(w: Work, t: CampaignType): Work
    requires Member(w.n) && w.n.role != Leader
    decreases t.PreElection?
  {
    if t.PreElection? then
      var n := Poll(BecomePreCandidate(w.n), w.n.id, true);
      if QuorumSize(n) == |Granted(n)| then Campaign(w.(n := n), Election)
      else Work(n, w.out + set j | j in n.prs && j != n.id ::
                     MsgPreVote(n.term + 1, n.id, j, |n.log|, LastTerm(n.log)))
    else
      var n := Poll(BecomeCandidate(w.n), w.n.id, true);
      if QuorumSize(n) == |Granted(n)| then w.(n := BecomeLeader(n))
      else Work(n, w.out + set j | j in n.prs && j != n.id ::
                     MsgVote(n.term, n.id, j, |n.log|, LastTerm(n.log), t.Transfer?))
  }

  // ---------------------------------------------------------------- read-index queue (raft/read_only.go)

  function AddRead(pending: seq<PendingRead>, index: nat, from: Id, ctx: Ctx): seq<PendingRead> {
    if exists k :: 0 <= k < |pending| && pending[k].ctx == ctx then pending
    else pending + [PendingRead(ctx, from, index, {})]
  }

  /** Position of the request with this context, or |pending|. */
  function FindRead(pending: seq<PendingRead>, ctx: Ctx): (k: nat)
    ensures k <= |pending|
    ensures k < |pending| ==> pending[k].ctx == ctx
    ensures forall l | 0 <= l < k :: pending[l].ctx != ctx
  {
    if pending == [] || pending[0].ctx == ctx then 0 else 1 + FindRead(pending[1..], ctx)
  }

  /** An acknowledgement is recorded for the request it names. */
  function AckRead(pending: seq<PendingRead>, ctx: Ctx, from: Id): seq<PendingRead> {
    var k := FindRead(pending, ctx);
    if k == |pending| then pending else pending[k := pending[k].(acks := pending[k].acks + {from})]
  }

  /** A request of this node, or of a client of this node. */
  predicate IsLocalRead(n: Node, from: Id) { from == NONE || from == n.id }

  /** Answers a request: locally through readStates, otherwise by message. */
  function ReleaseRead(w: Work, r: PendingRead): Work {
    if IsLocalRead(w.n, r.from) then w.(n := w.n.(readStates := w.n.readStates + [ReadState(r.index, r.ctx)]))
    else w.Sending(MsgReadIndexResp(w.n.term, w.n.id, r.from, r.index, r.ctx))
  }

  function ReleaseReads(w: Work, rs: seq<PendingRead>): Work
    decreases |rs|
  {
    if rs == [] then w else ReleaseReads(ReleaseRead(w, rs[0]), rs[1..])
  }

  // ---------------------------------------------------------------- follower handlers (raft/raft.go:1350-1369)

  /** commitTo never lowers the commit index and panics past the end of the log: raft/log.go:202-210. */
  function CommitTo(n: Node, c: nat, out: set<Msg>): Outcome {
    if n.committed < c then
      if |n.log| < c then Panic else Done(Work(n.(committed := c), out))
    else Done(Work(n, out))
  }

  /** maybeAppend's arguments are real entries and a previous position inside the log. */
  predicate WellFormedAppend(n: Node, m: Msg)
    requires m.MsgApp?
  {
    Contiguous(m.entries, m.index + 1) && m.index <= |n.log|
  }

  function HandleAppend(n: Node, m: Msg): Outcome
    requires m.MsgApp?
  {
    var l := Plain(n.log);
    var last := m.index + |m.entries|;
    if m.index < n.committed then
      Done(Work(n, {MsgAppResp(n.term, n.id, m.from, n.committed, false, 0)}))
    else if !l.MatchTerm(m.index, m.logTerm) then
      Done(Work(n, {MsgAppResp(n.term, n.id, m.from, m.index, true, |n.log|)}))
    else if !WellFormedAppend(n, m) then Panic
    else
      var ci := FindConflict(l, m.entries);
      if 0 < ci <= n.committed then Panic
      else CommitTo(n.(log := Merged(l, m.index, m.entries).ents), Min(m.commit, last),
                    {MsgAppResp(n.term, n.id, m.from, last, false, 0)})
  }

  function HandleHeartbeat(n: Node, m: Msg): Outcome
    requires m.MsgHeartbeat?
  {
    CommitTo(n, m.commit, {MsgHeartbeatResp(n.term, n.id, m.from, m.ctx)})
  }

  // ---------------------------------------------------------------- leader handlers (raft/raft.go:1007-1234)

  function SetProgress(n: Node, j: Id, pr: Progress): Node { n.(prs := n.prs[j := pr]) }

  ghost function LeaderAppResp(cfg: Config, n: Node, m: Msg): Work
    requires m.MsgAppResp? && m.from in n.prs && Member(n)
  {
    var pr := n.prs[m.from].(recentActive := true);
    if m.reject then
      var (pr', decreased) := MaybeDecrTo(pr, m.index, m.rejectHint);
      if !decreased then Work(SetProgress(n, m.from, pr'), {})
      else
        var pr'' := if pr'.state == Replicate then BecomeProbe(pr') else pr';
        SendAppend(cfg, Work(SetProgress(n, m.from, pr''), {}), m.from, true)
    else
      var oldPaused := IsPaused(cfg, pr);
      var pr' := MaybeUpdate(pr, m.index);
      if pr.matched >= m.index then Work(SetProgress(n, m.from, pr'), {})
      else
        var pr'' := if pr'.state == Probe then BecomeReplicate(pr') else pr'.(ins := FreeTo(pr'.ins, m.index));
        LeaderMatched(cfg, SetProgress(n, m.from, pr''), m.from, oldPaused)
  }

  ghost function CommitAndSend(cfg: Config, n: Node, from: Id, oldPaused: bool): Work
    requires from in n.prs && Member(n)
  {
    var (n', moved) := MaybeCommit(n);
    if moved then BcastAppend(cfg, Work(n', {}))
    else if oldPaused then SendAppend(cfg, Work(n', {}), from, true)
    else Work(n', {})
  }

  /** After the match of `from` moved: commit, send, and finish a leader transfer. */
  ghost function LeaderMatched(cfg: Config, n: Node, from: Id, oldPaused: bool): Work
    requires from in n.prs && Member(n)
  {
    var w' := SendAll(cfg, CommitAndSend(cfg, n, from, oldPaused), from);
    if from == n.transferee && from in w'.n.prs && w'.n.prs[from].matched == |n.log|
    then w'.Sending(MsgTimeoutNow(n.term, n.id, from))
    else w'
  }

  ghost function LeaderHeartbeatResp(cfg: Config, n: Node, m: Msg): Work
    requires m.MsgHeartbeatResp? && m.from in n.prs && Member(n)
  {
    var pr := n.prs[m.from].(recentActive := true, paused := false);
    var pr' := if pr.state == Replicate && pr.ins != [] && |pr.ins| == cfg.maxInflight
               then pr.(ins := FreeTo(pr.ins, pr.ins[0])) else pr;
    var w := Work(SetProgress(n, m.from, pr'), {});
    var w' := if pr'.matched < |n.log| then SendAppend(cfg, w, m.from, true) else w;
    if cfg.leaseRead || m.ctx == "" then w' else LeaderAckRead(w', m.from, m.ctx)
  }

  /** Counts an acknowledgement and releases every request up to the one it confirms. */
  ghost function LeaderAckRead(w: Work, from: Id, ctx: Ctx): Work {
    var pending := AckRead(w.n.pending, ctx, from);
    var k := FindRead(pending, ctx);
    var n := w.n.(pending := pending);
    if k == |pending| || |pending[k].acks| + 1 < QuorumSize(n) then w.(n := n)
    else ReleaseReads(w.(n := n.(pending := pending[k + 1..])), pending[..k + 1])
  }

  ghost function LeaderReadIndex(cfg: Config, n: Node, m: Msg): Work
    requires m.MsgReadIndex?
  {
    var w := Work(n, {});
    if QuorumSize(n) <= 1 then ReleaseRead(w, PendingRead(m.ctx, m.from, n.committed, {}))
    else if TermAt(n.log, n.committed) != n.term then w
    else if cfg.leaseRead then ReleaseRead(w, PendingRead(m.ctx, m.from, n.committed, {}))
    else BcastHeartbeat(Work(n.(pending := AddRead(n.pending, n.committed, m.from, m.ctx)), {}), m.ctx)
  }

  function LeaderTransfer(cfg: Config, n: Node, m: Msg): Work
    requires m.MsgTransferLeader? && m.from in n.prs
  {
    if n.transferee == m.from && n.transferee != NONE then Work(n, {})
    else
      var n' := n.(transferee := NONE);
      if m.from == n.id then Work(n', {})
      else
        var n'' := n'.(elapsed := 0, transferee := m.from);
        if n.prs[m.from].matched == |n.log| then Work(n'', {MsgTimeoutNow(n.term, n.id, m.from)})
        else SendAppend(cfg, Work(n'', {}), m.from, true)
  }

  function ActiveVoters(n: Node): set<Id> { set j | j in n.prs && (j == n.id || n.prs[j].recentActive) }

  function CheckQuorum(n: Node): Node {
    var n' := n.(prs := map j | j in n.prs :: if j == n.id then n.prs[j] else n.prs[j].(recentActive := false));
    if |ActiveVoters(n)| >= QuorumSize(n) then n' else BecomeFollower(n', n.term, NONE)
  }

  ghost function StepLeader(cfg: Config, n: Node, m: Msg): Outcome
    requires Member(n)
  {
    var w := Work(n, {});
    match m
    case MsgBeat =>
      Done(BcastHeartbeat(w, if n.pending == [] then "" else n.pending[|n.pending| - 1].ctx))
    case MsgCheckQuorum => Done(w.(n := CheckQuorum(n)))
    case MsgProp(_, _, payload) =>
      if payload == [] then Panic
      else if n.transferee != NONE then Done(w)
      else Done(BcastAppend(cfg, w.(n := AppendEntry(n, payload))))
    case MsgReadIndex(_, _, _) => Done(LeaderReadIndex(cfg, n, m))
    case MsgAppResp(_, from, _, _, _, _) => Done(if from in n.prs then LeaderAppResp(cfg, n, m) else w)
    case MsgHeartbeatResp(_, from, _, _) => Done(if from in n.prs then LeaderHeartbeatResp(cfg, n, m) else w)
    case MsgUnreachable(from) =>
      Done(if from in n.prs && n.prs[from].state == Replicate
           then w.(n := SetProgress(n, from, BecomeProbe(n.prs[from]))) else w)
    case MsgTransferLeader(_, from, _) => Done(if from in n.prs then LeaderTransfer(cfg, n, m) else w)
    case _ => Done(w)
  }

  // ---------------------------------------------------------------- candidate and follower (raft/raft.go:1238-1348)

  ghost function AfterPoll(cfg: Config, n: Node): Work
    requires Member(n) && (n.role == Candidate || n.role == PreCandidate)
  {
    var gr := |Granted(n)|;
    if gr == QuorumSize(n) then
      if n.role == PreCandidate then Campaign(Work(n, {}), Election)
      else BcastAppend(cfg, Work(BecomeLeader(n), {}))
    else if |n.votes| - gr == QuorumSize(n) then Work(BecomeFollower(n, n.term, NONE), {})
    else Work(n, {})
  }

  ghost function CandidateVoteResp(cfg: Config, n: Node, from: Id, granted: bool): Work
    requires Member(n) && (n.role == Candidate || n.role == PreCandidate)
  {
    AfterPoll(cfg, Poll(n, from, granted))
  }

  ghost function StepCandidate(cfg: Config, n: Node, m: Msg): Outcome
    requires Member(n) && (n.role == Candidate || n.role == PreCandidate)
  {
    var w := Work(n, {});
    match m
    case MsgApp(term, from, _, _, _, _, _) => HandleAppend(BecomeFollower(n, term, from), m)
    case MsgHeartbeat(term, from, _, _, _) => HandleHeartbeat(BecomeFollower(n, term, from), m)
    case MsgVoteResp(_, from, _, reject) =>
      Done(if n.role == Candidate then CandidateVoteResp(cfg, n, from, !reject) else w)
    case MsgPreVoteResp(_, from, _, reject) =>
      Done(if n.role == PreCandidate then CandidateVoteResp(cfg, n, from, !reject) else w)
    case _ => Done(w)
  }

  ghost function StepFollower(cfg: Config, n: Node, m: Msg): Outcome
    requires Member(n) && n.role == Follower
  {
    var w := Work(n, {});
    match m
    case MsgProp(_, _, payload) =>
      Done(if n.lead == NONE || cfg.noForwarding then w else w.Sending(MsgProp(n.id, n.lead, payload)))
    case MsgApp(_, from, _, _, _, _, _) => HandleAppend(n.(elapsed := 0, lead := from), m)
    case MsgHeartbeat(_, from, _, _, _) => HandleHeartbeat(n.(elapsed := 0, lead := from), m)
    case MsgTransferLeader(term, _, _) =>
      if n.lead == NONE then Done(w)
      else if term != 0 then Panic   // send refuses a message that already carries a term
      else Done(w.Sending(MsgTransferLeader(n.term, n.id, n.lead)))
    case MsgTimeoutNow(_, _, _) => Done(Campaign(w, Transfer))
    case MsgReadIndex(_, _, ctx) =>
      Done(if n.lead == NONE then w else w.Sending(MsgReadIndex(n.id, n.lead, ctx)))
    case MsgReadIndexResp(_, _, _, index, ctx) =>
      Done(w.(n := n.(readStates := n.readStates + [ReadState(index, ctx)])))
    case _ => Done(w)
  }

  // ---------------------------------------------------------------- Step (raft/raft.go:859-1002)

  /** 0 for messages that carry no term. */
  function TermOf(m: Msg): nat {
    if Termless(m) then 0 else m.term
  }

  predicate IsUpToDate(n: Node, index: nat, logTerm: nat) {
    logTerm > LastTerm(n.log) || (logTerm == LastTerm(n.log) && index >= |n.log|)
  }

  function HandleVote(n: Node, m: Msg): Work
    requires m.MsgVote?
  {
    if (n.vote == m.from || (n.vote == NONE && n.lead == NONE)) && IsUpToDate(n, m.index, m.logTerm) then
      Work(n.(elapsed := 0, vote := m.from), {MsgVoteResp(m.term, n.id, m.from, false)})
    else
      Work(n, {MsgVoteResp(n.term, n.id, m.from, true)})
  }

  function HandlePreVote(n: Node, m: Msg): Work
    requires m.MsgPreVote?
  {
    if (n.vote == m.from || (n.vote == NONE && n.lead == NONE) || m.term > n.term) && IsUpToDate(n, m.index, m.logTerm)
    then Work(n, {MsgPreVoteResp(m.term, n.id, m.from, false)})
    else Work(n, {MsgPreVoteResp(n.term, n.id, m.from, true)})
  }

  ghost function Dispatch(cfg: Config, n: Node, m: Msg): Outcome
    requires Member(n)
  {
    match m
    case MsgHup =>
      Done(if n.role == Leader then Work(n, {})
           else Campaign(Work(n, {}), if cfg.preVote then PreElection else Election))
    case MsgVote(_, _, _, _, _, _) => Done(HandleVote(n, m))
    case MsgPreVote(_, _, _, _, _) => Done(HandlePreVote(n, m))
    case _ =>
      match n.role
      case Leader => StepLeader(cfg, n, m)
      case Follower => StepFollower(cfg, n, m)
      case _ => StepCandidate(cfg, n, m)
  }

  /** Within the lease of a known leader a vote request is ignored, unless it is a leader transfer. */
  predicate IgnoredInLease(cfg: Config, n: Node, m: Msg) {
    && ((m.MsgVote? && !m.transfer) || m.MsgPreVote?)
    && cfg.checkQuorum && n.lead != NONE && n.elapsed < cfg.electionTimeout
  }

  ghost function Step(cfg: Config, n: Node, m: Msg): Outcome
    requires Member(n)
  {
    var term := TermOf(m);
    if term == 0 || term == n.term then Dispatch(cfg, n, m)
    else if term > n.term then
      if IgnoredInLease(cfg, n, m) then Done(Work(n, {}))
      else if m.MsgPreVote? || (m.MsgPreVoteResp? && !m.reject) then Dispatch(cfg, n, m)
      else Dispatch(cfg, BecomeFollower(n, term, if m.MsgApp? || m.MsgHeartbeat? then m.from else NONE), m)
    else if (cfg.checkQuorum || cfg.preVote) && (m.MsgHeartbeat? || m.MsgApp?) then
      Done(Work(n, {MsgAppResp(n.term, n.id, m.from, 0, false, 0)}))
    else if m.MsgPreVote? then
      Done(Work(n, {MsgPreVoteResp(n.term, n.id, m.from, true)}))
    else Done(Work(n, {}))
  }
}
