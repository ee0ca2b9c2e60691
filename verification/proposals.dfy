/** What becomes of a proposal: a leader appends its data, in order, under its own term and the next
    positions; and no log of any run holds data that nobody proposed. */
module Proposals {
  import opened RaftTypes
  import opened Logs
  import opened RaftNode
  import SizeLimit
  import FlowControl
  import opened Refinement
  import opened Cluster

  // ---------------------------------------------------------------- one step

  /** The log grew by exactly this data, as entries of this term. */
  ghost predicate Appended(log: seq<Entry>, term: nat, data: seq<string>, log': seq<Entry>) {
    && |log'| == |log| + |data| && log <= log'
    && forall x: nat | x < |data| :: log'[|log| + x] == Entry(|log| + x + 1, term, data[x])
  }

  lemma AppendEntryAppends(n: Node, data: seq<string>)
    requires Member(n)
    ensures Appended(n.log, n.term, data, AppendEntry(n, data).log)
    ensures AppendEntry(n, data).term == n.term && AppendEntry(n, data).role == n.role && AppendEntry(n, data).id == n.id
  {
    var log := AppendEntry(n, data).log;
    assert log[..|n.log|] == n.log;
  }

  /** A leader that is not handing over takes the proposal into its log. */
  lemma LeaderTakesProposal(cfg: Config, n: Node, from: Id, to: Id, data: seq<string>)
    requires Member(n) && n.role == Leader && data != []
    ensures var o := Step(cfg, n, MsgProp(from, to, data));
            && o.Done? && o.value.n.role == Leader && o.value.n.term == n.term
            && if n.transferee == NONE then Appended(n.log, n.term, data, o.value.n.log)
               else o.value == Work(n, {})
  {
    hide AppendEntry;
    AppendEntryAppends(n, data);
  }

  /** A follower passes it on unchanged to the leader it knows, and otherwise drops it, as a candidate does. */
  lemma OthersForwardProposal(cfg: Config, n: Node, from: Id, to: Id, data: seq<string>)
    requires Member(n) && n.role != Leader
    ensures var o := Step(cfg, n, MsgProp(from, to, data));
            && o.Done? && o.value.n == n
            && o.value.out == if n.role == Follower && n.lead != NONE && !cfg.noForwarding then {MsgProp(n.id, n.lead, data)} else {}
  {
  }

  /** A new leader starts its term with one empty entry. */
  lemma LeaderStartsEmpty(n: Node)
    requires Member(n) && n.role != Follower
    ensures Appended(n.log, n.term, [""], BecomeLeader(n).log) && BecomeLeader(n).role == Leader
  {
    hide AppendEntry;
    AppendEntryAppends(TakeOffice(n), [""]);
  }

  // ---------------------------------------------------------------- where entries come from

  /** All entries of the node and of the appends it sends are good; a proposal it sends is the one it was given. */
  ghost predicate Clean(ok: Entry -> bool, given: Msg, w: Work) {
    && AllOk(ok, w.n.log)
    && forall m | m in w.out :: Passes(ok, given, m)
  }

  ghost predicate Passes(ok: Entry -> bool, given: Msg, m: Msg) {
    && (m.MsgApp? ==> AllOk(ok, m.entries))
    && (m.MsgProp? ==> given.MsgProp? && m.payload == given.payload)
  }

  ghost predicate AllOk(ok: Entry -> bool, es: seq<Entry>) { forall k | 0 <= k < |es| :: ok(es[k]) }

  /** Every entry with this data is good. */
  ghost predicate Allows(ok: Entry -> bool, data: seq<string>) { forall e: Entry | e.data in data :: ok(e) }

  lemma OutPasses(ok: Entry -> bool, given: Msg, w: Work, m: Msg)
    requires Clean(ok, given, w) && Passes(ok, given, m)
    ensures Clean(ok, given, w.Sending(m))
  {
  }

  lemma {:induction false} LimitedIsClean(size: Entry -> nat, ok: Entry -> bool, es: seq<Entry>, max: nat)
    requires AllOk(ok, es)
    ensures AllOk(ok, SizeLimit.LimitSize(size, es, max))
  {
    SizeLimit.LimitSizeIsPrefix(size, es, max);
  }

  lemma AppendMsgPasses(cfg: Config, ok: Entry -> bool, given: Msg, n: Node, to: Id, pr: Progress)
    requires AllOk(ok, n.log)
    ensures Passes(ok, given, AppendMsg(cfg, n, to, pr))
  {
    if pr.next <= |n.log| {
      assert AllOk(ok, n.log[pr.next - 1..]);
      LimitedIsClean(cfg.size, ok, n.log[pr.next - 1..], cfg.maxMsgSize);
    }
  }

  lemma SendAppendClean(cfg: Config, ok: Entry -> bool, given: Msg, w: Work, to: Id, sendIfEmpty: bool)
    requires Clean(ok, given, w) && to in w.n.prs
    ensures Clean(ok, given, SendAppend(cfg, w, to, sendIfEmpty))
  {
    hide AppendMsg, Passes;
    AppendMsgPasses(cfg, ok, given, w.n, to, w.n.prs[to]);
  }

  lemma BcastAppendClean(cfg: Config, ok: Entry -> bool, given: Msg, w: Work)
    requires Clean(ok, given, w)
    ensures Clean(ok, given, BcastAppend(cfg, w))
  {
    hide AppendMsg, Passes, Sends, AfterSend;
    forall j | j in w.n.prs ensures Passes(ok, given, AppendMsg(cfg, w.n, j, w.n.prs[j])) {
      AppendMsgPasses(cfg, ok, given, w.n, j, w.n.prs[j]);
    }
  }

  lemma {:induction false} SendAllClean(cfg: Config, ok: Entry -> bool, given: Msg, w: Work, to: Id)
    requires Clean(ok, given, w) && to in w.n.prs
    ensures Clean(ok, given, SendAll(cfg, w, to))
    decreases |w.n.log| + 1 - w.n.prs[to].next, if w.n.prs[to].paused then 0 else 1
  {
    hide Clean;
    if Sends(cfg, w.n, w.n.prs[to], false) {
      SendAppendClean(cfg, ok, given, w, to, false);
      SendAllClean(cfg, ok, given, SendAppend(cfg, w, to, false), to);
    }
  }

  lemma AppendEntryClean(ok: Entry -> bool, n: Node, data: seq<string>)
    requires Member(n) && AllOk(ok, n.log) && Allows(ok, data)
    ensures AllOk(ok, AppendEntry(n, data).log)
  {
    AppendEntryAppends(n, data);
    hide AppendEntry;
    var log := AppendEntry(n, data).log;
    forall k | 0 <= k < |log| ensures ok(log[k]) {
      if k >= |n.log| {
        var x: nat := k - |n.log|;
        assert log[|n.log| + x].data in data;
      }
    }
  }

  lemma BecomeLeaderClean(ok: Entry -> bool, n: Node)
    requires Member(n) && n.role != Follower && AllOk(ok, n.log) && Allows(ok, [""])
    ensures AllOk(ok, BecomeLeader(n).log)
  {
    AppendEntryClean(ok, TakeOffice(n), [""]);
  }

  lemma CampaignClean(ok: Entry -> bool, given: Msg, w: Work, t: CampaignType)
    requires Clean(ok, given, w) && Member(w.n) && w.n.role != Leader && Allows(ok, [""])
    ensures Clean(ok, given, Campaign(w, t))
    decreases t.PreElection?
  {
    hide BecomeLeader, AllOk, Allows;
    if t.PreElection? {
      CampaignClean(ok, given, w.(n := Poll(BecomePreCandidate(w.n), w.n.id, true)), Election);
    } else {
      BecomeLeaderClean(ok, Poll(BecomeCandidate(w.n), w.n.id, true));
    }
  }

  lemma HandleAppendClean(ok: Entry -> bool, given: Msg, n: Node, m: Msg)
    requires AllOk(ok, n.log) && m.MsgApp? && AllOk(ok, m.entries)
    ensures HandleAppend(n, m).Done? ==> Clean(ok, given, HandleAppend(n, m).value)
  {
    hide FindConflict;
    if HandleAppend(n, m).Done? && m.index >= n.committed && Plain(n.log).MatchTerm(m.index, m.logTerm) {
      MergeClean(ok, n.log, m.index, m.entries);
      hide Merged;
    }
  }

  lemma MergeClean(ok: Entry -> bool, log: seq<Entry>, index: nat, es: seq<Entry>)
    requires AllOk(ok, log) && AllOk(ok, es) && Contiguous(es, index + 1) && index <= |log|
    ensures AllOk(ok, Merged(Plain(log), index, es).ents)
  {
    ConflictIsFirst(Plain(log), index, es);
  }

  // ---------------------------------------------------------------- the leader

  lemma CommitAndSendClean(cfg: Config, ok: Entry -> bool, given: Msg, n: Node, from: Id, oldPaused: bool)
    requires AllOk(ok, n.log) && from in n.prs && Member(n)
    ensures Clean(ok, given, CommitAndSend(cfg, n, from, oldPaused)) && from in CommitAndSend(cfg, n, from, oldPaused).n.prs
  {
    hide SendAppend, AllOk, Passes;
    var n' := MaybeCommit(n).0;
    assert n'.log == n.log && n'.prs == n.prs;
    assert Clean(ok, given, Work(n', {}));
    BcastAppendClean(cfg, ok, given, Work(n', {}));
    SendAppendClean(cfg, ok, given, Work(n', {}), from, true);
    FlowControl.SendAppendKeys(cfg, Work(n', {}), from);
  }

  lemma LeaderMatchedClean(cfg: Config, ok: Entry -> bool, given: Msg, n: Node, from: Id, oldPaused: bool)
    requires AllOk(ok, n.log) && from in n.prs && Member(n)
    ensures Clean(ok, given, LeaderMatched(cfg, n, from, oldPaused))
  {
    hide CommitAndSend, SendAll, Clean, AllOk;
    CommitAndSendClean(cfg, ok, given, n, from, oldPaused);
    SendAllClean(cfg, ok, given, CommitAndSend(cfg, n, from, oldPaused), from);
    OutPasses(ok, given, SendAll(cfg, CommitAndSend(cfg, n, from, oldPaused), from), MsgTimeoutNow(n.term, n.id, from));
  }

  lemma LeaderAppRespClean(cfg: Config, ok: Entry -> bool, given: Msg, n: Node, m: Msg)
    requires AllOk(ok, n.log) && m.MsgAppResp? && m.from in n.prs && Member(n)
    ensures Clean(ok, given, LeaderAppResp(cfg, n, m))
  {
    hide SendAppend, LeaderMatched, FreeTo, AllOk;
    var pr := n.prs[m.from].(recentActive := true);
    if m.reject {
      var (pr', decreased) := MaybeDecrTo(pr, m.index, m.rejectHint);
      var pr'' := if pr'.state == Replicate then BecomeProbe(pr') else pr';
      SendAppendClean(cfg, ok, given, Work(SetProgress(n, m.from, pr''), {}), m.from, true);
    } else {
      var pr' := MaybeUpdate(pr, m.index);
      var pr'' := if pr'.state == Probe then BecomeReplicate(pr') else pr'.(ins := FreeTo(pr'.ins, m.index));
      LeaderMatchedClean(cfg, ok, given, SetProgress(n, m.from, pr''), m.from, IsPaused(cfg, pr));
    }
  }

  lemma {:induction false} ReleaseClean(ok: Entry -> bool, given: Msg, w: Work, rs: seq<PendingRead>)
    requires Clean(ok, given, w)
    ensures Clean(ok, given, ReleaseReads(w, rs))
    decreases |rs|
  {
    if rs != [] { ReleaseClean(ok, given, ReleaseRead(w, rs[0]), rs[1..]); }
  }

  lemma AckReadClean(ok: Entry -> bool, given: Msg, w: Work, from: Id, ctx: Ctx)
    requires Clean(ok, given, w)
    ensures Clean(ok, given, LeaderAckRead(w, from, ctx))
  {
    hide ReleaseReads, AckRead, FindRead;
    var pending := AckRead(w.n.pending, ctx, from);
    var k := FindRead(pending, ctx);
    if k < |pending| { ReleaseClean(ok, given, w.(n := w.n.(pending := pending[k + 1..])), pending[..k + 1]); }
  }

  lemma LeaderHeartbeatRespClean(cfg: Config, ok: Entry -> bool, given: Msg, n: Node, m: Msg)
    requires AllOk(ok, n.log) && m.MsgHeartbeatResp? && m.from in n.prs && Member(n)
    ensures Clean(ok, given, LeaderHeartbeatResp(cfg, n, m))
  {
    hide SendAppend, FreeTo, LeaderAckRead, AllOk;
    var pr := n.prs[m.from].(recentActive := true, paused := false);
    var pr' := if pr.state == Replicate && pr.ins != [] && |pr.ins| == cfg.maxInflight
               then pr.(ins := FreeTo(pr.ins, pr.ins[0])) else pr;
    var w := Work(SetProgress(n, m.from, pr'), {});
    SendAppendClean(cfg, ok, given, w, m.from, true);
    var w' := if pr'.matched < |n.log| then SendAppend(cfg, w, m.from, true) else w;
    AckReadClean(ok, given, w', m.from, m.ctx);
  }

  lemma StepLeaderClean(cfg: Config, ok: Entry -> bool, n: Node, m: Msg)
    requires AllOk(ok, n.log) && Member(n) && (m.MsgProp? ==> Allows(ok, m.payload))
    ensures StepLeader(cfg, n, m).Done? ==> Clean(ok, m, StepLeader(cfg, n, m).value)
  {
    hide LeaderAppResp, LeaderHeartbeatResp, AppendEntry, BcastAppend, SendAppend, AllOk, Allows;
    match m {
      case MsgProp(_, _, payload) =>
        AppendEntryClean(ok, n, payload);
        BcastAppendClean(cfg, ok, m, Work(AppendEntry(n, payload), {}));
      case MsgAppResp(_, from, _, _, _, _) => if from in n.prs { LeaderAppRespClean(cfg, ok, m, n, m); }
      case MsgHeartbeatResp(_, from, _, _) => if from in n.prs { LeaderHeartbeatRespClean(cfg, ok, m, n, m); }
      case MsgTransferLeader(_, from, _) =>
        if from in n.prs { SendAppendClean(cfg, ok, m, Work(n.(elapsed := 0, transferee := from), {}), from, true); }
      case _ =>
    }
  }

  // ---------------------------------------------------------------- the others

  lemma VoteRespClean(cfg: Config, ok: Entry -> bool, given: Msg, n: Node, from: Id, granted: bool)
    requires AllOk(ok, n.log) && Member(n) && (n.role == Candidate || n.role == PreCandidate) && Allows(ok, [""])
    ensures Clean(ok, given, CandidateVoteResp(cfg, n, from, granted))
  {
    hide AfterPoll, AllOk, Allows;
    AfterPollClean(cfg, ok, given, Poll(n, from, granted));
  }

  lemma AfterPollClean(cfg: Config, ok: Entry -> bool, given: Msg, n: Node)
    requires AllOk(ok, n.log) && Member(n) && (n.role == Candidate || n.role == PreCandidate) && Allows(ok, [""])
    ensures Clean(ok, given, AfterPoll(cfg, n))
  {
    hide BecomeLeader, BcastAppend, Campaign, AllOk, Allows, Passes, Granted, QuorumSize, Reset;
    CampaignClean(ok, given, Work(n, {}), Election);
    BecomeLeaderClean(ok, n);
    BcastAppendClean(cfg, ok, given, Work(BecomeLeader(n), {}));
    ResetKeepsLog(n, n.term);
  }

  lemma ResetKeepsLog(n: Node, term: nat)
    ensures Reset(n, term).log == n.log
  {
  }

  lemma StepOthersClean(cfg: Config, ok: Entry -> bool, n: Node, m: Msg)
    requires AllOk(ok, n.log) && Member(n) && Allows(ok, [""]) && (m.MsgApp? ==> AllOk(ok, m.entries))
    ensures n.role == Follower && StepFollower(cfg, n, m).Done? ==> Clean(ok, m, StepFollower(cfg, n, m).value)
    ensures n.role in {Candidate, PreCandidate} && StepCandidate(cfg, n, m).Done? ==>
              Clean(ok, m, StepCandidate(cfg, n, m).value)
  {
    hide Campaign, CandidateVoteResp, HandleAppend, AllOk, Allows;
    if m.MsgApp? {
      HandleAppendClean(ok, m, n.(elapsed := 0, lead := m.from), m);
      HandleAppendClean(ok, m, BecomeFollower(n, m.term, m.from), m);
    }
    if n.role == Follower { CampaignClean(ok, m, Work(n, {}), Transfer); }
    if n.role in {Candidate, PreCandidate} {
      if m.MsgVoteResp? || m.MsgPreVoteResp? { VoteRespClean(cfg, ok, m, n, m.from, !m.reject); }
    }
  }

  lemma DispatchClean(cfg: Config, ok: Entry -> bool, n: Node, m: Msg)
    requires AllOk(ok, n.log) && Member(n) && Allows(ok, [""])
    requires (m.MsgApp? ==> AllOk(ok, m.entries)) && (m.MsgProp? ==> Allows(ok, m.payload))
    ensures Dispatch(cfg, n, m).Done? ==> Clean(ok, m, Dispatch(cfg, n, m).value)
  {
    hide Campaign, StepLeader, StepFollower, StepCandidate, AllOk, Allows;
    if n.role == Leader {
      StepLeaderClean(cfg, ok, n, m);
    } else {
      StepOthersClean(cfg, ok, n, m);
      CampaignClean(ok, m, Work(n, {}), if cfg.preVote then PreElection else Election);
    }
  }

  lemma StepClean(cfg: Config, ok: Entry -> bool, n: Node, m: Msg)
    requires AllOk(ok, n.log) && Member(n) && Allows(ok, [""])
    requires (m.MsgApp? ==> AllOk(ok, m.entries)) && (m.MsgProp? ==> Allows(ok, m.payload))
    ensures Step(cfg, n, m).Done? ==> Clean(ok, m, Step(cfg, n, m).value)
  {
    hide Dispatch, AllOk, Allows;
    DispatchClean(cfg, ok, n, m);
    if TermOf(m) > n.term {
      DispatchClean(cfg, ok, BecomeFollower(n, TermOf(m), if m.MsgApp? || m.MsgHeartbeat? then m.from else NONE), m);
    }
  }

  // ---------------------------------------------------------------- every run

  /** Between moments y and y + 1 of the run a client proposed this data at some node. */
  ghost predicate Proposed(cfg: Config, b: seq<Cluster>, y: int, data: string) {
    0 <= y < |b| - 1 && ProposedIn(cfg, b[y], b[y + 1], data)
  }

  ghost predicate ProposedIn(cfg: Config, c: Cluster, c': Cluster, data: string) {
    exists i, m :: Proposes(cfg, c, c', i, m, data)
  }

  ghost predicate ProposedBefore(cfg: Config, b: seq<Cluster>, x: nat, data: string) {
    exists y :: y < x && Proposed(cfg, b, y, data)
  }

  ghost predicate Proposes(cfg: Config, c: Cluster, c': Cluster, i: Id, m: Msg, data: string) {
    Delivers(cfg, c, c', i, m) && IsLocal(m) && m.MsgProp? && data in m.payload
  }

  /** What clients have proposed up to moment x. */
  ghost function Known(cfg: Config, b: seq<Cluster>, x: nat): iset<string> {
    iset d: string | ProposedBefore(cfg, b, x, d)
  }

  ghost predicate Fine(boot: seq<Entry>, known: iset<string>, e: Entry) { e in boot || e.data == "" || e.data in known }

  ghost function Ok(boot: seq<Entry>, known: iset<string>): Entry -> bool { e => Fine(boot, known, e) }

  ghost predicate MsgKnown(ok: Entry -> bool, known: iset<string>, m: Msg) {
    && (m.MsgApp? ==> AllOk(ok, m.entries))
    && (m.MsgProp? ==> forall d | d in m.payload :: d in known)
  }

  ghost predicate AllKnown(boot: seq<Entry>, known: iset<string>, c: Cluster) {
    && (forall i | i in c.nodes :: AllOk(Ok(boot, known), c.nodes[i].log))
    && (forall m | m in c.net :: MsgKnown(Ok(boot, known), known, m))
  }

  lemma KnownGrows(boot: seq<Entry>, known: iset<string>, known': iset<string>, c: Cluster)
    requires AllKnown(boot, known, c) && known <= known'
    ensures AllKnown(boot, known', c)
  {
    forall i | i in c.nodes ensures AllOk(Ok(boot, known'), c.nodes[i].log) {
      assert AllOk(Ok(boot, known), c.nodes[i].log);
      OkGrows(boot, known, known', c.nodes[i].log);
    }
    forall m | m in c.net ensures MsgKnown(Ok(boot, known'), known', m) {
      assert MsgKnown(Ok(boot, known), known, m);
      if m.MsgApp? { OkGrows(boot, known, known', m.entries); }
    }
  }

  lemma OkGrows(boot: seq<Entry>, known: iset<string>, known': iset<string>, es: seq<Entry>)
    requires AllOk(Ok(boot, known), es) && known <= known'
    ensures AllOk(Ok(boot, known'), es)
  {
    forall k | 0 <= k < |es| ensures Ok(boot, known')(es[k]) { assert Ok(boot, known)(es[k]); }
  }

  lemma DeliveryKnown(cfg: Config, boot: seq<Entry>, known: iset<string>, c: Cluster, c': Cluster, i: Id, m: Msg)
    requires AllKnown(boot, known, c) && Delivers(cfg, c, c', i, m)
    requires m.MsgProp? && IsLocal(m) ==> forall d | d in m.payload :: d in known
    ensures AllKnown(boot, known, c')
  {
    hide Step, AllOk;
    var ok := Ok(boot, known);
    assert m in c.net ==> MsgKnown(ok, known, m);
    StepClean(cfg, ok, c.nodes[i], m);
    forall x | x in c'.net ensures MsgKnown(ok, known, x) {
      if x !in c.net { assert Passes(ok, m, x); }
    }
  }

  lemma NextKnown(cfg: Config, boot: seq<Entry>, known: iset<string>, c: Cluster, c': Cluster)
    requires AllKnown(boot, known, c) && Next(cfg, c, c')
    requires forall d | ProposedIn(cfg, c, c', d) :: d in known
    ensures AllKnown(boot, known, c')
  {
    hide Delivers, AllOk;
    if i :| Ticks(c, c', i) {
    } else if i :| Restarts(c, c', i) {
    } else if i, m :| Delivers(cfg, c, c', i, m) {
      if m.MsgProp? && IsLocal(m) {
        forall d | d in m.payload ensures d in known {
          assert Proposes(cfg, c, c', i, m, d);
          assert ProposedIn(cfg, c, c', d);
        }
      }
      DeliveryKnown(cfg, boot, known, c, c', i, m);
    }
  }

  lemma {:induction false} RunKnown(cfg: Config, boot: seq<Entry>, b: seq<Cluster>, x: nat)
    requires Run(cfg, boot, b) && x < |b|
    ensures AllKnown(boot, Known(cfg, b, x), b[x])
    decreases x
  {
    hide Next, AllKnown, ProposedIn;
    if x == 0 {
      BootKnown(cfg, boot, Known(cfg, b, 0), b[0]);
    } else {
      RunKnown(cfg, boot, b, x - 1);
      KnownGrows(boot, Known(cfg, b, x - 1), Known(cfg, b, x), b[x - 1]);
      assert Next(cfg, b[x - 1], b[x - 1 + 1]);
      var c, c' := b[x - 1], b[x];
      forall d | ProposedIn(cfg, c, c', d) ensures d in Known(cfg, b, x) {
        assert Proposed(cfg, b, x - 1, d);
      }
      NextKnown(cfg, boot, Known(cfg, b, x), c, c');
    }
  }

  lemma BootKnown(cfg: Config, boot: seq<Entry>, known: iset<string>, c: Cluster)
    requires Init(cfg, boot, c)
    ensures AllKnown(boot, known, c)
  {
    forall i | i in c.nodes ensures AllOk(Ok(boot, known), c.nodes[i].log) {
      assert c.nodes[i].log == boot;
    }
  }

  /** Nothing is made up: every entry of every log is a boot entry, a leader's empty entry, or holds
      data that a client has proposed before. */
  lemma Validity(cfg: Config, boot: seq<Entry>, b: seq<Cluster>, x: nat, i: Id, k: nat)
    requires Run(cfg, boot, b) && x < |b| && i in b[x].nodes && k < |b[x].nodes[i].log|
    ensures var e := b[x].nodes[i].log[k];
            e in boot || e.data == "" || ProposedBefore(cfg, b, x, e.data)
  {
    hide Run, ProposedBefore;
    RunKnown(cfg, boot, b, x);
    assert AllOk(Ok(boot, Known(cfg, b, x)), b[x].nodes[i].log);
    assert Fine(boot, Known(cfg, b, x), b[x].nodes[i].log[k]);
  }
}
