/** The flow-control window of a peer never overflows: raft/raft.go adds to it only when it is not
    full, so the panic in raft/progress.go:219-221 is unreachable. */
module FlowControl {
  import opened RaftTypes
  import opened Logs
  import opened RaftNode
  import opened Cluster

  /** raft/progress.go:123-134: an acknowledgement only ever moves a peer forward, and a new one
      lets a paused probe go on. */
  lemma UpdateAdvances(pr: Progress, i: nat)
    ensures var pr' := MaybeUpdate(pr, i);
            && pr'.matched == Max(pr.matched, i) && pr'.next == Max(pr.next, i + 1)
            && (pr'.paused <==> pr.paused && pr.matched >= i)
            && pr'.state == pr.state && pr'.ins == pr.ins
            && (pr.matched < pr.next ==> pr'.matched < pr'.next)
  {
  }

  /** raft/progress.go:136-162: a rejection counts exactly when it answers the append that is
      outstanding; it never takes back what matched, and every one that counts takes a probe
      strictly lower, to where the peer's log can reach, or to the first position. */
  lemma RejectionBacksOff(pr: Progress, rejected: nat, last: nat)
    ensures var (pr', current) := MaybeDecrTo(pr, rejected, last);
            && pr'.matched == pr.matched && pr'.state == pr.state && pr'.ins == pr.ins
            && (current <==> if pr.state == Replicate then pr.matched < rejected else pr.next == rejected + 1)
            && (!current ==> pr' == pr)
            && (current && pr.state == Replicate ==> pr'.next == pr.matched + 1)
            && (current && pr.state == Probe ==>
                  && !pr'.paused && pr'.next <= last + 1
                  && (pr'.next < pr.next || pr.next == 1))
  {
  }

  ghost predicate WindowsFit(cfg: Config, n: Node) {
    forall j | j in n.prs :: |n.prs[j].ins| <= cfg.maxInflight
  }

  /** Sending to a replicating peer finds room in its window. */
  lemma RoomWhenSending(cfg: Config, n: Node, pr: Progress, sendIfEmpty: bool)
    requires |pr.ins| <= cfg.maxInflight && Sends(cfg, n, pr, sendIfEmpty)
    ensures pr.state == Replicate ==> |pr.ins| < cfg.maxInflight
    ensures |AfterSend(cfg, n, pr).ins| <= cfg.maxInflight
  {
  }

  lemma SendAppendFits(cfg: Config, w: Work, to: Id, sendIfEmpty: bool)
    requires WindowsFit(cfg, w.n) && to in w.n.prs
    ensures WindowsFit(cfg, SendAppend(cfg, w, to, sendIfEmpty).n)
  {
    hide Sends, AfterSend;
    if Sends(cfg, w.n, w.n.prs[to], sendIfEmpty) { RoomWhenSending(cfg, w.n, w.n.prs[to], sendIfEmpty); }
  }

  lemma BcastAppendFits(cfg: Config, w: Work)
    requires WindowsFit(cfg, w.n)
    ensures WindowsFit(cfg, BcastAppend(cfg, w).n)
  {
    hide Sends, AfterSend;
    forall j | j in w.n.prs && Sends(cfg, w.n, w.n.prs[j], true) ensures |AfterSend(cfg, w.n, w.n.prs[j]).ins| <= cfg.maxInflight {
      RoomWhenSending(cfg, w.n, w.n.prs[j], true);
    }
  }

  lemma {:induction false} SendAllFits(cfg: Config, w: Work, to: Id)
    requires WindowsFit(cfg, w.n) && to in w.n.prs
    ensures WindowsFit(cfg, SendAll(cfg, w, to).n)
    decreases |w.n.log| + 1 - w.n.prs[to].next, if w.n.prs[to].paused then 0 else 1
  {
    if Sends(cfg, w.n, w.n.prs[to], false) {
      SendAppendFits(cfg, w, to, false);
      SendAllFits(cfg, SendAppend(cfg, w, to, false), to);
    }
  }

  lemma {:induction false} FreeToShrinks(ins: seq<nat>, to: nat)
    ensures |FreeTo(ins, to)| <= |ins|
  {
    if ins != [] && ins[0] <= to { FreeToShrinks(ins[1..], to); }
  }

  lemma ResetFits(cfg: Config, n: Node, term: nat)
    ensures WindowsFit(cfg, Reset(n, term))
  {
  }

  lemma AppendEntryFits(cfg: Config, n: Node, payload: seq<string>)
    requires WindowsFit(cfg, n) && Member(n)
    ensures WindowsFit(cfg, AppendEntry(n, payload))
  {
  }

  lemma BecomeLeaderFits(cfg: Config, n: Node)
    requires Member(n) && n.role != Follower
    ensures WindowsFit(cfg, BecomeLeader(n))
  {
    ResetFits(cfg, n, n.term);
    AppendEntryFits(cfg, TakeOffice(n), [""]);
  }

  lemma CampaignFits(cfg: Config, w: Work, t: CampaignType)
    requires WindowsFit(cfg, w.n) && Member(w.n) && w.n.role != Leader
    ensures WindowsFit(cfg, Campaign(w, t).n)
    decreases t.PreElection?
  {
    hide BecomeLeader, Reset;
    ResetFits(cfg, w.n, w.n.term + 1);
    if t.PreElection? {
      CampaignFits(cfg, w.(n := Poll(BecomePreCandidate(w.n), w.n.id, true)), Election);
    } else {
      CandidateIsMember(w.n);
      BecomeLeaderFits(cfg, Poll(BecomeCandidate(w.n), w.n.id, true));
    }
  }

  lemma CandidateIsMember(n: Node)
    requires Member(n) && n.role != Leader
    ensures Member(BecomeCandidate(n))
  {
  }

  lemma CommitAndSendFits(cfg: Config, n: Node, from: Id, oldPaused: bool)
    requires WindowsFit(cfg, n) && from in n.prs && Member(n)
    ensures WindowsFit(cfg, CommitAndSend(cfg, n, from, oldPaused).n) && from in CommitAndSend(cfg, n, from, oldPaused).n.prs
  {
    hide WindowsFit, SendAppend;
    var n' := MaybeCommit(n).0;
    assert WindowsFit(cfg, n') by { SamePrsFits(cfg, n, n'); }
    BcastAppendFits(cfg, Work(n', {}));
    SendAppendFits(cfg, Work(n', {}), from, true);
    SendAppendKeys(cfg, Work(n', {}), from);
  }

  lemma SendAppendKeys(cfg: Config, w: Work, to: Id)
    requires to in w.n.prs
    ensures to in SendAppend(cfg, w, to, true).n.prs
  {
  }

  lemma SamePrsFits(cfg: Config, n: Node, n': Node)
    requires WindowsFit(cfg, n) && n'.prs == n.prs
    ensures WindowsFit(cfg, n')
  {
  }

  lemma LeaderAppRespFits(cfg: Config, n: Node, m: Msg)
    requires WindowsFit(cfg, n) && m.MsgAppResp? && m.from in n.prs && Member(n)
    ensures WindowsFit(cfg, LeaderAppResp(cfg, n, m).n)
  {
    hide SendAppend, SendAll, CommitAndSend, FreeTo;
    var pr := n.prs[m.from].(recentActive := true);
    if m.reject {
      var (pr', decreased) := MaybeDecrTo(pr, m.index, m.rejectHint);
      var pr'' := if pr'.state == Replicate then BecomeProbe(pr') else pr';
      SendAppendFits(cfg, Work(SetProgress(n, m.from, pr''), {}), m.from, true);
    } else {
      var pr' := MaybeUpdate(pr, m.index);
      FreeToShrinks(pr'.ins, m.index);
      var pr'' := if pr'.state == Probe then BecomeReplicate(pr') else pr'.(ins := FreeTo(pr'.ins, m.index));
      var n' := SetProgress(n, m.from, pr'');
      CommitAndSendFits(cfg, n', m.from, IsPaused(cfg, pr));
      SendAllFits(cfg, CommitAndSend(cfg, n', m.from, IsPaused(cfg, pr)), m.from);
    }
  }

  lemma {:induction false} ReleaseKeepsProgress(w: Work, rs: seq<PendingRead>)
    ensures ReleaseReads(w, rs).n.prs == w.n.prs
    decreases |rs|
  {
    if rs != [] { ReleaseKeepsProgress(ReleaseRead(w, rs[0]), rs[1..]); }
  }

  lemma LeaderHeartbeatRespFits(cfg: Config, n: Node, m: Msg)
    requires WindowsFit(cfg, n) && m.MsgHeartbeatResp? && m.from in n.prs && Member(n)
    ensures WindowsFit(cfg, LeaderHeartbeatResp(cfg, n, m).n)
  {
    hide SendAppend, FreeTo, LeaderAckRead;
    var pr := n.prs[m.from].(recentActive := true, paused := false);
    if pr.ins != [] { FreeToShrinks(pr.ins, pr.ins[0]); }
    var pr' := if pr.state == Replicate && pr.ins != [] && |pr.ins| == cfg.maxInflight
               then pr.(ins := FreeTo(pr.ins, pr.ins[0])) else pr;
    var w := Work(SetProgress(n, m.from, pr'), {});
    SendAppendFits(cfg, w, m.from, true);
    var w' := if pr'.matched < |n.log| then SendAppend(cfg, w, m.from, true) else w;
    AckKeepsProgress(w', m.from, m.ctx);
  }

  lemma AckKeepsProgress(w: Work, from: Id, ctx: Ctx)
    ensures LeaderAckRead(w, from, ctx).n.prs == w.n.prs
  {
    var pending := AckRead(w.n.pending, ctx, from);
    var k := FindRead(pending, ctx);
    if k < |pending| { ReleaseKeepsProgress(w.(n := w.n.(pending := pending[k + 1..])), pending[..k + 1]); }
  }

  lemma StepLeaderFits(cfg: Config, n: Node, m: Msg)
    requires WindowsFit(cfg, n) && Member(n)
    ensures StepLeader(cfg, n, m).Done? ==> WindowsFit(cfg, StepLeader(cfg, n, m).value.n)
  {
    hide LeaderAppResp, LeaderHeartbeatResp, AppendEntry, BcastAppend, SendAppend;
    match m {
      case MsgProp(_, _, payload) =>
        AppendEntryFits(cfg, n, payload);
        BcastAppendFits(cfg, Work(AppendEntry(n, payload), {}));
      case MsgAppResp(_, from, _, _, _, _) => if from in n.prs { LeaderAppRespFits(cfg, n, m); }
      case MsgHeartbeatResp(_, from, _, _) => if from in n.prs { LeaderHeartbeatRespFits(cfg, n, m); }
      case MsgTransferLeader(_, from, _) =>
        if from in n.prs { SendAppendFits(cfg, Work(n.(elapsed := 0, transferee := from), {}), from, true); }
      case _ =>
    }
  }

  lemma VoteRespFits(cfg: Config, n: Node, from: Id, granted: bool)
    requires WindowsFit(cfg, n) && Member(n) && (n.role == Candidate || n.role == PreCandidate)
    ensures WindowsFit(cfg, CandidateVoteResp(cfg, n, from, granted).n)
  {
    hide BecomeLeader, BcastAppend, Campaign;
    var n' := Poll(n, from, granted);
    CampaignFits(cfg, Work(n', {}), Election);
    BecomeLeaderFits(cfg, n');
    BcastAppendFits(cfg, Work(BecomeLeader(n'), {}));
  }

  lemma StepOthersFit(cfg: Config, n: Node, m: Msg)
    requires WindowsFit(cfg, n) && Member(n)
    ensures n.role == Follower && StepFollower(cfg, n, m).Done? ==> WindowsFit(cfg, StepFollower(cfg, n, m).value.n)
    ensures n.role in {Candidate, PreCandidate} && StepCandidate(cfg, n, m).Done? ==>
              WindowsFit(cfg, StepCandidate(cfg, n, m).value.n)
  {
    hide Campaign, CandidateVoteResp, Merged, FindConflict;
    if n.role == Follower { CampaignFits(cfg, Work(n, {}), Transfer); }
    if n.role in {Candidate, PreCandidate} {
      if m.MsgVoteResp? || m.MsgPreVoteResp? { VoteRespFits(cfg, n, m.from, !m.reject); }
    }
  }

  lemma DispatchFits(cfg: Config, n: Node, m: Msg)
    requires WindowsFit(cfg, n) && Member(n)
    ensures Dispatch(cfg, n, m).Done? ==> WindowsFit(cfg, Dispatch(cfg, n, m).value.n)
  {
    hide Campaign, StepLeader, StepFollower, StepCandidate;
    if n.role == Leader {
      StepLeaderFits(cfg, n, m);
    } else {
      StepOthersFit(cfg, n, m);
      CampaignFits(cfg, Work(n, {}), if cfg.preVote then PreElection else Election);
    }
  }

  lemma StepFits(cfg: Config, n: Node, m: Msg)
    requires WindowsFit(cfg, n) && Member(n)
    ensures Step(cfg, n, m).Done? ==> WindowsFit(cfg, Step(cfg, n, m).value.n)
  {
    hide Dispatch;
    DispatchFits(cfg, n, m);
    if TermOf(m) > n.term {
      var n' := BecomeFollower(n, TermOf(m), if m.MsgApp? || m.MsgHeartbeat? then m.from else NONE);
      ResetFits(cfg, n, TermOf(m));
      DispatchFits(cfg, n', m);
    }
  }

  ghost predicate AllFit(cfg: Config, c: Cluster) { forall i | i in c.nodes :: WindowsFit(cfg, c.nodes[i]) }

  /** In every state of every run, no window holds more than it may. */
  lemma {:induction false} WindowNeverOverfull(cfg: Config, boot: seq<Entry>, b: seq<Cluster>, i: Id, j: Id)
    requires Run(cfg, boot, b)
    ensures i in b[|b| - 1].nodes && j in b[|b| - 1].nodes[i].prs ==> |b[|b| - 1].nodes[i].prs[j].ins| <= cfg.maxInflight
  {
    RunFits(cfg, boot, b);
  }

  lemma {:induction false} RunFits(cfg: Config, boot: seq<Entry>, b: seq<Cluster>)
    requires Run(cfg, boot, b)
    ensures AllFit(cfg, b[|b| - 1])
    decreases |b|
  {
    var n := |b| - 1;
    if n > 0 {
      RunFits(cfg, boot, b[..n]);
      NextFits(cfg, b[n - 1], b[n]);
    }
  }

  lemma NextFits(cfg: Config, c: Cluster, c': Cluster)
    requires Next(cfg, c, c') && AllFit(cfg, c)
    ensures AllFit(cfg, c')
  {
    hide Step;
    if i :| Restarts(c, c', i) {
      ResetFits(cfg, c.nodes[i], c.nodes[i].term);
    } else if i, m :| Delivers(cfg, c, c', i, m) {
      StepFits(cfg, c.nodes[i], m);
    }
  }
}
