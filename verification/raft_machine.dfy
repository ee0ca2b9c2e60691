/** The raft struct of raft/raft.go as it works: fields updated in place, loops over the progress map
    in no particular order, messages appended to `msgs`. Every method is proved to do what the
    function of the same name in RaftNode says, so the results about RaftNode hold of it. */
module RaftMachine {
  import opened RaftTypes
  import opened Logs
  import opened SizeLimit
  import opened RaftNode
  import opened CommitIndex

  function Sent(msgs: seq<Msg>): set<Msg> { set m | m in msgs }

  /** What a handler did, on top of the messages that were already waiting. */
  function Plus(out: set<Msg>, w: Work): Work { w.(out := out + w.out) }

  lemma SentMore(msgs: seq<Msg>, m: Msg)
    ensures Sent(msgs + [m]) == Sent(msgs) + {m}
  {
  }

  // ---------------------------------------------------------------- loops over the progress map

  /** A broadcast of appends that has reached `ids` so far. */
  function BcastAppendTo(cfg: Config, w: Work, ids: set<Id>): Work {
    Work(w.n.(prs := ProgressAfter(cfg, w.n, ids)), w.out + AppendsTo(cfg, w.n, ids))
  }

  function ProgressAfter(cfg: Config, n: Node, ids: set<Id>): map<Id, Progress> {
    map j | j in n.prs ::
      if j in ids && j != n.id && Sends(cfg, n, n.prs[j], true) then AfterSend(cfg, n, n.prs[j]) else n.prs[j]
  }

  function AppendsTo(cfg: Config, n: Node, ids: set<Id>): set<Msg> {
    set j | j in n.prs && j in ids && j != n.id && Sends(cfg, n, n.prs[j], true) :: AppendMsg(cfg, n, j, n.prs[j])
  }

  lemma BcastAppendToNone(cfg: Config, w: Work)
    ensures BcastAppendTo(cfg, w, {}) == w
  {
    assert ProgressAfter(cfg, w.n, {}) == w.n.prs;
  }

  lemma BcastAppendToAll(cfg: Config, w: Work)
    ensures BcastAppendTo(cfg, w, w.n.prs.Keys) == BcastAppend(cfg, w)
  {
    hide Sends, AfterSend, AppendMsg;
    assert ProgressAfter(cfg, w.n, w.n.prs.Keys) == BcastAppend(cfg, w).n.prs;
  }

  /** Sending to one peer looks only at the progress of that peer. */
  lemma SendIgnoresOthers(cfg: Config, n: Node, prs: map<Id, Progress>, j: Id, pr: Progress)
    ensures var n' := n.(prs := prs);
            && Sends(cfg, n', pr, true) == Sends(cfg, n, pr, true)
            && AfterSend(cfg, n', pr) == AfterSend(cfg, n, pr) && AppendMsg(cfg, n', j, pr) == AppendMsg(cfg, n, j, pr)
  {
  }

  lemma BcastAppendToOneMore(cfg: Config, w: Work, ids: set<Id>, j: Id)
    requires j in w.n.prs && j !in ids
    ensures var w' := BcastAppendTo(cfg, w, ids);
            BcastAppendTo(cfg, w, ids + {j}) == if j == w.n.id then w' else SendAppend(cfg, w', j, true)
  {
    hide Sends, AfterSend, AppendMsg;
    var n, w' := w.n, BcastAppendTo(cfg, w, ids);
    SendIgnoresOthers(cfg, n, w'.n.prs, j, n.prs[j]);
    var sends := j != n.id && Sends(cfg, n, n.prs[j], true);
    assert ProgressAfter(cfg, n, ids + {j})
        == if sends then w'.n.prs[j := AfterSend(cfg, n, n.prs[j])] else w'.n.prs;
    assert AppendsTo(cfg, n, ids + {j})
        == AppendsTo(cfg, n, ids) + if sends then {AppendMsg(cfg, n, j, n.prs[j])} else {};
  }

  function BcastHeartbeatTo(w: Work, ctx: Ctx, ids: set<Id>): Work {
    w.(out := w.out + set j | j in w.n.prs && j in ids && j != w.n.id :: HeartbeatMsg(w.n, j, ctx))
  }

  // ---------------------------------------------------------------- messages already waiting do not matter

  lemma SendAppendAdds(cfg: Config, n: Node, out: set<Msg>, to: Id, sendIfEmpty: bool)
    requires to in n.prs
    ensures SendAppend(cfg, Work(n, out), to, sendIfEmpty) == Plus(out, SendAppend(cfg, Work(n, {}), to, sendIfEmpty))
  {
  }

  lemma BcastAppendAdds(cfg: Config, n: Node, out: set<Msg>)
    ensures BcastAppend(cfg, Work(n, out)) == Plus(out, BcastAppend(cfg, Work(n, {})))
  {
  }

  lemma {:induction false} SendAllAdds(cfg: Config, w: Work, out: set<Msg>, to: Id)
    requires to in w.n.prs
    ensures SendAll(cfg, Plus(out, w), to) == Plus(out, SendAll(cfg, w, to))
    decreases |w.n.log| + 1 - w.n.prs[to].next, if w.n.prs[to].paused then 0 else 1
  {
    if Sends(cfg, w.n, w.n.prs[to], false) {
      var w' := SendAppend(cfg, w, to, false);
      assert SendAppend(cfg, Plus(out, w), to, false) == Plus(out, w');
      SendAllAdds(cfg, w', out, to);
    }
  }

  lemma {:induction false} ReleaseReadsAdds(w: Work, out: set<Msg>, rs: seq<PendingRead>)
    ensures ReleaseReads(Plus(out, w), rs) == Plus(out, ReleaseReads(w, rs))
    decreases |rs|
  {
    if rs != [] {
      assert ReleaseRead(Plus(out, w), rs[0]) == Plus(out, ReleaseRead(w, rs[0]));
      ReleaseReadsAdds(ReleaseRead(w, rs[0]), out, rs[1..]);
    }
  }

  class Raft {
    const cfg: Config
    const id: Id
    var term: nat
    var vote: Id
    var log: seq<Entry>
    var committed: nat
    var role: Role
    var lead: Id
    var votes: map<Id, bool>
    var prs: map<Id, Progress>
    var transferee: Id
    var pending: seq<PendingRead>
    var readStates: seq<ReadState>
    var elapsed: nat
    var msgs: seq<Msg>

    /** newRaft: starts, or restarts, as a follower from its hard state and log. */
    constructor (cfg: Config, id: Id, term: nat, vote: Id, log: seq<Entry>, committed: nat)
      ensures this.cfg == cfg && Value() == Restarted(cfg, id, term, vote, log, committed) && msgs == []
    {
      this.cfg, this.id, this.term, this.vote, this.log, this.committed := cfg, id, term, vote, log, committed;
      role, lead, votes, transferee, pending, readStates, elapsed, msgs := Follower, NONE, map[], NONE, [], [], 0, [];
      prs := map j | j in cfg.voters :: Progress(0, 1, Probe, false, false, []);
      new;
      BecomeFollower(term, NONE);
    }

    ghost function Value(): Node
      reads this
    {
      Node(id, term, vote, log, committed, role, lead, votes, prs, transferee, pending, readStates, elapsed)
    }

    ghost function State(): Work
      reads this
    {
      Work(Value(), Sent(msgs))
    }

    ghost predicate Valid()
      reads this
    {
      Member(Value())
    }

    function Quorum(): nat
      reads this
    {
      |prs| / 2 + 1
    }

    method Send(m: Msg)
      modifies this`msgs
      ensures State() == old(State()).Sending(m)
    {
      SentMore(msgs, m);
      msgs := msgs + [m];
    }

    /** maybeSendAppend: raft/raft.go:522-582. */
    method MaybeSendAppend(to: Id, sendIfEmpty: bool) returns (sent: bool)
      requires to in prs
      modifies this`prs, this`msgs
      ensures sent == Sends(cfg, old(Value()), old(prs)[to], sendIfEmpty)
      ensures State() == SendAppend(cfg, old(State()), to, sendIfEmpty)
    {
      var pr := prs[to];
      if IsPaused(cfg, pr) { return false; }
      var es := [];
      if pr.next <= |log| { es := Limit(cfg.size, log[pr.next - 1..], cfg.maxMsgSize); }
      if |es| == 0 && !sendIfEmpty { return false; }
      var m := MsgApp(term, id, to, pr.next - 1, TermAt(log, pr.next - 1), committed, es);
      if |es| != 0 {
        match pr.state {
          case Replicate =>
            var last := pr.next - 1 + |es|;
            pr := pr.(next := last + 1, ins := pr.ins + [last]);
          case Probe => pr := pr.(paused := true);
        }
      }
      prs := prs[to := pr];
      Send(m);
      sent := true;
    }

    /** raft/raft.go:1138-1139. */
    method SendWhilePossible(to: Id)
      requires to in prs
      modifies this`prs, this`msgs
      ensures State() == SendAll(cfg, old(State()), to)
    {
      var more := true;
      while more
        invariant to in prs
        invariant SendAll(cfg, old(State()), to) == SendAll(cfg, State(), to)
        invariant !more ==> !Sends(cfg, Value(), prs[to], false)
        decreases more, |log| + 1 - prs[to].next, if prs[to].paused then 0 else 1
      {
        more := MaybeSendAppend(to, false);
      }
    }

    method BcastAppends()
      modifies this`prs, this`msgs
      ensures State() == BcastAppend(cfg, old(State()))
    {
      var ids := prs.Keys;
      BcastAppendToNone(cfg, State());
      while ids != {}
        invariant ids <= old(prs).Keys
        invariant State() == BcastAppendTo(cfg, old(State()), old(prs).Keys - ids)
        decreases |ids|
      {
        var j :| j in ids;
        BcastAppendToOneMore(cfg, old(State()), old(prs).Keys - ids, j);
        assert old(prs).Keys - (ids - {j}) == old(prs).Keys - ids + {j};
        if j != id {
          var _ := MaybeSendAppend(j, true);
        }
        ids := ids - {j};
      }
      assert old(prs).Keys - ids == old(prs).Keys;
      BcastAppendToAll(cfg, old(State()));
    }

    method BcastHeartbeats(ctx: Ctx)
      modifies this`msgs
      ensures State() == BcastHeartbeat(old(State()), ctx)
    {
      var ids := prs.Keys;
      while ids != {}
        invariant ids <= prs.Keys
        invariant State() == BcastHeartbeatTo(old(State()), ctx, prs.Keys - ids)
        decreases |ids|
      {
        var j :| j in ids;
        assert prs.Keys - (ids - {j}) == prs.Keys - ids + {j};
        if j != id {
          var commit := Min(prs[j].matched, committed);
          Send(MsgHeartbeat(term, id, j, commit, ctx));
        }
        ids := ids - {j};
      }
      assert prs.Keys - ids == prs.Keys;
    }

    // ---------------------------------------------------------------- commit, append, change role

    method MaybeCommit() returns (moved: bool)
      requires Valid()
      modifies this`committed
      ensures (Value(), moved) == RaftNode.MaybeCommit(old(Value()))
    {
      MemberHasQuorum(Value());
      var c := new Committer();
      var mci := c.QuorumMatch(prs, Quorum());
      if mci > committed && TermAt(log, mci) == term {
        committed := mci;
        return true;
      }
      moved := false;
    }

    /** raft/raft.go:679-689. */
    method AppendEntry(payload: seq<string>)
      requires Valid()
      modifies this`log, this`prs, this`committed
      ensures Value() == RaftNode.AppendEntry(old(Value()), payload)
    {
      var es, li := [], |log|;
      for i := 0 to |payload|
        invariant es == NewEntries(Value(), payload)[..i]
      {
        es := es + [Entry(li + 1 + i, term, payload[i])];
      }
      assert es == NewEntries(Value(), payload);
      log := log + es;
      prs := prs[id := MaybeUpdate(prs[id], |log|)];
      var _ := MaybeCommit();
    }

    /** raft/raft.go:655-677. */
    method Reset(newTerm: nat)
      modifies this
      ensures Value() == RaftNode.Reset(old(Value()), newTerm) && msgs == old(msgs)
    {
      hide FreshProgress;
      if term != newTerm { term, vote := newTerm, NONE; }
      lead, elapsed, transferee, votes := NONE, 0, NONE, map[];
      FreshSame(old(Value()), Value());
      ResetProgress();
      assert prs == RaftNode.Reset(old(Value()), newTerm).prs;
      pending := [];
    }

    method ResetProgress()
      modifies this`prs
      ensures prs == map j | j in old(prs) :: FreshProgress(old(Value()), j)
    {
      ghost var n := Value();
      var ids := prs.Keys;
      while ids != {}
        invariant ids <= n.prs.Keys && prs.Keys == n.prs.Keys
        invariant forall j | j in prs && j !in ids :: prs[j] == FreshProgress(n, j)
        decreases |ids|
      {
        var j :| j in ids;
        var pr := Progress(0, |log| + 1, Probe, false, false, []);
        if j == id { pr := pr.(matched := |log|); }
        prs := prs[j := pr];
        ids := ids - {j};
      }
    }

    method BecomeFollower(newTerm: nat, newLead: Id)
      modifies this
      ensures Value() == RaftNode.BecomeFollower(old(Value()), newTerm, newLead) && msgs == old(msgs)
    {
      Reset(newTerm);
      lead, role := newLead, Follower;
    }

    method BecomeCandidate()
      requires role != Leader
      modifies this
      ensures Value() == RaftNode.BecomeCandidate(old(Value())) && msgs == old(msgs)
    {
      Reset(term + 1);
      vote, role := id, Candidate;
    }

    method BecomePreCandidate()
      requires role != Leader
      modifies this`votes, this`lead, this`role
      ensures Value() == RaftNode.BecomePreCandidate(old(Value()))
    {
      votes, lead, role := map[], NONE, PreCandidate;
    }

    method BecomeLeader()
      requires role != Follower && Valid()
      modifies this
      ensures Value() == RaftNode.BecomeLeader(old(Value())) && msgs == old(msgs)
    {
      Reset(term);
      lead, role := id, Leader;
      prs := prs[id := BecomeReplicate(prs[id])];
      assert Value() == TakeOffice(old(Value()));
      AppendEntry([""]);
    }

    /** raft/raft.go:842-857. */
    method Poll(from: Id, v: bool) returns (granted: nat)
      modifies this`votes
      ensures Value() == RaftNode.Poll(old(Value()), from, v) && granted == |Granted(Value())|
    {
      if from !in votes { votes := votes[from := v]; }
      granted := CountGranted(votes);
      assert GrantedIn(votes, votes.Keys) == Granted(Value());
    }

    method AskVote(to: Id, pre: bool, transfer: bool)
      modifies this`msgs
      ensures State() == old(State()).Sending(VoteRequest(old(Value()), pre, transfer, to))
    {
      if pre {
        Send(MsgPreVote(term + 1, id, to, |log|, LastTerm(log)));
      } else {
        Send(MsgVote(term, id, to, |log|, LastTerm(log), transfer));
      }
    }

    /** Asks every other voter. */
    method AskVotes(pre: bool, transfer: bool)
      modifies this`msgs
      ensures State() == old(State()).(out := Asked(old(Sent(msgs)), old(Value()), pre, transfer, prs.Keys))
    {
      hide Asked, Sent, VoteRequest;
      ghost var n := Value();
      AskedNone(Sent(msgs), n, pre, transfer);
      var ids := prs.Keys;
      assert prs.Keys - ids == {};
      while ids != {}
        invariant ids <= prs.Keys
        invariant Sent(msgs) == Asked(old(Sent(msgs)), n, pre, transfer, prs.Keys - ids)
        decreases |ids|
      {
        var j :| j in ids;
        AskedOneMore(old(Sent(msgs)), n, pre, transfer, prs.Keys - ids, j);
        assert prs.Keys - (ids - {j}) == prs.Keys - ids + {j};
        if j != id { AskVote(j, pre, transfer); }
        ids := ids - {j};
      }
      assert prs.Keys - ids == prs.Keys;
    }

    /** raft/raft.go:803-840. */
    method Campaign(t: CampaignType)
      requires Valid() && role != Leader
      modifies this
      ensures State() == RaftNode.Campaign(old(State()), t)
    {
      hide RaftNode.BecomeCandidate, RaftNode.BecomePreCandidate, RaftNode.Poll, RaftNode.BecomeLeader, Asked;
      if t.PreElection? {
        CandidateKeeps(Value());
        BecomePreCandidate();
        var granted := Poll(id, true);
        if Quorum() == granted {
          CampaignForTerm(Election);
        } else {
          AskedAll(Sent(msgs), Value(), false);
          AskVotes(true, false);
        }
      } else {
        CampaignForTerm(t);
      }
    }

    /** The real campaign, in a new term. */
    method CampaignForTerm(t: CampaignType)
      requires Valid() && role != Leader && !t.PreElection?
      modifies this
      ensures State() == RaftNode.Campaign(old(State()), t)
    {
      hide RaftNode.BecomeCandidate, RaftNode.Poll, RaftNode.BecomeLeader, Asked;
      CandidateKeeps(Value());
      BecomeCandidate();
      var granted := Poll(id, true);
      if Quorum() == granted {
        BecomeLeader();
      } else {
        AskedAll(Sent(msgs), Value(), t.Transfer?);
        AskVotes(false, t.Transfer?);
      }
    }

    // ---------------------------------------------------------------- follower handlers

    method CommitTo(c: nat)
      requires committed < c ==> c <= |log|
      modifies this`committed
      ensures Value() == old(Value()).(committed := Max(old(committed), c))
    {
      if committed < c { committed := c; }
    }

    /** raft/raft.go:1350-1364. */
    method HandleAppend(m: Msg)
      requires m.MsgApp? && RaftNode.HandleAppend(Value(), m).Done?
      modifies this
      ensures State() == Plus(old(Sent(msgs)), RaftNode.HandleAppend(old(Value()), m).value)
    {
      if m.index < committed {
        Send(MsgAppResp(term, id, m.from, committed, false, 0));
      } else if !Plain(log).MatchTerm(m.index, m.logTerm) {
        Send(MsgAppResp(term, id, m.from, m.index, true, |log|));
      } else {
        var last := m.index + |m.entries|;
        log := Merged(Plain(log), m.index, m.entries).ents;
        CommitTo(Min(m.commit, last));
        Send(MsgAppResp(term, id, m.from, last, false, 0));
      }
    }

    method HandleHeartbeat(m: Msg)
      requires m.MsgHeartbeat? && RaftNode.HandleHeartbeat(Value(), m).Done?
      modifies this
      ensures State() == Plus(old(Sent(msgs)), RaftNode.HandleHeartbeat(old(Value()), m).value)
    {
      CommitTo(m.commit);
      Send(MsgHeartbeatResp(term, id, m.from, m.ctx));
    }

    // ---------------------------------------------------------------- leader handlers

    method CommitAndSend(from: Id, oldPaused: bool)
      requires from in prs && Valid()
      modifies this`committed, this`prs, this`msgs
      ensures State() == Plus(old(Sent(msgs)), RaftNode.CommitAndSend(cfg, old(Value()), from, oldPaused))
    {
      var moved := MaybeCommit();
      if moved {
        BcastAppendAdds(cfg, Value(), Sent(msgs));
        BcastAppends();
      } else if oldPaused {
        SendAppendAdds(cfg, Value(), Sent(msgs), from, true);
        var _ := MaybeSendAppend(from, true);
      }
    }

    /** raft/raft.go:1125-1144. */
    method LeaderMatched(from: Id, oldPaused: bool)
      requires from in prs && Valid()
      modifies this`committed, this`prs, this`msgs
      ensures State() == Plus(old(Sent(msgs)), RaftNode.LeaderMatched(cfg, old(Value()), from, oldPaused))
    {
      ghost var w := RaftNode.CommitAndSend(cfg, Value(), from, oldPaused);
      CommitAndSendKeeps(cfg, Value(), from, oldPaused);
      SendAllAdds(cfg, w, Sent(msgs), from);
      SendAllKeeps(cfg, w, from);
      CommitAndSend(from, oldPaused);
      SendWhilePossible(from);
      if from == transferee && prs[from].matched == |log| {
        Send(MsgTimeoutNow(term, id, from));
      }
    }

    /** raft/raft.go:1093-1146. */
    method LeaderAppResp(m: Msg)
      requires m.MsgAppResp? && m.from in prs && Valid()
      modifies this`committed, this`prs, this`msgs
      ensures State() == Plus(old(Sent(msgs)), RaftNode.LeaderAppResp(cfg, old(Value()), m))
    {
      var pr := prs[m.from].(recentActive := true);
      if m.reject {
        var (pr', decreased) := MaybeDecrTo(pr, m.index, m.rejectHint);
        if decreased && pr'.state == Replicate { pr' := BecomeProbe(pr'); }
        prs := prs[m.from := pr'];
        if decreased {
          SendAppendAdds(cfg, Value(), Sent(msgs), m.from, true);
          var _ := MaybeSendAppend(m.from, true);
        }
      } else {
        var oldPaused := IsPaused(cfg, pr);
        var pr' := MaybeUpdate(pr, m.index);
        if pr.matched >= m.index {
          prs := prs[m.from := pr'];
        } else {
          match pr'.state {
            case Probe => pr' := BecomeReplicate(pr');
            case Replicate => pr' := pr'.(ins := FreeTo(pr'.ins, m.index));
          }
          prs := prs[m.from := pr'];
          LeaderMatched(m.from, oldPaused);
        }
      }
    }

    method Release(r: PendingRead)
      modifies this`readStates, this`msgs
      ensures State() == ReleaseRead(old(State()), r)
    {
      if r.from == NONE || r.from == id {
        readStates := readStates + [ReadState(r.index, r.ctx)];
      } else {
        Send(MsgReadIndexResp(term, id, r.from, r.index, r.ctx));
      }
    }

    method ReleaseAll(rs: seq<PendingRead>)
      modifies this`readStates, this`msgs
      ensures State() == ReleaseReads(old(State()), rs)
    {
      hide ReleaseRead;
      for k := 0 to |rs|
        invariant ReleaseReads(old(State()), rs) == ReleaseReads(State(), rs[k..])
      {
        assert rs[k..][0] == rs[k] && rs[k..][1..] == rs[k + 1..];
        Release(rs[k]);
      }
    }

    /** raft/raft.go:1163-1177. */
    method AckRead(from: Id, ctx: Ctx)
      modifies this`pending, this`readStates, this`msgs
      ensures State() == LeaderAckRead(old(State()), from, ctx)
    {
      pending := RaftNode.AckRead(pending, ctx, from);
      var k := FindRead(pending, ctx);
      if k == |pending| || |pending[k].acks| + 1 < Quorum() { return; }
      var rss := pending[..k + 1];
      pending := pending[k + 1..];
      ReleaseAll(rss);
    }

    /** raft/raft.go:1147-1177. */
    method LeaderHeartbeatResp(m: Msg)
      requires m.MsgHeartbeatResp? && m.from in prs && Valid()
      modifies this
      ensures State() == Plus(old(Sent(msgs)), RaftNode.LeaderHeartbeatResp(cfg, old(Value()), m))
    {
      hide FreeTo, LeaderAckRead, SendAppend;
      var pr := prs[m.from].(recentActive := true, paused := false);
      if pr.state == Replicate && pr.ins != [] && |pr.ins| == cfg.maxInflight {
        pr := pr.(ins := FreeTo(pr.ins, pr.ins[0]));
      }
      prs := prs[m.from := pr];
      ghost var w := Work(Value(), {});
      assert State() == Plus(old(Sent(msgs)), w);
      if pr.matched < |log| {
        SendAppendAdds(cfg, Value(), Sent(msgs), m.from, true);
        w := SendAppend(cfg, w, m.from, true);
        var _ := MaybeSendAppend(m.from, true);
      }
      if cfg.leaseRead || m.ctx == "" { return; }
      LeaderAckReadAdds(w, old(Sent(msgs)), m.from, m.ctx);
      AckRead(m.from, m.ctx);
    }

    /** raft/raft.go:1050-1083. */
    method LeaderReadIndex(m: Msg)
      requires m.MsgReadIndex?
      modifies this`pending, this`readStates, this`msgs
      ensures State() == Plus(old(Sent(msgs)), RaftNode.LeaderReadIndex(cfg, old(Value()), m))
    {
      if Quorum() > 1 {
        if TermAt(log, committed) != term { return; }
        if cfg.leaseRead {
          Release(PendingRead(m.ctx, m.from, committed, {}));
        } else {
          pending := AddRead(pending, committed, m.from, m.ctx);
          BcastHeartbeats(m.ctx);
        }
      } else {
        Release(PendingRead(m.ctx, m.from, committed, {}));
      }
    }

    /** raft/raft.go:1201-1231. */
    method LeaderTransfer(m: Msg)
      requires m.MsgTransferLeader? && m.from in prs
      modifies this`transferee, this`elapsed, this`prs, this`msgs
      ensures State() == Plus(old(Sent(msgs)), RaftNode.LeaderTransfer(cfg, old(Value()), m))
    {
      if transferee != NONE {
        if transferee == m.from { return; }
        transferee := NONE;
      }
      if m.from == id { return; }
      elapsed, transferee := 0, m.from;
      if prs[m.from].matched == |log| {
        Send(MsgTimeoutNow(term, id, m.from));
      } else {
        SendAppendAdds(cfg, Value(), Sent(msgs), m.from, true);
        var _ := MaybeSendAppend(m.from, true);
      }
    }

    /** raft/raft.go:1583-1598. */
    method CheckQuorumActive() returns (active: bool)
      requires Valid()
      modifies this`prs
      ensures prs == Rested(old(Value()), {}) && active == (|ActiveVoters(old(Value()))| >= QuorumSize(old(Value())))
    {
      var act, ids := 0, prs.Keys;
      while ids != {}
        invariant ids <= old(prs).Keys && prs == Rested(old(Value()), ids)
        invariant act == |ActiveIn(old(Value()), old(prs).Keys - ids)|
        decreases |ids|
      {
        var j :| j in ids;
        ActiveOneMore(old(Value()), old(prs).Keys - ids, j);
        assert old(prs).Keys - (ids - {j}) == old(prs).Keys - ids + {j};
        RestedOneMore(old(Value()), ids, j);
        if j == id {
          act := act + 1;
        } else {
          if prs[j].recentActive { act := act + 1; }
          prs := prs[j := prs[j].(recentActive := false)];
        }
        ids := ids - {j};
      }
      assert ActiveIn(old(Value()), old(prs).Keys - ids) == ActiveVoters(old(Value()));
      active := act >= Quorum();
    }

    method CheckQuorum()
      requires Valid()
      modifies this
      ensures Value() == RaftNode.CheckQuorum(old(Value())) && msgs == old(msgs)
    {
      RestedAll(Value());
      var active := CheckQuorumActive();
      if !active { BecomeFollower(term, NONE); }
    }

    method StepLeader(m: Msg)
      requires Valid() && RaftNode.StepLeader(cfg, Value(), m).Done?
      modifies this
      ensures State() == Plus(old(Sent(msgs)), RaftNode.StepLeader(cfg, old(Value()), m).value)
    {
      hide RaftNode.LeaderAppResp, RaftNode.LeaderHeartbeatResp, RaftNode.LeaderReadIndex, RaftNode.LeaderTransfer,
           RaftNode.CheckQuorum, RaftNode.AppendEntry, BcastAppend, BcastHeartbeat;
      assert State() == Plus(Sent(msgs), Work(Value(), {}));
      match m {
        case MsgBeat =>
          var ctx := if pending == [] then "" else pending[|pending| - 1].ctx;
          BcastHeartbeatAdds(Value(), Sent(msgs), ctx);
          BcastHeartbeats(ctx);
        case MsgCheckQuorum => CheckQuorum();
        case MsgProp(_, _, payload) =>
          if transferee != NONE { return; }
          AppendEntry(payload);
          BcastAppendAdds(cfg, Value(), Sent(msgs));
          BcastAppends();
        case MsgReadIndex(_, _, _) => LeaderReadIndex(m);
        case MsgAppResp(_, from, _, _, _, _) => if from in prs { LeaderAppResp(m); }
        case MsgHeartbeatResp(_, from, _, _) => if from in prs { LeaderHeartbeatResp(m); }
        case MsgUnreachable(from) =>
          if from in prs && prs[from].state == Replicate { prs := prs[from := BecomeProbe(prs[from])]; }
        case MsgTransferLeader(_, from, _) => if from in prs { LeaderTransfer(m); }
        case _ =>
      }
    }

    // ---------------------------------------------------------------- candidate, follower and Step

    /** raft/raft.go:1262-1276. */
    method VoteResp(from: Id, granted: bool)
      requires Valid() && (role == Candidate || role == PreCandidate)
      modifies this
      ensures State() == Plus(old(Sent(msgs)), CandidateVoteResp(cfg, old(Value()), from, granted))
    {
      hide RaftNode.Campaign, RaftNode.BecomeLeader, BcastAppend;
      var gr := Poll(from, granted);
      assert State() == Plus(Sent(msgs), Work(Value(), {}));
      if Quorum() == gr {
        if role == PreCandidate {
          CampaignAdds(Value(), Sent(msgs), Election);
          Campaign(Election);
        } else {
          BecomeLeader();
          BcastAppendAdds(cfg, Value(), Sent(msgs));
          BcastAppends();
        }
      } else if Quorum() == |votes| - gr {
        BecomeFollower(term, NONE);
      }
    }

    method StepCandidate(m: Msg)
      requires Valid() && (role == Candidate || role == PreCandidate)
      requires RaftNode.StepCandidate(cfg, Value(), m).Done?
      modifies this
      ensures State() == Plus(old(Sent(msgs)), RaftNode.StepCandidate(cfg, old(Value()), m).value)
    {
      hide RaftNode.HandleAppend, RaftNode.HandleHeartbeat, CandidateVoteResp, RaftNode.BecomeFollower;
      assert State() == Plus(Sent(msgs), Work(Value(), {}));
      match m {
        case MsgApp(t, from, _, _, _, _, _) =>
          BecomeFollower(t, from);
          HandleAppend(m);
        case MsgHeartbeat(t, from, _, _, _) =>
          BecomeFollower(t, from);
          HandleHeartbeat(m);
        case MsgVoteResp(_, from, _, reject) => if role == Candidate { VoteResp(from, !reject); }
        case MsgPreVoteResp(_, from, _, reject) => if role == PreCandidate { VoteResp(from, !reject); }
        case _ =>
      }
    }

    method StepFollower(m: Msg)
      requires Valid() && role == Follower && RaftNode.StepFollower(cfg, Value(), m).Done?
      modifies this
      ensures State() == Plus(old(Sent(msgs)), RaftNode.StepFollower(cfg, old(Value()), m).value)
    {
      hide RaftNode.HandleAppend, RaftNode.HandleHeartbeat, RaftNode.Campaign;
      assert State() == Plus(Sent(msgs), Work(Value(), {}));
      match m {
        case MsgProp(_, _, payload) =>
          if lead == NONE || cfg.noForwarding { return; }
          Send(MsgProp(id, lead, payload));
        case MsgApp(_, from, _, _, _, _, _) =>
          elapsed, lead := 0, from;
          HandleAppend(m);
        case MsgHeartbeat(_, from, _, _, _) =>
          elapsed, lead := 0, from;
          HandleHeartbeat(m);
        case MsgTransferLeader(_, _, _) =>
          if lead == NONE { return; }
          Send(MsgTransferLeader(term, id, lead));
        case MsgTimeoutNow(_, _, _) =>
          CampaignAdds(Value(), Sent(msgs), Transfer);
          Campaign(Transfer);
        case MsgReadIndex(_, _, ctx) =>
          if lead == NONE { return; }
          Send(MsgReadIndex(id, lead, ctx));
        case MsgReadIndexResp(_, _, _, index, ctx) =>
          readStates := readStates + [ReadState(index, ctx)];
        case _ =>
      }
    }

    /** raft/raft.go:955-992. */
    method HandleVotes(m: Msg)
      requires m.MsgVote? || m.MsgPreVote?
      modifies this`elapsed, this`vote, this`msgs
      ensures State() == Plus(old(Sent(msgs)), if m.MsgVote? then HandleVote(old(Value()), m) else HandlePreVote(old(Value()), m))
    {
      var canVote := vote == m.from || (vote == NONE && lead == NONE) || (m.MsgPreVote? && m.term > term);
      var upToDate := m.logTerm > LastTerm(log) || (m.logTerm == LastTerm(log) && m.index >= |log|);
      if canVote && upToDate {
        Send(if m.MsgVote? then MsgVoteResp(m.term, id, m.from, false) else MsgPreVoteResp(m.term, id, m.from, false));
        if m.MsgVote? { elapsed, vote := 0, m.from; }
      } else {
        Send(if m.MsgVote? then MsgVoteResp(term, id, m.from, true) else MsgPreVoteResp(term, id, m.from, true));
      }
    }

    method Dispatch(m: Msg)
      requires Valid() && RaftNode.Dispatch(cfg, Value(), m).Done?
      modifies this
      ensures State() == Plus(old(Sent(msgs)), RaftNode.Dispatch(cfg, old(Value()), m).value)
    {
      hide RaftNode.StepLeader, RaftNode.StepFollower, RaftNode.StepCandidate, RaftNode.Campaign, HandleVote, HandlePreVote;
      assert State() == Plus(Sent(msgs), Work(Value(), {}));
      match m {
        case MsgHup =>
          if role != Leader {
            CampaignAdds(Value(), Sent(msgs), if cfg.preVote then PreElection else Election);
            Campaign(if cfg.preVote then PreElection else Election);
          }
        case MsgVote(_, _, _, _, _, _) => HandleVotes(m);
        case MsgPreVote(_, _, _, _, _) => HandleVotes(m);
        case _ =>
          match role {
            case Leader => StepLeader(m);
            case Follower => StepFollower(m);
            case _ => StepCandidate(m);
          }
      }
    }

    /** raft/raft.go:859-1002. */
    method Step(m: Msg)
      requires Valid() && RaftNode.Step(cfg, Value(), m).Done?
      modifies this
      ensures State() == Plus(old(Sent(msgs)), RaftNode.Step(cfg, old(Value()), m).value)
    {
      hide RaftNode.Dispatch, RaftNode.BecomeFollower;
      assert State() == Plus(Sent(msgs), Work(Value(), {}));
      var t := TermOf(m);
      if t > term {
        if m.MsgVote? || m.MsgPreVote? {
          var force := m.MsgVote? && m.transfer;
          var inLease := cfg.checkQuorum && lead != NONE && elapsed < cfg.electionTimeout;
          if !force && inLease { return; }
        }
        if !m.MsgPreVote? && !(m.MsgPreVoteResp? && !m.reject) {
          FollowerIsMember(Value(), t, if m.MsgApp? || m.MsgHeartbeat? then m.from else NONE);
          BecomeFollower(t, if m.MsgApp? || m.MsgHeartbeat? then m.from else NONE);
        }
      } else if t != 0 && t < term {
        if (cfg.checkQuorum || cfg.preVote) && (m.MsgHeartbeat? || m.MsgApp?) {
          Send(MsgAppResp(term, id, m.from, 0, false, 0));
        } else if m.MsgPreVote? {
          Send(MsgPreVoteResp(term, id, m.from, true));
        }
        return;
      }
      Dispatch(m);
    }
  }

  lemma FreshSame(n: Node, n': Node)
    requires n'.id == n.id && n'.log == n.log
    ensures forall j :: FreshProgress(n, j) == FreshProgress(n', j)
  {
  }

  function Restarted(cfg: Config, id: Id, term: nat, vote: Id, log: seq<Entry>, committed: nat): Node {
    Node(id, term, vote, log, committed, Follower, NONE, map[],
         map j | j in cfg.voters :: Progress(if j == id then |log| else 0, |log| + 1, Probe, false, false, []),
         NONE, [], [], 0)
  }

  /** The restart step of a run is construction from what was persisted. */
  lemma RestartIsConstruction(cfg: Config, n: Node)
    requires n.prs.Keys == cfg.voters
    ensures RaftNode.BecomeFollower(n, n.term, NONE).(readStates := [])
         == Restarted(cfg, n.id, n.term, n.vote, n.log, n.committed)
  {
    assert RaftNode.BecomeFollower(n, n.term, NONE).prs
        == Restarted(cfg, n.id, n.term, n.vote, n.log, n.committed).prs;
  }

  lemma FollowerIsMember(n: Node, term: nat, lead: Id)
    requires Member(n)
    ensures Member(RaftNode.BecomeFollower(n, term, lead))
  {
  }

  lemma RestedAll(n: Node)
    ensures RaftNode.CheckQuorum(n) ==
              (var n' := n.(prs := Rested(n, {}));
               if |ActiveVoters(n)| >= QuorumSize(n) then n' else RaftNode.BecomeFollower(n', n.term, NONE))
  {
    assert Rested(n, {}) == map j | j in n.prs :: if j == n.id then n.prs[j] else n.prs[j].(recentActive := false);
  }

  lemma BcastHeartbeatAdds(n: Node, out: set<Msg>, ctx: Ctx)
    ensures BcastHeartbeat(Work(n, out), ctx) == Plus(out, BcastHeartbeat(Work(n, {}), ctx))
  {
  }

  lemma CampaignForTermAdds(n: Node, out: set<Msg>, t: CampaignType)
    requires Member(n) && n.role != Leader && !t.PreElection?
    ensures RaftNode.Campaign(Work(n, out), t) == Plus(out, RaftNode.Campaign(Work(n, {}), t))
  {
    hide RaftNode.BecomeCandidate, RaftNode.Poll, RaftNode.BecomeLeader, LastTerm;
    CandidateKeeps(n);
  }

  lemma CampaignAdds(n: Node, out: set<Msg>, t: CampaignType)
    requires Member(n) && n.role != Leader
    ensures RaftNode.Campaign(Work(n, out), t) == Plus(out, RaftNode.Campaign(Work(n, {}), t))
  {
    hide RaftNode.BecomePreCandidate, RaftNode.BecomeCandidate, RaftNode.Poll, RaftNode.BecomeLeader, LastTerm;
    CandidateKeeps(n);
    CampaignForTermAdds(if t.PreElection? then RaftNode.Poll(RaftNode.BecomePreCandidate(n), n.id, true) else n, out,
                        if t.PreElection? then Election else t);
  }

  /** Progress while the voters outside `ids` have been marked inactive. */
  function Rested(n: Node, ids: set<Id>): map<Id, Progress> {
    map j | j in n.prs :: if j == n.id || j in ids then n.prs[j] else n.prs[j].(recentActive := false)
  }

  lemma RestedOneMore(n: Node, ids: set<Id>, j: Id)
    requires j in n.prs && j in ids
    ensures j in Rested(n, ids) && Rested(n, ids)[j] == n.prs[j]
    ensures Rested(n, ids - {j})
         == if j == n.id then Rested(n, ids) else Rested(n, ids)[j := n.prs[j].(recentActive := false)]
  {
  }

  ghost function ActiveIn(n: Node, ids: set<Id>): set<Id> {
    set j | j in ids && j in n.prs && (j == n.id || n.prs[j].recentActive)
  }

  lemma ActiveOneMore(n: Node, ids: set<Id>, j: Id)
    requires j in n.prs && j !in ids
    ensures |ActiveIn(n, ids + {j})| == |ActiveIn(n, ids)| + if j == n.id || n.prs[j].recentActive then 1 else 0
  {
    assert ActiveIn(n, ids + {j}) == ActiveIn(n, ids) + if j == n.id || n.prs[j].recentActive then {j} else {};
  }

  lemma CommitAndSendKeeps(cfg: Config, n: Node, from: Id, oldPaused: bool)
    requires from in n.prs && Member(n)
    ensures var n' := RaftNode.CommitAndSend(cfg, n, from, oldPaused).n;
            from in n'.prs && n'.id == n.id && n'.term == n.term && n'.log == n.log && n'.transferee == n.transferee
  {
  }

  lemma {:induction false} SendAllKeeps(cfg: Config, w: Work, to: Id)
    requires to in w.n.prs
    ensures var n' := SendAll(cfg, w, to).n;
            to in n'.prs && n'.id == w.n.id && n'.term == w.n.term && n'.log == w.n.log && n'.transferee == w.n.transferee
    decreases |w.n.log| + 1 - w.n.prs[to].next, if w.n.prs[to].paused then 0 else 1
  {
    if Sends(cfg, w.n, w.n.prs[to], false) { SendAllKeeps(cfg, SendAppend(cfg, w, to, false), to); }
  }

  lemma LeaderAckReadAdds(w: Work, out: set<Msg>, from: Id, ctx: Ctx)
    ensures LeaderAckRead(Plus(out, w), from, ctx) == Plus(out, LeaderAckRead(w, from, ctx))
  {
    var pending := RaftNode.AckRead(w.n.pending, ctx, from);
    var k := FindRead(pending, ctx);
    if k < |pending| {
      ReleaseReadsAdds(w.(n := w.n.(pending := pending[k + 1..])), out, pending[..k + 1]);
    }
  }

  ghost function GrantedIn(votes: map<Id, bool>, ids: set<Id>): set<Id> { set j | j in ids && j in votes && votes[j] }

  lemma GrantedOneMore(votes: map<Id, bool>, ids: set<Id>, j: Id)
    requires j in votes && j !in ids
    ensures |GrantedIn(votes, ids + {j})| == |GrantedIn(votes, ids)| + if votes[j] then 1 else 0
  {
    assert GrantedIn(votes, ids + {j}) == GrantedIn(votes, ids) + if votes[j] then {j} else {};
  }

  method CountGranted(votes: map<Id, bool>) returns (granted: nat)
    ensures granted == |GrantedIn(votes, votes.Keys)|
  {
    granted := 0;
    var ids := votes.Keys;
    while ids != {}
      invariant ids <= votes.Keys && granted == |GrantedIn(votes, votes.Keys - ids)|
      decreases |ids|
    {
      var j :| j in ids;
      GrantedOneMore(votes, votes.Keys - ids, j);
      assert votes.Keys - (ids - {j}) == votes.Keys - ids + {j};
      if votes[j] { granted := granted + 1; }
      ids := ids - {j};
    }
    assert votes.Keys - ids == votes.Keys;
  }

  function VoteRequest(n: Node, pre: bool, transfer: bool, to: Id): Msg {
    if pre then MsgPreVote(n.term + 1, n.id, to, |n.log|, LastTerm(n.log))
    else MsgVote(n.term, n.id, to, |n.log|, LastTerm(n.log), transfer)
  }

  /** The messages once the voters in `ids` have been asked. */
  function Asked(out: set<Msg>, n: Node, pre: bool, transfer: bool, ids: set<Id>): set<Msg> {
    out + set j | j in ids && j != n.id :: VoteRequest(n, pre, transfer, j)
  }

  /** Becoming a candidate keeps a node a member, and not a leader. */
  lemma CandidateKeeps(n: Node)
    requires Member(n) && n.role != Leader
    ensures var n' := RaftNode.Poll(RaftNode.BecomePreCandidate(n), n.id, true); Member(n') && n'.role == PreCandidate
    ensures var n' := RaftNode.Poll(RaftNode.BecomeCandidate(n), n.id, true); Member(n') && n'.role == Candidate
  {
  }

  lemma AskedNone(out: set<Msg>, n: Node, pre: bool, transfer: bool)
    ensures Asked(out, n, pre, transfer, {}) == out
  {
  }

  lemma AskedOneMore(out: set<Msg>, n: Node, pre: bool, transfer: bool, ids: set<Id>, j: Id)
    ensures Asked(out, n, pre, transfer, ids + {j})
         == if j == n.id then Asked(out, n, pre, transfer, ids)
            else Asked(out, n, pre, transfer, ids) + {VoteRequest(n, pre, transfer, j)}
  {
  }

  lemma AskedAll(out: set<Msg>, n: Node, transfer: bool)
    ensures Asked(out, n, true, transfer, n.prs.Keys)
         == out + set j | j in n.prs && j != n.id :: MsgPreVote(n.term + 1, n.id, j, |n.log|, LastTerm(n.log))
    ensures Asked(out, n, false, transfer, n.prs.Keys)
         == out + set j | j in n.prs && j != n.id :: MsgVote(n.term, n.id, j, |n.log|, LastTerm(n.log), transfer)
  {
    hide LastTerm;
  }
}
