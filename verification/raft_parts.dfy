/** The objects of raft/log.go, raft/progress.go and raft/read_only.go in the place of the values that
    RaftNode keeps: the handlers that use them do what the functions of RaftNode say, and a log that
    has been compacted cannot be told from one that has not. */
module RaftParts {
  import opened RaftTypes
  import opened Logs
  import opened RaftNode
  import RaftLogs
  import InflightWindow
  import ReadOnlyQueue

  /** The object holds the log of n, perhaps without what has been compacted. */
  ghost predicate Keeps(s: RaftLogs.LogState, n: Node) {
    s.view.offset <= |n.log| && s.view == Plain(n.log).Dropped(s.view.offset) && s.committed == n.committed
  }

  lemma SameTerms(log: seq<Entry>, offset: nat, i: nat)
    requires offset <= |log| && offset <= i
    ensures Plain(log).Dropped(offset).Term(i) == Plain(log).Term(i)
  {
  }

  lemma {:induction false} SameConflict(log: seq<Entry>, offset: nat, es: seq<Entry>, from: nat)
    requires offset <= |log| && Contiguous(es, from) && offset < from
    ensures FindConflict(Plain(log).Dropped(offset), es) == FindConflict(Plain(log), es)
    decreases |es|
  {
    if es != [] {
      SameTerms(log, offset, es[0].index);
      SameConflict(log, offset, es[1..], from + 1);
    }
  }

  lemma SameAppend(log: seq<Entry>, offset: nat, more: seq<Entry>)
    requires more != [] && offset < more[0].index <= |log| + 1
    ensures var whole := Plain(log).Appended(more);
            && whole == Plain(log[..more[0].index - 1] + more) && offset <= |whole.ents|
            && Plain(log).Dropped(offset).Appended(more) == whole.Dropped(offset)
  {
    var k := more[0].index - 1;
    assert (log[..k] + more)[offset..] == log[offset..][..k - offset] + more;
  }

  /** Merging above the compacted part is merging into the whole log. */
  lemma SameMerge(log: seq<Entry>, offset: nat, index: nat, es: seq<Entry>)
    requires offset <= index <= |log| && Contiguous(es, index + 1)
    ensures var whole := Merged(Plain(log), index, es);
            && whole == Plain(whole.ents) && offset <= |whole.ents|
            && Merged(Plain(log).Dropped(offset), index, es) == whole.Dropped(offset)
  {
    SameConflict(log, offset, es, index + 1);
    ConflictIsFirst(Plain(log), index, es);
    var ci := FindConflict(Plain(log), es);
    if ci != 0 {
      assert es[ci - index - 1..][0].index == ci;
      hide FindConflict, Log.Appended, Log.Dropped, Contiguous, Holds;
      SameAppend(log, offset, es[ci - index - 1..]);
    }
  }

  /** handleAppendEntries (raft/raft.go:1350-1364) on the log object. */
  method HandleAppend(l: RaftLogs.RaftLog, ghost n: Node, id: Id, term: nat, m: Msg) returns (reply: Msg)
    requires m.MsgApp? && l.Valid() && Keeps(l.State(), n) && n.id == id && n.term == term
    requires RaftNode.HandleAppend(n, m).Done?
    modifies l`committed, l.unstable
    ensures l.Valid() && l.View().offset == old(l.View().offset)
    ensures var w := RaftNode.HandleAppend(n, m).value; Keeps(l.State(), w.n) && w.out == {reply}
  {
    hide FindConflict, Merged, Contiguous;
    if m.index < l.committed { return MsgAppResp(term, id, m.from, l.committed, false, 0); }
    SameTerms(n.log, l.View().offset, m.index);
    if Plain(n.log).MatchTerm(m.index, m.logTerm) {
      SameConflict(n.log, l.View().offset, m.entries, m.index + 1);
      SameMerge(n.log, l.View().offset, m.index, m.entries);
    }
    var lastnewi, ok := l.MaybeAppend(m.index, m.logTerm, m.commit, m.entries);
    if ok {
      reply := MsgAppResp(term, id, m.from, lastnewi, false, 0);
    } else {
      reply := MsgAppResp(term, id, m.from, m.index, true, l.LastIndex());
    }
  }

  // ---------------------------------------------------------------- the window of a peer

  ghost predicate Watches(ins: InflightWindow.Inflights, cfg: Config, pr: Progress)
    reads ins, ins.buffer
  {
    ins.Valid() && ins.size == cfg.maxInflight && ins.Contents() == pr.ins
  }

  /** maybeSendAppend as far as the window goes (raft/raft.go:522-633). */
  method SendAppend(ins: InflightWindow.Inflights, cfg: Config, ghost w: Work, log: seq<Entry>, pr: Progress, to: Id)
    requires to in w.n.prs && w.n.prs[to] == pr && w.n.log == log && Watches(ins, cfg, pr)
    modifies ins, ins.buffer
    ensures ins.buffer == old(ins.buffer) || fresh(ins.buffer)
    ensures var w' := RaftNode.SendAppend(cfg, w, to, true); to in w'.n.prs && Watches(ins, cfg, w'.n.prs[to])
  {
    if pr.state == Probe || !ins.Full() {
      var es := EntriesFrom(cfg, log, pr.next);
      if |es| > 0 && pr.state == Replicate { ins.Add(pr.next - 1 + |es|); }
    }
  }

  /** A heartbeat response frees one place of a full window, which may then be used to send
      (raft/raft.go:1147-1159). */
  method OnHeartbeatResp(ins: InflightWindow.Inflights, cfg: Config, n: Node, m: Msg)
    requires m.MsgHeartbeatResp? && m.from in n.prs && Member(n) && Watches(ins, cfg, n.prs[m.from])
    modifies ins, ins.buffer
    ensures var w := RaftNode.LeaderHeartbeatResp(cfg, n, m); m.from in w.n.prs && Watches(ins, cfg, w.n.prs[m.from])
  {
    hide EntriesFrom, LeaderAckRead, RaftNode.SendAppend;
    var pr := n.prs[m.from].(recentActive := true, paused := false);
    if pr.state == Replicate && ins.count > 0 && ins.Full() {
      ins.FreeFirstOne();
      pr := pr.(ins := FreeTo(pr.ins, pr.ins[0]));
    }
    ghost var w := Work(SetProgress(n, m.from, pr), {});
    if pr.matched < |n.log| {
      SendAppend(ins, cfg, w, n.log, pr, m.from);
      w := RaftNode.SendAppend(cfg, w, m.from, true);
    }
    AckKeepsProgress(w, m.from, m.ctx);
  }

  lemma {:induction false} ReleaseKeepsProgress(w: Work, rs: seq<PendingRead>)
    ensures ReleaseReads(w, rs).n.prs == w.n.prs
    decreases |rs|
  {
    if rs != [] { ReleaseKeepsProgress(ReleaseRead(w, rs[0]), rs[1..]); }
  }

  lemma AckKeepsProgress(w: Work, from: Id, ctx: Ctx)
    ensures LeaderAckRead(w, from, ctx).n.prs == w.n.prs
  {
    hide ReleaseReads;
    var pending := RaftNode.AckRead(w.n.pending, ctx, from);
    var k := FindRead(pending, ctx);
    if k < |pending| { ReleaseKeepsProgress(w.(n := w.n.(pending := pending[k + 1..])), pending[..k + 1]); }
  }

  // ---------------------------------------------------------------- the queue of reads

  /** A confirmed read is released with all that wait before it (raft/raft.go:1163-1177). */
  method AckRead(ro: ReadOnlyQueue.ReadOnly, ghost w: Work, quorum: nat, from: Id, ctx: Ctx) returns (rss: seq<PendingRead>)
    requires ro.Valid() && ro.Contents() == w.n.pending && quorum == QuorumSize(w.n)
    modifies ro
    ensures ro.Valid() && LeaderAckRead(w, from, ctx) == ReleaseReads(w.(n := w.n.(pending := ro.Contents())), rss)
  {
    var acks := ro.RecvAck(ctx, from);
    if acks < quorum { return []; }
    rss := ro.Advance(ctx);
  }
}
