/** What a leader does besides replicating: it records every append in flight, steps down when it has lost
    touch with a majority, and hands its office over on request. */
module Leadership {
  import opened RaftTypes
  import opened Logs
  import opened RaftNode
  import opened Elections
  import CatchUp
  import Proposals

  // ---------------------------------------------------------------- appends in flight

  /** Sending to a replicating peer records the last position sent, behind those already in flight, and
      moves Next past it; to a probed peer it allows no other append until there is an answer. */
  lemma SendRecords(cfg: Config, w: Work, j: Id, sendIfEmpty: bool)
    requires j in w.n.prs
    ensures var n, w' := w.n, SendAppend(cfg, w, j, sendIfEmpty);
            forall m | m in w'.out && m !in w.out :: m.MsgApp? && m.to == j && Recorded(n.prs[j], w'.n.prs[j], m)
  {
    hide EntriesFrom;
  }

  /** What sending message m did to the progress of its receiver. */
  ghost predicate Recorded(pr: Progress, pr': Progress, m: Msg)
    requires m.MsgApp?
  {
    && m.index == pr.next - 1
    && if m.entries == [] then pr' == pr
       else if pr.state == Probe then pr' == pr.(paused := true)
       else pr' == pr.(next := m.index + |m.entries| + 1, ins := pr.ins + [m.index + |m.entries|])
  }

  /** And the other way round: when nothing is sent nothing changes. */
  lemma SilenceChangesNothing(cfg: Config, w: Work, j: Id, sendIfEmpty: bool)
    requires j in w.n.prs && SendAppend(cfg, w, j, sendIfEmpty).out == w.out
    ensures SendAppend(cfg, w, j, sendIfEmpty).n == w.n || AppendMsg(cfg, w.n, j, w.n.prs[j]) in w.out
  {
    hide EntriesFrom;
  }

  /** An append goes out exactly if the peer is not paused and there is something to say. */
  lemma SendsUnlessPaused(cfg: Config, w: Work, j: Id, sendIfEmpty: bool)
    requires j in w.n.prs
    ensures var n, pr := w.n, w.n.prs[j];
            var paused := if pr.state == Probe then pr.paused else |pr.ins| == cfg.maxInflight;
            var m := MsgApp(n.term, n.id, j, pr.next - 1, TermAt(n.log, pr.next - 1), n.committed, CatchUp.Entries(cfg, n.log, pr.next));
            SendAppend(cfg, w, j, sendIfEmpty).out ==
              if !paused && (sendIfEmpty || pr.next <= |n.log|) then w.out + {m} else w.out
  {
    CatchUp.EntriesAre(cfg, w.n.log, w.n.prs[j].next);
    CatchUp.SameEntries(cfg, w.n.log, w.n.prs[j].next);
    hide EntriesFrom, CatchUp.Entries;
  }

  /** A proposal goes out to every peer that is not paused, at once, from where that peer stands. */
  lemma ProposalIsSent(cfg: Config, n: Node, data: seq<string>, j: Id)
    requires Member(n) && n.role == Leader && n.transferee == NONE && data != [] && j in n.prs && j != n.id
    requires n.prs[j].next <= |n.log| + 1 && !(if n.prs[j].state == Probe then n.prs[j].paused else |n.prs[j].ins| == cfg.maxInflight)
    ensures var o := Step(cfg, n, MsgProp(NONE, n.id, data));
            && o.Done?
            && exists m :: m in o.value.out && m.MsgApp? && m.to == j && m.term == n.term && m.index == n.prs[j].next - 1 && m.entries != []
  {
    hide MaybeCommit;
    var n1 := AppendEntry(n, data);
    AppendKeepsPeer(n, data, j);
    Proposals.AppendEntryAppends(n, data);
    hide AppendEntry;
    CatchUp.EntriesAre(cfg, n1.log, n1.prs[j].next);
    CatchUp.SameEntries(cfg, n1.log, n1.prs[j].next);
    hide EntriesFrom, CatchUp.Entries;
    var m := AppendMsg(cfg, n1, j, n1.prs[j]);
    assert Sends(cfg, n1, n1.prs[j], true);
    assert m in BcastAppend(cfg, Work(n1, {})).out;
  }

  lemma AppendKeepsPeer(n: Node, data: seq<string>, j: Id)
    requires Member(n) && j in n.prs && j != n.id
    ensures j in AppendEntry(n, data).prs && AppendEntry(n, data).prs[j] == n.prs[j]
  {
  }

  predicate Paused(cfg: Config, pr: Progress) { if pr.state == Probe then pr.paused else |pr.ins| == cfg.maxInflight }

  lemma {:induction false} SendAllDrains(cfg: Config, w: Work, to: Id)
    requires to in w.n.prs
    ensures var w' := SendAll(cfg, w, to); to in w'.n.prs && (Paused(cfg, w'.n.prs[to]) || w'.n.prs[to].next > |w'.n.log|)
    decreases |w.n.log| + 1 - w.n.prs[to].next, if w.n.prs[to].paused then 0 else 1
  {
    CatchUp.EntriesAre(cfg, w.n.log, w.n.prs[to].next);
    CatchUp.SameEntries(cfg, w.n.log, w.n.prs[to].next);
    hide CatchUp.Entries, AppendMsg;
    if Sends(cfg, w.n, w.n.prs[to], false) { SendAllDrains(cfg, SendAppend(cfg, w, to, false), to); }
  }

  /** After an acknowledgement that is news the leader sends on until the window is full or there is nothing left. */
  lemma AckDrains(cfg: Config, n: Node, j: Id, to: Id, index: nat)
    requires Member(n) && n.role == Leader && j in n.prs && n.term > 0 && n.prs[j].matched < index
    ensures var o := Step(cfg, n, MsgAppResp(n.term, j, to, index, false, 0));
            o.Done? && j in o.value.n.prs && (Paused(cfg, o.value.n.prs[j]) || o.value.n.prs[j].next > |n.log|)
  {
    hide LeaderMatched, CatchUp.Noted, Step, IsPaused, MaybeCommit, SendAll, CommitAndSend;
    CatchUp.AckIsNoted(cfg, n, j, to, index);
    CatchUp.NotedIs(n, j, index);
    var n1, paused := CatchUp.Noted(n, j, index), IsPaused(cfg, n.prs[j].(recentActive := true));
    CatchUp.CommitKeepsProgress(n1);
    CatchUp.MatchedSends(cfg, n1, j, paused);
    SendAllDrains(cfg, CommitAndSend(cfg, n1, j, paused), j);
  }

  /** What it newly commits it tells every peer that is not paused. */
  lemma CommitIsAnnounced(cfg: Config, n: Node, j: Id, to: Id, index: nat, x: Id)
    requires Member(n) && n.role == Leader && j in n.prs && n.term > 0 && n.prs[j].matched < index
    requires x in n.prs && x != n.id && x != j && !Paused(cfg, n.prs[x])
    ensures var o := Step(cfg, n, MsgAppResp(n.term, j, to, index, false, 0));
            && o.Done?
            && (o.value.n.committed != n.committed ==>
                  exists m :: m in o.value.out && m.MsgApp? && m.to == x && m.commit == o.value.n.committed && m.index == n.prs[x].next - 1)
  {
    hide LeaderMatched, CatchUp.Noted, Step, IsPaused, SendAll, EntriesFrom;
    CatchUp.AckIsNoted(cfg, n, j, to, index);
    CatchUp.NotedIs(n, j, index);
    var n1, paused := CatchUp.Noted(n, j, index), IsPaused(cfg, n.prs[j].(recentActive := true));
    CatchUp.CommitKeepsProgress(n1);
    CommitMoves(n1);
    CatchUp.MatchedSends(cfg, n1, j, paused);
    hide MaybeCommit;
    var w1 := CommitAndSend(cfg, n1, j, paused);
    CatchUp.SendAllOnlySends(cfg, w1, j);
    var c := MaybeCommit(n1).0;
    if c.committed != n.committed {
      assert w1 == BcastAppend(cfg, Work(c, {}));
      NotPaused(cfg, n.prs[x]);
      assert AppendMsg(cfg, c, x, c.prs[x]) in w1.out;
    }
  }

  lemma NotPaused(cfg: Config, pr: Progress)
    ensures IsPaused(cfg, pr) <==> Paused(cfg, pr)
  {
  }

  lemma CommitMoves(n: Node)
    requires Member(n)
    ensures MaybeCommit(n).1 <==> MaybeCommit(n).0.committed != n.committed
  {
  }

  // ---------------------------------------------------------------- losing touch

  /** The voters heard of since the last check, and the leader itself. */
  function Heard(n: Node): set<Id> { set j | j in n.prs && (j == n.id || n.prs[j].recentActive) }

  /** A leader that has not heard from a majority since the last check becomes a follower of its term; one
      that has goes on and starts counting again. */
  lemma StepsDownWhenAlone(cfg: Config, n: Node)
    requires Member(n) && n.role == Leader
    ensures var o := Step(cfg, n, MsgCheckQuorum);
            && o.Done? && o.value.out == {} && o.value.n.term == n.term && o.value.n.log == n.log && o.value.n.vote == n.vote
            && if |Heard(n)| >= |n.prs| / 2 + 1 then
                 && o.value.n == n.(prs := o.value.n.prs) && o.value.n.prs.Keys == n.prs.Keys
                 && forall j | j in n.prs :: o.value.n.prs[j] == if j == n.id then n.prs[j] else n.prs[j].(recentActive := false)
               else o.value.n.role == Follower && o.value.n.lead == NONE && o.value.n.pending == []
  {
    assert ActiveVoters(n) == Heard(n);
  }

  /** Any answer of a peer counts as hearing from it. */
  lemma AnswersAreHeard(cfg: Config, n: Node, j: Id, to: Id, ctx: Ctx)
    requires Member(n) && n.role == Leader && j in n.prs && n.term > 0
    ensures var o := Step(cfg, n, MsgHeartbeatResp(n.term, j, to, ctx)); o.Done? && j in o.value.n.prs && o.value.n.prs[j].recentActive
  {
    hide LeaderAckRead, FreeTo, EntriesFrom;
    var pr := n.prs[j].(recentActive := true, paused := false);
    var pr' := if pr.state == Replicate && pr.ins != [] && |pr.ins| == cfg.maxInflight
               then pr.(ins := FreeTo(pr.ins, pr.ins[0])) else pr;
    var w := Work(SetProgress(n, j, pr'), {});
    var w' := if pr'.matched < |n.log| then SendAppend(cfg, w, j, true) else w;
    CatchUp.AckKeeps(w', j, ctx);
  }

  // ---------------------------------------------------------------- handing over

  /** A leader asked to hand over to a peer remembers it and takes no proposals. A peer that has everything is
      told to stand at once; any other is sent what it lacks first, and told once it has it. Asking for the
      leader itself only calls off a transfer; asking again changes nothing. */
  lemma TransferBegins(cfg: Config, n: Node, term: nat, j: Id, to: Id)
    requires Member(n) && n.role == Leader && j in n.prs && j != NONE && (term == 0 || term == n.term)
    ensures var o := Step(cfg, n, MsgTransferLeader(term, j, to));
            && o.Done?
            && if n.transferee == j then o.value == Work(n, {})
               else if j == n.id then o.value == Work(n.(transferee := NONE), {})
               else
                 && o.value.n.transferee == j && o.value.n.elapsed == 0 && o.value.n.role == Leader && o.value.n.log == n.log
                 && ((exists m :: m in o.value.out && m.MsgTimeoutNow?) <==> n.prs[j].matched == |n.log|)
                 && (n.prs[j].matched == |n.log| ==> o.value.out == {MsgTimeoutNow(n.term, n.id, j)})
                 && (n.prs[j].matched != |n.log| && !(if n.prs[j].state == Probe then n.prs[j].paused else |n.prs[j].ins| == cfg.maxInflight) ==>
                       exists m :: m in o.value.out && m.MsgApp? && m.to == j && m.index == n.prs[j].next - 1)
  {
    hide EntriesFrom;
    if n.transferee != j && j != n.id {
      var n' := n.(elapsed := 0, transferee := j);
      if n.prs[j].matched != |n.log| {
        assert forall m | m in SendAppend(cfg, Work(n', {}), j, true).out :: m == AppendMsg(cfg, n', j, n'.prs[j]);
      }
    }
  }

  /** The peer that leadership is to go to is told to stand as soon as it is known to have everything. */
  lemma TransfereeIsTold(cfg: Config, n: Node, j: Id, to: Id)
    requires Member(n) && n.role == Leader && j in n.prs && n.term > 0 && j != NONE && n.transferee == j
    requires n.prs[j].matched < |n.log|
    ensures var o := Step(cfg, n, MsgAppResp(n.term, j, to, |n.log|, false, 0));
            o.Done? && MsgTimeoutNow(n.term, n.id, j) in o.value.out
  {
    hide LeaderMatched, CatchUp.Noted, Step, IsPaused, MaybeCommit;
    CatchUp.AckIsNoted(cfg, n, j, to, |n.log|);
    CatchUp.NotedIs(n, j, |n.log|);
    MatchedTells(cfg, CatchUp.Noted(n, j, |n.log|), j, IsPaused(cfg, n.prs[j].(recentActive := true)));
  }

  lemma MatchedTells(cfg: Config, n: Node, from: Id, oldPaused: bool)
    requires from in n.prs && Member(n) && from == n.transferee && n.prs[from].matched == |n.log|
    ensures MsgTimeoutNow(n.term, n.id, from) in LeaderMatched(cfg, n, from, oldPaused).out
  {
    hide MaybeCommit, SendAppend, SendAll;
    CatchUp.CommitKeepsProgress(n);
    CatchUp.MatchedSends(cfg, n, from, oldPaused);
  }

  /** A follower passes the request on in its own name. */
  lemma FollowerForwardsTransfer(cfg: Config, n: Node, j: Id, to: Id)
    requires Member(n) && n.role == Follower
    ensures Step(cfg, n, MsgTransferLeader(0, j, to)) ==
            Done(Work(n, if n.lead == NONE then {} else {MsgTransferLeader(n.term, n.id, n.lead)}))
  {
  }

  /** While a transfer is under way no proposal is taken. */
  lemma NoProposalsInTransfer(cfg: Config, n: Node, data: seq<string>)
    requires Member(n) && n.role == Leader && n.transferee != NONE && data != []
    ensures Step(cfg, n, MsgProp(NONE, n.id, data)) == Done(Work(n, {}))
  {
  }

  /** A message of an old term changes nothing; with checkQuorum or preVote an old leader is told of the new term. */
  lemma OldTermIgnored(cfg: Config, n: Node, m: Msg)
    requires Member(n) && !Termless(m) && 0 < m.term < n.term
    ensures var o := Step(cfg, n, m);
            && o.Done? && o.value.n == n
            && o.value.out == if (cfg.checkQuorum || cfg.preVote) && (m.MsgHeartbeat? || m.MsgApp?) then {MsgAppResp(n.term, n.id, m.from, 0, false, 0)}
                              else if m.MsgPreVote? then {MsgPreVoteResp(n.term, n.id, m.from, true)} else {}
  {
  }

  /** A message of a later term makes any node a follower of it before anything else, except for pre-votes and
      votes that a lease keeps away. */
  lemma LaterTermFollowed(cfg: Config, n: Node, m: Msg)
    requires Member(n) && !Termless(m) && m.term > n.term && !m.MsgPreVote? && !(m.MsgPreVoteResp? && !m.reject)
    requires !(m.MsgVote? && !m.transfer && InLease(cfg, n))
    ensures Step(cfg, n, m) == Dispatch(cfg, BecomeFollower(n, m.term, if m.MsgApp? || m.MsgHeartbeat? then m.from else NONE), m)
    ensures var f := BecomeFollower(n, m.term, NONE);
            && f.term == m.term && f.vote == NONE && f.role == Follower && f.log == n.log && f.committed == n.committed
            && f.pending == [] && f.votes == map[] && f.transferee == NONE
  {
  }
}
