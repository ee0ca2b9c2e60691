/** No run gets stuck short of commitment: wherever a run has come, its leader can bring any peer up to
    date that has not gone further, and with a majority of them it can commit what it is handed. */
module CatchUp {
  import opened RaftTypes
  import opened Logs
  import opened RaftNode
  import opened Protocol
  import opened ProtocolReplication
  import opened Refinement
  import opened Cluster
  import opened Safety
  import opened Elections
  import opened Electability
  import SizeLimit
  import RaftLogs
  import Proposals
  import Quorums

  // ---------------------------------------------------------------- one round, message by message

  /** The part of a leader that this is about: its role, term and log, and one peer's progress. */
  ghost predicate Steady(n: Node, n': Node) {
    n'.id == n.id && n'.role == n.role && n'.term == n.term && n'.log == n.log && n'.prs.Keys == n.prs.Keys
  }

  /** A peer reported unreachable is probed from its Match on. */
  lemma UnreachableProbes(cfg: Config, n: Node, j: Id)
    requires Member(n) && n.role == Leader && j in n.prs
    ensures var o := Step(cfg, n, MsgUnreachable(j));
            && o.Done? && Steady(n, o.value.n) && o.value.out == {} && o.value.n.committed == n.committed
            && (forall x | x in n.prs && x != j :: o.value.n.prs[x] == n.prs[x])
            && var pr, pr' := n.prs[j], o.value.n.prs[j];
               && pr'.state == Probe && pr'.matched == pr.matched
               && pr'.next == if pr.state == Replicate then pr.matched + 1 else pr.next
  {
  }

  /** The newest read that waits, or none. */
  function NewestRead(n: Node): Ctx { if n.pending == [] then "" else n.pending[|n.pending| - 1].ctx }

  /** A heartbeat goes to every peer, with what both sides have committed and the newest read. */
  lemma BeatAsks(cfg: Config, n: Node)
    requires Member(n) && n.role == Leader
    ensures Step(cfg, n, MsgBeat) ==
            Done(Work(n, set j | j in n.prs && j != n.id ::
              MsgHeartbeat(n.term, n.id, j, Min(n.prs[j].matched, n.committed), NewestRead(n))))
  {
  }

  /** Whoever is not ahead of the leader follows it and confirms. */
  lemma HeartbeatFollowed(cfg: Config, p: Node, m: Msg)
    requires Member(p) && m.MsgHeartbeat? && p.term <= m.term && m.term > 0 && (p.term == m.term ==> p.role != Leader)
    requires m.commit <= |p.log|
    ensures var o := Step(cfg, p, m);
            && o.Done? && o.value.n.term == m.term && o.value.n.role == Follower && o.value.n.log == p.log && o.value.n.id == p.id
            && o.value.n.committed == Max(p.committed, m.commit)
            && o.value.out == {MsgHeartbeatResp(m.term, p.id, m.from, m.ctx)}
  {
  }

  ghost function Entries(cfg: Config, log: seq<Entry>, next: Pos): seq<Entry> {
    if next > |log| then [] else SizeLimit.LimitSize(cfg.size, log[next - 1..], cfg.maxMsgSize)
  }

  lemma EntriesAre(cfg: Config, log: seq<Entry>, next: Pos)
    ensures var es := Entries(cfg, log, next);
            && (next <= |log| ==> es != [] && next - 1 + |es| <= |log| && es == log[next - 1..next - 1 + |es|])
            && (next > |log| ==> es == [])
  {
    if next <= |log| {
      hide SizeLimit.LimitSize;
      var rest := log[next - 1..];
      SizeLimit.LimitSizeIsPrefix(cfg.size, rest, cfg.maxMsgSize);
      var es := SizeLimit.LimitSize(cfg.size, rest, cfg.maxMsgSize);
      assert rest[..|es|] == log[next - 1..next - 1 + |es|];
    }
  }

  /** A confirmation from a probed peer that is behind sends it an append, right after what is known. */
  lemma RespSends(cfg: Config, n: Node, j: Id, to: Id, ctx: Ctx)
    requires Member(n) && n.role == Leader && j in n.prs && n.term > 0
    requires n.prs[j].state == Probe && n.prs[j].matched < |n.log|
    ensures var o := Step(cfg, n, MsgHeartbeatResp(n.term, j, to, ctx));
            && o.Done? && Steady(n, o.value.n) && o.value.n.committed == n.committed
            && var pr, pr' := n.prs[j], o.value.n.prs[j];
               && pr'.state == Probe && pr'.matched == pr.matched && pr'.next == pr.next
               && MsgApp(n.term, n.id, j, pr.next - 1, TermAt(n.log, pr.next - 1), n.committed, Entries(cfg, n.log, pr.next)) in o.value.out
  {
    hide SendAppend, LeaderAckRead, Entries;
    var pr := n.prs[j].(recentActive := true, paused := false);
    var w := Work(SetProgress(n, j, pr), {});
    ProbeSend(cfg, w, j);
    AckKeeps(SendAppend(cfg, w, j, true), j, ctx);
  }

  /** An append to a probed peer that is not paused carries what comes next. */
  lemma ProbeSend(cfg: Config, w: Work, j: Id)
    requires j in w.n.prs && w.n.prs[j].state == Probe && !w.n.prs[j].paused
    ensures var n, w' := w.n, SendAppend(cfg, w, j, true);
            && w'.n == n.(prs := w'.n.prs) && w'.n.prs.Keys == n.prs.Keys
            && w'.n.prs[j] == n.prs[j].(paused := Entries(cfg, n.log, n.prs[j].next) != [])
            && (forall x | x in n.prs && x != j :: w'.n.prs[x] == n.prs[x])
            && w'.out == w.out + {MsgApp(n.term, n.id, j, n.prs[j].next - 1, TermAt(n.log, n.prs[j].next - 1), n.committed, Entries(cfg, n.log, n.prs[j].next))}
  {
    var n := w.n;
    SameEntries(cfg, n.log, n.prs[j].next);
    hide Entries, EntriesFrom;
  }

  lemma SameEntries(cfg: Config, log: seq<Entry>, next: Pos)
    ensures EntriesFrom(cfg, log, next) == Entries(cfg, log, next)
  {
    hide SizeLimit.LimitSize;
  }

  lemma {:induction false} ReleaseKeeps(w: Work, rs: seq<PendingRead>)
    ensures var w' := ReleaseReads(w, rs);
            w'.n == w.n.(readStates := w'.n.readStates) && w.out <= w'.out
    decreases |rs|
  {
    if rs != [] { ReleaseKeeps(ReleaseRead(w, rs[0]), rs[1..]); }
  }

  lemma AckKeeps(w: Work, from: Id, ctx: Ctx)
    ensures var w' := LeaderAckRead(w, from, ctx);
            w'.n == w.n.(pending := w'.n.pending, readStates := w'.n.readStates) && w.out <= w'.out
  {
    hide ReleaseReads, AckRead, FindRead;
    var pending := AckRead(w.n.pending, ctx, from);
    var k := FindRead(pending, ctx);
    if k < |pending| { ReleaseKeeps(w.(n := w.n.(pending := pending[k + 1..])), pending[..k + 1]); }
  }

  /** What a follower answers to an append: what it has committed, that it does not match, or how far it now agrees. */
  lemma AppendAnswered(cfg: Config, p: Node, m: Msg)
    requires Member(p) && p.role == Follower && m.MsgApp? && m.term == p.term && p.term > 0 && Step(cfg, p, m).Done?
    ensures var n', out := Step(cfg, p, m).value.n, Step(cfg, p, m).value.out;
            && n'.term == p.term && n'.role == Follower && n'.id == p.id && n'.prs == p.prs
            && if m.index < p.committed then n'.log == p.log && out == {MsgAppResp(p.term, p.id, m.from, p.committed, false, 0)}
               else if TermAt(p.log, m.index) != m.logTerm then
                 n'.log == p.log && out == {MsgAppResp(p.term, p.id, m.from, m.index, true, |p.log|)}
               else
                 && out == {MsgAppResp(p.term, p.id, m.from, m.index + |m.entries|, false, 0)}
                 && n'.committed == Max(p.committed, Min(m.commit, m.index + |m.entries|))
                 && m.index + |m.entries| <= |n'.log|
                 && (forall k: nat | k < |m.entries| :: TermAt(n'.log, m.index + 1 + k) == m.entries[k].term)
  {
    hide Merged, FindConflict;
    if m.index >= p.committed && TermAt(p.log, m.index) == m.logTerm { MergeTakes(p.log, m.index, m.entries); }
  }

  /** A merged log has, at the positions sent, the terms sent. */
  lemma MergeTakes(log: seq<Entry>, index: nat, es: seq<Entry>)
    requires Contiguous(es, index + 1) && index <= |log|
    ensures var l := Merged(Plain(log), index, es);
            && l == Plain(l.ents) && index + |es| <= |l.ents|
            && forall k: nat | k < |es| :: TermAt(l.ents, index + 1 + k) == es[k].term
  {
    hide FindConflict;
    ConflictIsFirst(Plain(log), index, es);
    RaftLogs.MergedHolds(Plain(log), index, es);
    RaftLogs.MergedReaches(Plain(log), index, es);
    var l := Merged(Plain(log), index, es);
    forall k: nat | k < |es| ensures TermAt(l.ents, index + 1 + k) == es[k].term {
      assert l.MatchTerm(es[k].index, es[k].term);
    }
  }

  /** A rejected probe goes back to where the peer's log can match. */
  lemma RejectionProbes(cfg: Config, n: Node, j: Id, to: Id, index: nat, hint: nat)
    requires Member(n) && n.role == Leader && j in n.prs && n.term > 0
    requires n.prs[j].state == Probe && n.prs[j].next == index + 1
    ensures var o := Step(cfg, n, MsgAppResp(n.term, j, to, index, true, hint));
            && o.Done? && Steady(n, o.value.n)
            && var pr, pr' := n.prs[j], o.value.n.prs[j];
               pr'.matched == pr.matched && pr'.state == Probe && pr'.next == Max(Min(index, hint + 1), 1)
  {
    hide SizeLimit.LimitSize;
    var pr := n.prs[j].(recentActive := true, next := Max(Min(index, hint + 1), 1), paused := false);
    var w := SendAppend(cfg, Work(SetProgress(n, j, pr), {}), j, true);
    assert w.n.prs.Keys == n.prs.Keys;
  }

  // Sending changes nothing but how far ahead the leader is of its peers.

  ghost predicate SameMatches(prs: map<Id, Progress>, prs': map<Id, Progress>) {
    prs'.Keys == prs.Keys && forall x | x in prs :: prs'[x].matched == prs[x].matched && prs'[x].state == prs[x].state
  }

  ghost predicate OnlySends(w: Work, w': Work) {
    w'.n == w.n.(prs := w'.n.prs) && SameMatches(w.n.prs, w'.n.prs) && w.out <= w'.out
  }

  lemma SendAppendOnlySends(cfg: Config, w: Work, to: Id, sendIfEmpty: bool)
    requires to in w.n.prs
    ensures OnlySends(w, SendAppend(cfg, w, to, sendIfEmpty))
  {
    hide EntriesFrom;
  }

  lemma BcastOnlySends(cfg: Config, w: Work)
    ensures OnlySends(w, BcastAppend(cfg, w))
  {
    hide EntriesFrom, Sends;
  }

  lemma OnlySendsTwice(a: Work, b: Work, c: Work)
    requires OnlySends(a, b) && OnlySends(b, c)
    ensures OnlySends(a, c)
  {
  }

  lemma {:induction false} SendAllOnlySends(cfg: Config, w: Work, to: Id)
    requires to in w.n.prs
    ensures OnlySends(w, SendAll(cfg, w, to))
    decreases |w.n.log| + 1 - w.n.prs[to].next, if w.n.prs[to].paused then 0 else 1
  {
    hide OnlySends, AppendMsg;
    if Sends(cfg, w.n, w.n.prs[to], false) {
      var w' := SendAppend(cfg, w, to, false);
      SendAppendOnlySends(cfg, w, to, false);
      SendAllOnlySends(cfg, w', to);
      OnlySendsTwice(w, w', SendAll(cfg, w', to));
    } else {
      SendsNothing(w);
    }
  }

  lemma SendsNothing(w: Work)
    ensures OnlySends(w, w)
  {
  }

  /** After an acknowledgement that is news, the leader has tried to commit and then only sent. */
  lemma MatchedCommits(cfg: Config, n: Node, from: Id, oldPaused: bool)
    requires from in n.prs && Member(n)
    ensures OnlySends(Work(MaybeCommit(n).0, {}), LeaderMatched(cfg, n, from, oldPaused))
  {
    hide OnlySends, MaybeCommit, CommitAndSend, SendAll;
    MatchedSends(cfg, n, from, oldPaused);
    OneMoreSent(Work(MaybeCommit(n).0, {}), SendAll(cfg, CommitAndSend(cfg, n, from, oldPaused), from), MsgTimeoutNow(n.term, n.id, from));
  }

  /** It sends, and tells a peer that leadership is to go to once that peer has everything. */
  lemma MatchedSends(cfg: Config, n: Node, from: Id, oldPaused: bool)
    requires from in n.prs && Member(n)
    ensures var w := SendAll(cfg, CommitAndSend(cfg, n, from, oldPaused), from);
            && from in CommitAndSend(cfg, n, from, oldPaused).n.prs
            && OnlySends(Work(MaybeCommit(n).0, {}), w)
            && LeaderMatched(cfg, n, from, oldPaused) ==
               if from == n.transferee && w.n.prs[from].matched == |n.log| then w.Sending(MsgTimeoutNow(n.term, n.id, from)) else w
  {
    hide OnlySends, MaybeCommit, SendAppend, SendAll;
    var n' := MaybeCommit(n).0;
    var w := Work(n', {});
    CommitKeepsProgress(n);
    SendsNothing(w);
    BcastOnlySends(cfg, w);
    SendAppendOnlySends(cfg, w, from, true);
    var w1 := CommitAndSend(cfg, n, from, oldPaused);
    assert OnlySends(w, w1);
    SameKeys(w, w1);
    SendAllOnlySends(cfg, w1, from);
    OnlySendsTwice(w, w1, SendAll(cfg, w1, from));
    SameKeys(w, SendAll(cfg, w1, from));
  }

  lemma CommitKeepsProgress(n: Node)
    requires Member(n)
    ensures MaybeCommit(n).0 == n.(committed := MaybeCommit(n).0.committed)
  {
  }

  lemma SameKeys(w: Work, w': Work)
    requires OnlySends(w, w')
    ensures w'.n.prs.Keys == w.n.prs.Keys
  {
  }

  lemma OneMoreSent(w: Work, w': Work, m: Msg)
    requires OnlySends(w, w')
    ensures OnlySends(w, w'.Sending(m))
  {
  }

  /** The leader once it has taken note of an acknowledgement, before it tries to commit. */
  ghost function Noted(n: Node, j: Id, index: nat): Node
    requires j in n.prs
  {
    var pr := MaybeUpdate(n.prs[j].(recentActive := true), index);
    SetProgress(n, j, if pr.state == Probe then BecomeReplicate(pr) else pr.(ins := FreeTo(pr.ins, index)))
  }

  lemma NotedIs(n: Node, j: Id, index: nat)
    requires j in n.prs && n.prs[j].matched < index
    ensures var n1 := Noted(n, j, index);
            && n1 == n.(prs := n1.prs) && n1.prs.Keys == n.prs.Keys && n1.prs[j].matched == index && n1.prs[j].state == Replicate
            && forall x | x in n.prs && x != j :: n1.prs[x] == n.prs[x]
  {
    hide FreeTo;
  }

  lemma AckIsNoted(cfg: Config, n: Node, j: Id, to: Id, index: nat)
    requires Member(n) && n.role == Leader && j in n.prs && n.term > 0 && n.prs[j].matched < index
    ensures Member(Noted(n, j, index)) && j in Noted(n, j, index).prs
    ensures Step(cfg, n, MsgAppResp(n.term, j, to, index, false, 0)) ==
            Done(LeaderMatched(cfg, Noted(n, j, index), j, IsPaused(cfg, n.prs[j].(recentActive := true))))
  {
    hide LeaderMatched, FreeTo, IsPaused;
  }

  /** An acknowledgement moves Match and Next forward, and only for its sender. */
  lemma AckAdvances(cfg: Config, n: Node, j: Id, to: Id, index: nat)
    requires Member(n) && n.role == Leader && j in n.prs && n.term > 0
    ensures var o := Step(cfg, n, MsgAppResp(n.term, j, to, index, false, 0));
            && o.Done? && Steady(n, o.value.n)
            && o.value.n.prs[j].matched == Max(n.prs[j].matched, index)
            && (forall x | x in n.prs && x != j :: o.value.n.prs[x].matched == n.prs[x].matched)
            && (if index <= n.prs[j].matched then o.value.n.prs[j].next == Max(n.prs[j].next, index + 1)
                else o.value.n.prs[j].state == Replicate)
  {
    if n.prs[j].matched < index {
      hide LeaderMatched, Noted, Step, IsPaused, MaybeCommit;
      NotedIs(n, j, index);
      AckIsNoted(cfg, n, j, to, index);
      var n1 := Noted(n, j, index);
      CommitKeepsProgress(n1);
      MatchedCommits(cfg, n1, j, IsPaused(cfg, n.prs[j].(recentActive := true)));
    } else {
      hide LeaderMatched, FreeTo;
    }
  }

  ghost function AtEnd(n: Node, j: Id): set<Id> { set x | x in n.prs && (x == j || n.prs[x].matched == |n.log|) }

  lemma NotedCommits(n: Node, j: Id)
    requires Member(n) && j in n.prs && n.committed <= |n.log| && n.log != [] && LastTermOf(n.log) == n.term
    requires n.prs[j].matched < |n.log| && |AtEnd(n, j)| >= |n.prs| / 2 + 1 && forall x | x in n.prs :: n.prs[x].matched <= |n.log|
    ensures Member(Noted(n, j, |n.log|)) && MaybeCommit(Noted(n, j, |n.log|)).0.committed == |n.log|
  {
    var k := |n.log|;
    NotedIs(n, j, k);
    hide Noted;
    var n1 := Noted(n, j, k);
    SameSize(n1.prs, n.prs);
    assert Reached(n1.prs, k) == AtEnd(n, j) && Reached(n1.prs, k + 1) == {};
    hide AtEnd, Reached;
    MemberHasQuorum(n1);
    QuorumIndexUnique(n1.prs, QuorumSize(n1), k, QuorumIndex(n1.prs, QuorumSize(n1)));
  }

  /** The acknowledgement that completes a majority at the end of a log that ends in the leader's term commits it all. */
  lemma AckCommits(cfg: Config, n: Node, j: Id, to: Id)
    requires Member(n) && n.role == Leader && j in n.prs && n.term > 0 && n.committed <= |n.log|
    requires n.log != [] && LastTermOf(n.log) == n.term && (forall x | x in n.prs :: n.prs[x].matched <= |n.log|)
    requires n.prs[j].matched < |n.log| && |AtEnd(n, j)| >= |n.prs| / 2 + 1
    ensures var o := Step(cfg, n, MsgAppResp(n.term, j, to, |n.log|, false, 0));
            o.Done? && o.value.n.committed == |n.log|
  {
    hide LeaderMatched, Noted, Step, IsPaused, MaybeCommit, AtEnd;
    AckIsNoted(cfg, n, j, to, |n.log|);
    NotedCommits(n, j);
    MatchedCommits(cfg, Noted(n, j, |n.log|), j, IsPaused(cfg, n.prs[j].(recentActive := true)));
  }

  lemma SameSize(a: map<Id, Progress>, b: map<Id, Progress>)
    requires a.Keys == b.Keys
    ensures |a| == |b|
  {
    assert |a| == |a.Keys| && |b| == |b.Keys|;
  }

  // ---------------------------------------------------------------- one round, in a run

  ghost predicate Leading(c: Cluster, i: Id, T: nat, log: seq<Entry>) {
    i in c.nodes && c.nodes[i].role == Leader && c.nodes[i].term == T && c.nodes[i].log == log
  }

  /** Node j has not gone further than the leader's term. */
  ghost predicate Reachable(c: Cluster, i: Id, j: Id) {
    i in c.nodes && j in c.nodes && j != i && c.nodes[j].term <= c.nodes[i].term
  }

  /** What every run guarantees of a leader and such a peer. */
  lemma PairFacts(cfg: Config, boot: seq<Entry>, r: seq<Cluster>, i: Id, j: Id)
    requires OnRun(cfg, boot, r) && i in Last(r).nodes && Last(r).nodes[i].role == Leader && Reachable(Last(r), i, j)
    ensures var n, p := Last(r).nodes[i], Last(r).nodes[j];
            && Member(n) && Member(p) && n.id == i && p.id == j && n.term > 0 && n.prs.Keys == cfg.voters && j in n.prs
            && (p.term == n.term ==> p.role != Leader) && n.committed <= |n.log|
            && n.prs[j].next <= |n.log| + 1
            && n.prs[j].matched <= |n.log| && n.prs[j].matched <= |p.log|
            && n.log[..n.prs[j].matched] == p.log[..n.prs[j].matched]
  {
    hide Run;
    var x := |r| - 1;
    BothNamed(cfg, boot, r, i, j);
    LeaderBounds(cfg, boot, r, i, j);
    MatchSoundness(cfg, boot, r, x, i, j);
    if r[x].nodes[j].term == r[x].nodes[i].term && r[x].nodes[j].role == Leader {
      ElectionSafety(cfg, boot, r, x, x, i, j);
    }
  }

  lemma BothNamed(cfg: Config, boot: seq<Entry>, r: seq<Cluster>, i: Id, j: Id)
    requires OnRun(cfg, boot, r) && i in Last(r).nodes && j in Last(r).nodes
    ensures var n, p := Last(r).nodes[i], Last(r).nodes[j];
            Member(n) && Member(p) && n.id == i && p.id == j && n.term > 0 && n.prs.Keys == cfg.voters && j in n.prs
  {
    hide Run;
    RunNamed(cfg, boot, r, |r| - 1);
  }

  lemma LeaderBounds(cfg: Config, boot: seq<Entry>, r: seq<Cluster>, i: Id, j: Id)
    requires OnRun(cfg, boot, r) && i in Last(r).nodes && Last(r).nodes[i].role == Leader && j in Last(r).nodes[i].prs
    ensures Last(r).nodes[i].committed <= |Last(r).nodes[i].log|
    ensures Last(r).nodes[i].prs[j].next <= |Last(r).nodes[i].log| + 1
  {
    hide Run, Mirrors, Inv, Protocol.Grows, CommittedIn, CompletenessInv;
    var x := |r| - 1;
    var ss := RunMirrors(cfg, boot, r);
    NodeCommitted(cfg, r[x], ss[x], i);
    MirrorsNode(cfg, r[x], ss[x], i);
  }

  /** Nodes other than i and j are as they were, and the leader's Match of them too. */
  ghost predicate OnlyPair(c: Cluster, c': Cluster, i: Id, j: Id) {
    && c'.nodes.Keys == c.nodes.Keys && c.net <= c'.net
    && (forall x | x in c.nodes && x != i && x != j :: c'.nodes[x] == c.nodes[x])
    && (i in c.nodes ==> SameOthers(c.nodes[i].prs, c'.nodes[i].prs, j))
  }

  ghost predicate SameOthers(prs: map<Id, Progress>, prs': map<Id, Progress>, j: Id) {
    prs'.Keys == prs.Keys && forall x | x in prs && x != j :: prs'[x].matched == prs[x].matched
  }

  lemma OnlyPairTwice(a: Cluster, b: Cluster, c: Cluster, i: Id, j: Id)
    requires OnlyPair(a, b, i, j) && OnlyPair(b, c, i, j)
    ensures OnlyPair(a, c, i, j)
  {
  }

  lemma MatchBounded(cfg: Config, boot: seq<Entry>, r: seq<Cluster>, i: Id)
    requires OnRun(cfg, boot, r) && i in Last(r).nodes && Last(r).nodes[i].role == Leader
    ensures forall x | x in Last(r).nodes[i].prs :: Last(r).nodes[i].prs[x].matched <= |Last(r).nodes[i].log|
  {
    hide Run, Mirrors, Inv, Protocol.Grows, LogInv, HistInv, NodeInv;
    var y := |r| - 1;
    var ss := RunMirrors(cfg, boot, r);
    MirrorsNode(cfg, r[y], ss[y], i);
    var n, s := r[y].nodes[i], ss[y];
    InvNode(s, i);
    forall x | x in n.prs ensures n.prs[x].matched <= |n.log| {
      assert View(n).matched[x] == n.prs[x].matched;
      AckBounded(s, n.term, x);
    }
  }

  lemma AckBounded(s: State, T: nat, x: Id)
    requires HistInv(s) && T in s.h.tlog
    ensures Acked(s.h, T, x) <= |s.h.tlog[T]|
  {
    hide LeaderKeys, VoteKeys, CampaignKeys, TermLogsInv, ElectedInv, BallotsInv, CampaignsInv, CompletenessInv;
  }

  /** The leader finds out that j is there. */
  lemma Greets(cfg: Config, boot: seq<Entry>, r: seq<Cluster>, i: Id, j: Id) returns (b: seq<Cluster>)
    requires OnRun(cfg, boot, r) && i in Last(r).nodes && Last(r).nodes[i].role == Leader && Reachable(Last(r), i, j)
    requires j in Last(r).nodes[i].prs
    ensures OnRun(cfg, boot, b) && r <= b && OnlyPair(Last(r), Last(b), i, j) && i in Last(b).nodes && j in Last(b).nodes
    ensures var n, n', p, p' := Last(r).nodes[i], Last(b).nodes[i], Last(r).nodes[j], Last(b).nodes[j];
            && Steady(n, n') && n'.committed == n.committed && j in n'.prs
            && n'.prs[j].state == Probe && n'.prs[j].matched == n.prs[j].matched
            && n'.prs[j].next == (if n.prs[j].state == Replicate then n.prs[j].matched + 1 else n.prs[j].next)
            && p'.term == n.term && p'.role == Follower && p'.log == p.log && p'.id == j
            && p'.committed == Max(p.committed, Min(n.prs[j].matched, n.committed))
            && exists ctx :: MsgHeartbeatResp(n.term, j, i, ctx) in Last(b).net
  {
    hide Run, Step;
    PairFacts(cfg, boot, r, i, j);
    UnreachableProbes(cfg, Last(r).nodes[i], j);
    var r1 := Deliver(cfg, boot, r, i, MsgUnreachable(j));
    var n1 := Last(r1).nodes[i];
    BeatAsks(cfg, n1);
    var r2 := Deliver(cfg, boot, r1, i, MsgBeat);
    var m := MsgHeartbeat(n1.term, i, j, Min(n1.prs[j].matched, n1.committed), NewestRead(n1));
    assert m in Last(r2).net;
    HeartbeatFollowed(cfg, Last(r2).nodes[j], m);
    b := Deliver(cfg, boot, r2, j, m);
    assert MsgHeartbeatResp(n1.term, j, i, m.ctx) in Last(b).net;
  }

  ghost function AppendFor(cfg: Config, n: Node, j: Id): Msg
    requires j in n.prs
  {
    MsgApp(n.term, n.id, j, n.prs[j].next - 1, TermAt(n.log, n.prs[j].next - 1), n.committed, Entries(cfg, n.log, n.prs[j].next))
  }

  /** It probes j with an append. */
  lemma Probes(cfg: Config, boot: seq<Entry>, r: seq<Cluster>, i: Id, j: Id, ctx: Ctx) returns (b: seq<Cluster>)
    requires OnRun(cfg, boot, r) && i in Last(r).nodes && Last(r).nodes[i].role == Leader && Reachable(Last(r), i, j)
    requires j in Last(r).nodes[i].prs && MsgHeartbeatResp(Last(r).nodes[i].term, j, i, ctx) in Last(r).net
    requires Last(r).nodes[i].prs[j].state == Probe && Last(r).nodes[i].prs[j].matched < |Last(r).nodes[i].log|
    ensures OnRun(cfg, boot, b) && r <= b && OnlyPair(Last(r), Last(b), i, j)
    ensures i in Last(b).nodes && j in Last(b).nodes && Last(b).nodes[j] == Last(r).nodes[j]
    ensures var n, n' := Last(r).nodes[i], Last(b).nodes[i];
            && Steady(n, n') && j in n'.prs && n'.prs[j].state == Probe
            && n'.prs[j].matched == n.prs[j].matched && n'.prs[j].next == n.prs[j].next
            && AppendFor(cfg, n', j) in Last(b).net
  {
    hide Run, Step, Entries;
    PairFacts(cfg, boot, r, i, j);
    var n := Last(r).nodes[i];
    RespSends(cfg, n, j, i, ctx);
    b := Deliver(cfg, boot, r, i, MsgHeartbeatResp(n.term, j, i, ctx));
    RespOthers(cfg, n, j, i, ctx);
  }

  lemma RespOthers(cfg: Config, n: Node, j: Id, to: Id, ctx: Ctx)
    requires Member(n) && n.role == Leader && j in n.prs && n.term > 0
    ensures var o := Step(cfg, n, MsgHeartbeatResp(n.term, j, to, ctx)); o.Done? && SameOthers(n.prs, o.value.n.prs, j)
  {
    hide LeaderAckRead, SendAppend, FreeTo;
    var pr := n.prs[j].(recentActive := true, paused := false);
    var pr' := if pr.state == Replicate && pr.ins != [] && |pr.ins| == cfg.maxInflight
               then pr.(ins := FreeTo(pr.ins, pr.ins[0])) else pr;
    var w := Work(SetProgress(n, j, pr'), {});
    SendAppendOnlySends(cfg, w, j, true);
    var w' := if pr'.matched < |n.log| then SendAppend(cfg, w, j, true) else w;
    AckKeeps(w', j, ctx);
  }

  /** How far the leader's next guess is from the position after the Match. */
  function Gap(pr: Progress): nat { if pr.next <= pr.matched then pr.matched + 1 - pr.next else pr.next - (pr.matched + 1) }

  ghost predicate Closer(pr: Progress, pr': Progress) {
    pr'.matched > pr.matched || (pr'.matched == pr.matched && Gap(pr') < Gap(pr))
  }

  /** An answer of j to the leader's append that gets the leader further. */
  ghost predicate Useful(n: Node, j: Id, a: Msg)
    requires j in n.prs
  {
    var pr := n.prs[j];
    && a.MsgAppResp? && a.term == n.term && a.from == j && a.to == n.id
    && if a.reject then pr.next == a.index + 1 && pr.matched < a.index && pr.matched <= a.rejectHint
       else a.rejectHint == 0 && (a.index > pr.matched || a.index >= pr.next)
  }

  lemma SameTermWhereMatched(a: seq<Entry>, b: seq<Entry>, k: nat, p: nat)
    requires k <= |a| && k <= |b| && a[..k] == b[..k] && p <= k
    ensures TermAt(a, p) == TermAt(b, p)
  {
    if p > 0 { assert a[p - 1] == a[..k][p - 1] == b[..k][p - 1] == b[p - 1]; }
  }

  /** What p answers to an append of i. */
  function AnswerTo(i: Id, p: Node, m: Msg): Msg
    requires m.MsgApp?
  {
    if m.index < p.committed then MsgAppResp(p.term, p.id, i, p.committed, false, 0)
    else if TermAt(p.log, m.index) != m.logTerm then MsgAppResp(p.term, p.id, i, m.index, true, |p.log|)
    else MsgAppResp(p.term, p.id, i, m.index + |m.entries|, false, 0)
  }

  lemma AnswerIsUseful(cfg: Config, n: Node, p: Node, p': Node, j: Id, a: Msg)
    requires j in n.prs && p.id == j && p.term == n.term && n.prs[j].matched < |n.log| && n.prs[j].next <= |n.log| + 1
    requires n.prs[j].matched <= |p.log| && n.log[..n.prs[j].matched] == p.log[..n.prs[j].matched]
    requires a == AnswerTo(n.id, p, AppendFor(cfg, n, j))
    ensures Useful(n, j, a)
  {
    hide Entries;
    EntriesAre(cfg, n.log, n.prs[j].next);
    var m := AppendFor(cfg, n, j);
    if a.reject && m.index <= n.prs[j].matched { SameTermWhereMatched(n.log, p.log, n.prs[j].matched, m.index); }
  }

  /** Node j answers the append. */
  lemma Hears(cfg: Config, boot: seq<Entry>, r: seq<Cluster>, i: Id, j: Id) returns (b: seq<Cluster>, a: Msg)
    requires OnRun(cfg, boot, r) && i in Last(r).nodes && Last(r).nodes[i].role == Leader && Reachable(Last(r), i, j)
    requires j in Last(r).nodes[i].prs && AppendFor(cfg, Last(r).nodes[i], j) in Last(r).net
    requires Last(r).nodes[j].term == Last(r).nodes[i].term && Last(r).nodes[j].role == Follower
    requires Last(r).nodes[i].prs[j].matched < |Last(r).nodes[i].log|
    ensures OnRun(cfg, boot, b) && r <= b && OnlyPair(Last(r), Last(b), i, j) && a in Last(b).net
    ensures i in Last(b).nodes && j in Last(b).nodes && Last(b).nodes[i] == Last(r).nodes[i]
    ensures Last(b).nodes[j].term == Last(r).nodes[i].term && Useful(Last(r).nodes[i], j, a)
  {
    hide Run, Step, Entries;
    PairFacts(cfg, boot, r, i, j);
    var n, p := Last(r).nodes[i], Last(r).nodes[j];
    var m := AppendFor(cfg, n, j);
    NoPanic(cfg, boot, r, |r| - 1, j, m);
    AppendAnswered(cfg, p, m);
    b := Deliver(cfg, boot, r, j, m);
    a :| a in Step(cfg, p, m).value.out;
    AnswerIsUseful(cfg, n, p, Last(b).nodes[j], j, a);
  }

  /** The peers known to have all of the leader's log. */
  ghost function Complete(n: Node): set<Id> { set x | x in n.prs && n.prs[x].matched == |n.log| }

  /** The leader has committed everything once a majority has everything. */
  ghost predicate CommitsAll(n: Node) { |Complete(n)| >= |n.prs| / 2 + 1 && LastTermOf(n.log) == n.term ==> n.committed == |n.log| }

  lemma AnswerCloses(cfg: Config, n: Node, j: Id, a: Msg)
    requires Member(n) && n.role == Leader && j in n.prs && n.term > 0 && Useful(n, j, a) && n.prs[j].matched < |n.log|
    requires n.prs[j].state == Probe
    ensures Step(cfg, n, a).Done?
    ensures var n' := Step(cfg, n, a).value.n; Steady(n, n') && j in n'.prs && Closer(n.prs[j], n'.prs[j]) && SameOthers(n.prs, n'.prs, j)
  {
    hide Step;
    if a.reject {
      RejectionProbes(cfg, n, j, a.to, a.index, a.rejectHint);
      RejectOthers(cfg, n, j, a.to, a.index, a.rejectHint);
    } else {
      AckAdvances(cfg, n, j, a.to, a.index);
    }
  }

  lemma RejectOthers(cfg: Config, n: Node, j: Id, to: Id, index: nat, hint: nat)
    requires Member(n) && n.role == Leader && j in n.prs && n.term > 0
    ensures var o := Step(cfg, n, MsgAppResp(n.term, j, to, index, true, hint)); o.Done? && SameOthers(n.prs, o.value.n.prs, j)
  {
    hide SendAppend;
    var (pr', decreased) := MaybeDecrTo(n.prs[j].(recentActive := true), index, hint);
    var pr'' := if pr'.state == Replicate then BecomeProbe(pr') else pr';
    SendAppendOnlySends(cfg, Work(SetProgress(n, j, pr''), {}), j, true);
  }

  lemma AnswerCommits(cfg: Config, n: Node, j: Id, a: Msg)
    requires Member(n) && n.role == Leader && j in n.prs && n.term > 0 && Useful(n, j, a) && n.prs[j].matched < |n.log|
    requires n.prs[j].state == Probe && n.committed <= |n.log| && forall x | x in n.prs :: n.prs[x].matched <= |n.log|
    requires Step(cfg, n, a).Done? && Steady(n, Step(cfg, n, a).value.n) && Step(cfg, n, a).value.n.prs[j].matched == |n.log|
    ensures CommitsAll(Step(cfg, n, a).value.n)
  {
    hide Step;
    var n' := Step(cfg, n, a).value.n;
    if a.reject {
      RejectionProbes(cfg, n, j, a.to, a.index, a.rejectHint);
    } else {
      AckAdvances(cfg, n, j, a.to, a.index);
      SameSize(n'.prs, n.prs);
      assert Complete(n') == AtEnd(n, j);
      if |Complete(n')| >= |n'.prs| / 2 + 1 && LastTermOf(n'.log) == n'.term { AckCommits(cfg, n, j, a.to); }
    }
  }

  lemma Concludes(cfg: Config, boot: seq<Entry>, r: seq<Cluster>, i: Id, j: Id, a: Msg) returns (b: seq<Cluster>)
    requires OnRun(cfg, boot, r) && i in Last(r).nodes && Last(r).nodes[i].role == Leader && Reachable(Last(r), i, j)
    requires j in Last(r).nodes[i].prs && a in Last(r).net && Useful(Last(r).nodes[i], j, a)
    requires Last(r).nodes[i].prs[j].state == Probe && Last(r).nodes[i].prs[j].matched < |Last(r).nodes[i].log|
    ensures OnRun(cfg, boot, b) && r <= b && OnlyPair(Last(r), Last(b), i, j) && i in Last(b).nodes && Reachable(Last(b), i, j)
    ensures var n, n' := Last(r).nodes[i], Last(b).nodes[i];
            && Steady(n, n') && j in n'.prs && Closer(n.prs[j], n'.prs[j])
            && (n'.prs[j].matched == |n.log| ==> CommitsAll(n'))
  {
    hide Run, Step, CommitsAll, Closer;
    var n := Last(r).nodes[i];
    PairFacts(cfg, boot, r, i, j);
    MatchBounded(cfg, boot, r, i);
    AnswerCloses(cfg, n, j, a);
    b := Deliver(cfg, boot, r, i, a);
    if Last(b).nodes[i].prs[j].matched == |n.log| { AnswerCommits(cfg, n, j, a); }
  }

  /** One round between a leader and a peer that is behind gets it closer; and when the peer becomes the last
      one of a majority to have everything, everything is committed. */
  lemma Round(cfg: Config, boot: seq<Entry>, r: seq<Cluster>, i: Id, j: Id) returns (b: seq<Cluster>)
    requires OnRun(cfg, boot, r) && i in Last(r).nodes && Last(r).nodes[i].role == Leader && Reachable(Last(r), i, j)
    requires j in Last(r).nodes[i].prs && Last(r).nodes[i].prs[j].matched < |Last(r).nodes[i].log|
    ensures OnRun(cfg, boot, b) && r <= b && OnlyPair(Last(r), Last(b), i, j) && i in Last(b).nodes && Reachable(Last(b), i, j)
    ensures var n, n' := Last(r).nodes[i], Last(b).nodes[i];
            && Steady(n, n') && j in n'.prs && Closer(n.prs[j], n'.prs[j])
            && (n'.prs[j].matched == |n.log| ==> CommitsAll(n'))
  {
    hide Run, Step, AppendFor, Useful, OnlyPair, CommitsAll;
    var r1 := Greets(cfg, boot, r, i, j);
    var ctx :| MsgHeartbeatResp(Last(r).nodes[i].term, j, i, ctx) in Last(r1).net;
    var r2 := Probes(cfg, boot, r1, i, j, ctx);
    var r3, a := Hears(cfg, boot, r2, i, j);
    b := Concludes(cfg, boot, r3, i, j, a);
    OnlyPairTwice(Last(r), Last(r1), Last(r2), i, j);
    OnlyPairTwice(Last(r), Last(r2), Last(r3), i, j);
    OnlyPairTwice(Last(r), Last(r3), Last(b), i, j);
  }

  // ---------------------------------------------------------------- catching up, and committing

  /** From any state of any run a leader can bring a peer that has not gone further up to date. */
  lemma {:induction false} CanCatchUp(cfg: Config, boot: seq<Entry>, r: seq<Cluster>, i: Id, j: Id) returns (b: seq<Cluster>)
    requires OnRun(cfg, boot, r) && i in Last(r).nodes && Last(r).nodes[i].role == Leader && Reachable(Last(r), i, j)
    requires j in Last(r).nodes[i].prs && Last(r).nodes[i].prs[j].matched < |Last(r).nodes[i].log|
    ensures OnRun(cfg, boot, b) && r <= b && OnlyPair(Last(r), Last(b), i, j) && i in Last(b).nodes && Reachable(Last(b), i, j)
    ensures var n, n' := Last(r).nodes[i], Last(b).nodes[i];
            && Steady(n, n') && j in n'.prs && n'.prs[j].matched == |n.log| && CommitsAll(n')
    ensures Last(r).nodes[i].log <= Last(b).nodes[j].log
    decreases |Last(r).nodes[i].log| - Last(r).nodes[i].prs[j].matched, Gap(Last(r).nodes[i].prs[j])
  {
    hide Run, OnlyPair, CommitsAll;
    var r1 := Round(cfg, boot, r, i, j);
    MatchBounded(cfg, boot, r1, i);
    if Last(r1).nodes[i].prs[j].matched < |Last(r).nodes[i].log| {
      b := CanCatchUp(cfg, boot, r1, i, j);
      OnlyPairTwice(Last(r), Last(r1), Last(b), i, j);
    } else {
      b := r1;
      PairFacts(cfg, boot, b, i, j);
      WholePrefix(Last(r).nodes[i].log, Last(b).nodes[j].log);
    }
  }

  lemma WholePrefix(a: seq<Entry>, p: seq<Entry>)
    requires |a| <= |p| && a[..|a|] == p[..|a|]
    ensures a <= p
  {
  }

  /** The leader leads with this log, the members of q are within reach, and those of `done` have everything. */
  ghost predicate Working(c: Cluster, i: Id, T: nat, log: seq<Entry>, q: set<Id>, done: set<Id>) {
    && Leading(c, i, T, log) && LastTermOf(log) == T && q <= c.nodes[i].prs.Keys && i in done && done <= q
    && (forall j | j in q && j != i :: Reachable(c, i, j))
    && (forall j | j in done :: c.nodes[i].prs[j].matched == |log|)
    && (forall j | j in done && j != i :: log <= c.nodes[j].log)
    && (forall j | j in q - done :: c.nodes[i].prs[j].matched < |log|)
    && (done == q && |q| == |c.nodes[i].prs| / 2 + 1 ==> c.nodes[i].committed == |log|)
  }

  lemma {:induction false} AllCatchUp(cfg: Config, boot: seq<Entry>, r: seq<Cluster>, i: Id, T: nat, log: seq<Entry>, q: set<Id>, done: set<Id>)
    returns (b: seq<Cluster>)
    requires OnRun(cfg, boot, r) && Working(Last(r), i, T, log, q, done)
    ensures OnRun(cfg, boot, b) && r <= b && Working(Last(b), i, T, log, q, q)
    decreases |q - done|
  {
    hide Run;
    if done == q {
      b := r;
    } else {
      assert done < q;
      var j :| j in q && j !in done;
      var r1 := OneCatchesUp(cfg, boot, r, i, T, log, q, done, j);
      assert q - (done + {j}) == q - done - {j} && |q - done - {j}| == |q - done| - 1;
      b := AllCatchUp(cfg, boot, r1, i, T, log, q, done + {j});
    }
  }

  lemma OneCatchesUp(cfg: Config, boot: seq<Entry>, r: seq<Cluster>, i: Id, T: nat, log: seq<Entry>, q: set<Id>, done: set<Id>, j: Id)
    returns (b: seq<Cluster>)
    requires OnRun(cfg, boot, r) && Working(Last(r), i, T, log, q, done) && j in q - done
    ensures OnRun(cfg, boot, b) && r <= b && Working(Last(b), i, T, log, q, done + {j})
  {
    hide Run, CommitsAll;
    b := CanCatchUp(cfg, boot, r, i, j);
    StillWorking(Last(r), Last(b), i, T, log, q, done, j);
  }

  lemma StillWorking(c: Cluster, c': Cluster, i: Id, T: nat, log: seq<Entry>, q: set<Id>, done: set<Id>, j: Id)
    requires Working(c, i, T, log, q, done) && j in q - done && OnlyPair(c, c', i, j) && i in c'.nodes && Reachable(c', i, j)
    requires Steady(c.nodes[i], c'.nodes[i]) && c'.nodes[i].prs[j].matched == |log| && CommitsAll(c'.nodes[i]) && log <= c'.nodes[j].log
    ensures Working(c', i, T, log, q, done + {j})
  {
    var n' := c'.nodes[i];
    if done + {j} == q && |q| == |n'.prs| / 2 + 1 {
      assert q <= Complete(n');
      Quorums.SubsetCardinality(q, Complete(n'));
    }
  }

  /** The proposal is in the leader's log, and no peer has it yet. */
  lemma Proposes(cfg: Config, boot: seq<Entry>, r: seq<Cluster>, i: Id, q: set<Id>, data: seq<string>) returns (b: seq<Cluster>, log: seq<Entry>)
    requires OnRun(cfg, boot, r) && i in Last(r).nodes && Last(r).nodes[i].role == Leader && Last(r).nodes[i].transferee == NONE
    requires i in q && q <= Last(r).nodes[i].prs.Keys && (forall j | j in q && j != i :: Reachable(Last(r), i, j))
    requires data != [] && |Last(r).nodes[i].prs| >= 2 && |q| == |Last(r).nodes[i].prs| / 2 + 1
    ensures OnRun(cfg, boot, b) && r <= b && Working(Last(b), i, Last(r).nodes[i].term, log, q, {i})
    ensures Proposals.Appended(Last(r).nodes[i].log, Last(r).nodes[i].term, data, log)
    ensures Last(b).nodes[i].prs.Keys == Last(r).nodes[i].prs.Keys
  {
    hide Run, Step;
    BothNamed(cfg, boot, r, i, i);
    MatchBounded(cfg, boot, r, i);
    var n, m := Last(r).nodes[i], MsgProp(NONE, i, data);
    Proposals.LeaderTakesProposal(cfg, n, NONE, i, data);
    ProposalMatches(cfg, n, data);
    b := Deliver(cfg, boot, r, i, m);
    log := Last(b).nodes[i].log;
    NewWork(Last(r), Last(b), i, log, data, q);
  }

  lemma NewWork(c: Cluster, c': Cluster, i: Id, log: seq<Entry>, data: seq<string>, q: set<Id>)
    requires i in c.nodes && i in c'.nodes && c'.nodes == c.nodes[i := c'.nodes[i]] && Leading(c', i, c.nodes[i].term, log)
    requires i in q && q <= c.nodes[i].prs.Keys && (forall j | j in q && j != i :: Reachable(c, i, j)) && |q| >= 2
    requires Proposals.Appended(c.nodes[i].log, c.nodes[i].term, data, log) && data != []
    requires SameOthers(c.nodes[i].prs, c'.nodes[i].prs, i) && c'.nodes[i].prs[i].matched == |log|
    requires forall x | x in c.nodes[i].prs :: c.nodes[i].prs[x].matched <= |c.nodes[i].log|
    ensures Working(c', i, c.nodes[i].term, log, q, {i})
  {
    var n := c.nodes[i];
    var x: nat := |data| - 1;
    assert log[|n.log| + x] == Entry(|n.log| + x + 1, n.term, data[x]);
    assert |{i}| == 1;
    forall j | j in q && j != i ensures Reachable(c', i, j) { assert Reachable(c, i, j); }
  }

  /** A leader has its own proposal; what it knows of its peers does not change. */
  lemma ProposalMatches(cfg: Config, n: Node, data: seq<string>)
    requires Member(n) && n.role == Leader && n.transferee == NONE && data != [] && n.prs[n.id].matched <= |n.log|
    ensures var o := Step(cfg, n, MsgProp(NONE, n.id, data));
            && o.Done? && SameOthers(n.prs, o.value.n.prs, n.id) && o.value.n.prs[n.id].matched == |n.log| + |data|
            && o.value.n.transferee == NONE && o.value.n.id == n.id
  {
    hide BcastAppend;
    var log := n.log + NewEntries(n, data);
    var n1 := n.(log := log, prs := n.prs[n.id := MaybeUpdate(n.prs[n.id], |log|)]);
    CommitKeepsProgress(n1);
    hide MaybeCommit;
    BcastOnlySends(cfg, Work(AppendEntry(n, data), {}));
  }

  /** The members of `told` have committed the whole log. */
  ghost predicate Spread(c: Cluster, i: Id, T: nat, log: seq<Entry>, q: set<Id>, told: set<Id>) {
    && Working(c, i, T, log, q, q) && c.nodes[i].committed == |log| && i in told && told <= q
    && forall j | j in told :: j in c.nodes && log <= c.nodes[j].log && |log| <= c.nodes[j].committed
  }

  lemma OneIsTold(cfg: Config, boot: seq<Entry>, r: seq<Cluster>, i: Id, T: nat, log: seq<Entry>, q: set<Id>, told: set<Id>, j: Id)
    returns (b: seq<Cluster>)
    requires OnRun(cfg, boot, r) && Spread(Last(r), i, T, log, q, told) && j in q - told
    ensures OnRun(cfg, boot, b) && r <= b && Spread(Last(b), i, T, log, q, told + {j})
  {
    hide Run;
    b := Greets(cfg, boot, r, i, j);
  }

  lemma {:induction false} AllAreTold(cfg: Config, boot: seq<Entry>, r: seq<Cluster>, i: Id, T: nat, log: seq<Entry>, q: set<Id>, told: set<Id>)
    returns (b: seq<Cluster>)
    requires OnRun(cfg, boot, r) && Spread(Last(r), i, T, log, q, told)
    ensures OnRun(cfg, boot, b) && r <= b && Spread(Last(b), i, T, log, q, q)
    decreases |q - told|
  {
    hide Run, Spread;
    if told == q {
      b := r;
    } else {
      assert told <= q by { ToldAreMembers(Last(r), i, T, log, q, told); }
      assert told < q;
      var j :| j in q && j !in told;
      var r1 := OneIsTold(cfg, boot, r, i, T, log, q, told, j);
      assert q - (told + {j}) == q - told - {j} && |q - told - {j}| == |q - told| - 1;
      b := AllAreTold(cfg, boot, r1, i, T, log, q, told + {j});
    }
  }

  lemma ToldAreMembers(c: Cluster, i: Id, T: nat, log: seq<Entry>, q: set<Id>, told: set<Id>)
    requires Spread(c, i, T, log, q, told)
    ensures told <= q
  {
  }

  /** From any state of any run: a leader with a majority within reach can commit whatever it is handed,
      and have every member of that majority commit it, at the end of its log. */
  lemma CanCommit(cfg: Config, boot: seq<Entry>, r: seq<Cluster>, i: Id, q: set<Id>, data: seq<string>) returns (b: seq<Cluster>, log: seq<Entry>)
    requires OnRun(cfg, boot, r) && i in Last(r).nodes && Last(r).nodes[i].role == Leader && Last(r).nodes[i].transferee == NONE
    requires |cfg.voters| >= 2 && i in q && q <= cfg.voters && |q| == |cfg.voters| / 2 + 1
    requires (forall j | j in q && j != i :: Reachable(Last(r), i, j)) && data != []
    ensures OnRun(cfg, boot, b) && r <= b && Proposals.Appended(Last(r).nodes[i].log, Last(r).nodes[i].term, data, log)
    ensures forall j | j in q :: j in Last(b).nodes && log <= Last(b).nodes[j].log && |log| <= Last(b).nodes[j].committed
  {
    hide Run, Working, Spread, Named;
    RunNamed(cfg, boot, r, |r| - 1);
    NamedPeers(cfg, Last(r), i);
    var r1;
    r1, log := Proposes(cfg, boot, r, i, q, data);
    var T := Last(r).nodes[i].term;
    var r2 := AllCatchUp(cfg, boot, r1, i, T, log, q, {i});
    RunNamed(cfg, boot, r2, |r2| - 1);
    WorkingIsSpread(cfg, Last(r2), i, T, log, q);
    b := AllAreTold(cfg, boot, r2, i, T, log, q, {i});
    SpreadMeans(Last(b), i, T, log, q);
  }

  lemma WorkingIsSpread(cfg: Config, c: Cluster, i: Id, T: nat, log: seq<Entry>, q: set<Id>)
    requires Working(c, i, T, log, q, q) && Named(cfg, c) && |q| == |cfg.voters| / 2 + 1
    ensures Spread(c, i, T, log, q, {i})
  {
    hide Named;
    NamedPeers(cfg, c, i);
  }

  lemma SpreadMeans(c: Cluster, i: Id, T: nat, log: seq<Entry>, q: set<Id>)
    requires Spread(c, i, T, log, q, q)
    ensures forall j | j in q :: j in c.nodes && log <= c.nodes[j].log && |log| <= c.nodes[j].committed
  {
  }

  /** So in any cluster of two voters or more any data can be proposed to any voter and be committed by a majority. */
  lemma AnythingCanCommit(cfg: Config, boot: seq<Entry>, i: Id, data: seq<string>) returns (b: seq<Cluster>, q: set<Id>, log: seq<Entry>)
    requires ValidConfig(cfg) && BootLog(boot) && |cfg.voters| >= 2 && i in cfg.voters && data != []
    ensures OnRun(cfg, boot, b) && Quorums.Quorum(cfg.voters, q)
    ensures Proposals.Appended(boot + [Entry(|boot| + 1, 2, "")], 2, data, log)
    ensures forall j | j in q :: j in Last(b).nodes && log <= Last(b).nodes[j].log && |log| <= Last(b).nodes[j].committed
  {
    hide Run;
    var r;
    r, q := FirstLeader(cfg, boot, i);
    assert Last(r).nodes[i].term == 2;
    b, log := CanCommit(cfg, boot, r, i, q, data);
  }
}
