/**
 Every handler of RaftNode is a sequence of protocol actions. Each lemma takes a
 protocol state that mirrors the node and returns the one that mirrors the
 node after the handler; the invariant then holds in every reachable state.
 */
module Refinement {
  import opened RaftTypes
  import opened Logs
  import opened Quorums
  import opened SizeLimit
  import opened Protocol
  import opened ProtocolActions
  import opened ProtocolReplication
  import opened RaftNode

  /** What the protocol sees of a node. */
  ghost function View(n: Node): PNode {
    PNode(n.term, n.vote, n.log, n.committed, n.role,
          if n.role == Candidate then Granted(n) else {},
          if n.role == Leader then map j | j in n.prs :: n.prs[j].matched else map[])
  }

  /** The bookkeeping that the protocol does not see. */
  ghost predicate NodeOk(cfg: Config, s: State, i: Id, n: Node) {
    && n.id == i && i in cfg.voters && n.prs.Keys == cfg.voters && n.term >= BOOT_TERM
    && (n.lead != NONE ==> n.term in s.h.leaderOf && s.h.leaderOf[n.term] == n.lead)
    && (n.role != Leader ==> n.lead != n.id)
    && (n.role == Leader ==> forall j | j in n.prs :: n.prs[j].next <= |n.log| + 1)
  }

  /** The protocol state s mirrors node i, which currently is n. */
  ghost predicate Ready(cfg: Config, s: State, i: Id, n: Node) {
    && Inv(s) && s.voters == cfg.voters && i in s.nodes && s.nodes[i] == View(n)
    && NodeOk(cfg, s, i, n)
  }

  /** From s to t node i moved and the messages `out` were sent. */
  ghost predicate Moves(s: State, t: State, i: Id, out: set<Msg>) {
    && Grows(s, t)
    && t.net == s.net + out
    && (forall j | j in s.nodes && j != i :: t.nodes[j] == s.nodes[j])
    && (forall j | j in s.nodes :: s.nodes[j].committed <= t.nodes[j].committed)
  }

  lemma MovesTogether(s: State, t: State, u: State, i: Id, a: set<Msg>, b: set<Msg>)
    requires Moves(s, t, i, a) && Moves(t, u, i, b)
    ensures Moves(s, u, i, a + b)
  {
    hide HistGrows;
    HistGrowsTogether(s.h, t.h, u.h);
  }

  lemma MovesOn(s: State, t: State, u: State, i: Id, out: set<Msg>)
    requires Moves(s, t, i, {}) && Moves(t, u, i, out)
    ensures Moves(s, u, i, out)
  {
    hide Moves;
    MovesTogether(s, t, u, i, {}, out);
    assert {} + out == out;
  }

  /** What was sent before counts as sent. */
  lemma MovesAgain(s: State, t: State, i: Id, out: set<Msg>, before: set<Msg>)
    requires Moves(s, t, i, out) && before <= s.net
    ensures Moves(s, t, i, out + before)
  {
    hide Grows;
    assert s.net + out == s.net + (out + before);
  }

  lemma HistGrowsTogether(a: Hist, b: Hist, c: Hist)
    requires HistGrows(a, b) && HistGrows(b, c)
    ensures HistGrows(a, c)
  {
  }

  lemma MovesNot(s: State, i: Id)
    ensures Moves(s, s, i, {})
  {
  }

  /** Local protocol actions are moves that send nothing. */
  lemma LocalMoves(s: State, t: State, i: Id)
    requires LocalTo(s, t, i) && s.nodes[i].committed <= t.nodes[i].committed
    ensures Moves(s, t, i, {})
  {
    hide Grows, HistLocal;
  }

  // ---------------------------------------------------------------- sending

  lemma SendMoves(cfg: Config, s: State, i: Id, n: Node, ms: set<Msg>) returns (t: State)
    requires Ready(cfg, s, i, n) && forall m | m in ms :: MsgInv(s, m)
    ensures Ready(cfg, t, i, n) && Moves(s, t, i, ms)
  {
    hide Inv, MsgInv, Grows;
    t := Send(s, ms);
    SendKeepsInv(s, ms);
  }

  lemma EntriesFromIsSlice(cfg: Config, log: seq<Entry>, next: Pos)
    requires next <= |log| + 1
    ensures var es := EntriesFrom(cfg, log, next);
            next - 1 + |es| <= |log| && es == log[next - 1..next - 1 + |es|]
  {
    if next <= |log| {
      var tail := log[next - 1..];
      LimitSizeIsPrefix(cfg.size, tail, cfg.maxMsgSize);
      var es := EntriesFrom(cfg, log, next);
      assert es == tail[..|es|];
    }
  }

  lemma AppendMsgIsTrue(cfg: Config, s: State, i: Id, n: Node, to: Id, pr: Progress)
    requires Ready(cfg, s, i, n) && n.role == Leader && pr.next <= |n.log| + 1 && to != i
    ensures MsgInv(s, AppendMsg(cfg, n, to, pr))
  {
    hide Inv, HistInv, NodeInv, CommittedIn, Good, KeepsAcks;
    InvNode(s, i);
    EntriesFromIsSlice(cfg, n.log, pr.next);
  }

  lemma HeartbeatMsgIsTrue(cfg: Config, s: State, i: Id, n: Node, to: Id, ctx: Ctx)
    requires Ready(cfg, s, i, n) && n.role == Leader && to in n.prs && to != i
    ensures MsgInv(s, HeartbeatMsg(n, to, ctx))
  {
    hide Inv, HistInv, NodeInv, CommittedIn, Good, KeepsAcks;
    InvNode(s, i);
    assert View(n).matched[to] == n.prs[to].matched;
    CommittedShrinks(s, n.log, n.term, n.committed, Min(n.prs[to].matched, n.committed));
  }

  /** A change of the progress bookkeeping that keeps every match. */
  ghost predicate SameMatches(n: Node, n': Node) {
    && n'.prs.Keys == n.prs.Keys
    && (forall j | j in n.prs :: n'.prs[j].matched == n.prs[j].matched)
    && (n.role == Leader ==> forall j | j in n'.prs :: n'.prs[j].next <= |n.log| + 1)
  }

  lemma SameMatchesReady(cfg: Config, s: State, i: Id, n: Node, n': Node)
    requires Ready(cfg, s, i, n) && SameMatches(n, n')
    requires n' == n.(prs := n'.prs, pending := n'.pending, readStates := n'.readStates, transferee := n'.transferee,
                      elapsed := n'.elapsed)
    ensures Ready(cfg, s, i, n')
  {
    hide Inv;
    assert View(n') == View(n);
  }

  lemma AfterSendNext(cfg: Config, n: Node, pr: Progress)
    requires pr.next <= |n.log| + 1
    ensures AfterSend(cfg, n, pr).next <= |n.log| + 1 && AfterSend(cfg, n, pr).matched == pr.matched
  {
    EntriesFromIsSlice(cfg, n.log, pr.next);
  }

  lemma SendAppendMoves(cfg: Config, s: State, i: Id, w: Work, to: Id, sendIfEmpty: bool) returns (t: State)
    requires Ready(cfg, s, i, w.n) && w.n.role == Leader && to in w.n.prs && to != i && w.out <= s.net
    ensures var w' := SendAppend(cfg, w, to, sendIfEmpty);
            Ready(cfg, t, i, w'.n) && Moves(s, t, i, w'.out) && SameMatches(w.n, w'.n)
  {
    hide Inv, MsgInv, Grows, AfterSend, AppendMsg;
    var pr := w.n.prs[to];
    if Sends(cfg, w.n, pr, sendIfEmpty) {
      AppendMsgIsTrue(cfg, s, i, w.n, to, pr);
      AfterSendNext(cfg, w.n, pr);
      t := SendMoves(cfg, s, i, w.n, {AppendMsg(cfg, w.n, to, pr)});
      SameMatchesReady(cfg, t, i, w.n, SendAppend(cfg, w, to, sendIfEmpty).n);
    } else {
      t := s;
      MovesNot(s, i);
    }
  }

  lemma BcastAppendMoves(cfg: Config, s: State, i: Id, w: Work) returns (t: State)
    requires Ready(cfg, s, i, w.n) && w.n.role == Leader && w.out <= s.net
    ensures var w' := BcastAppend(cfg, w);
            Ready(cfg, t, i, w'.n) && Moves(s, t, i, w'.out) && SameMatches(w.n, w'.n)
  {
    hide Inv, MsgInv, Grows, AfterSend, AppendMsg, Sends;
    var n, w' := w.n, BcastAppend(cfg, w);
    var ms := set j | j in n.prs && j != n.id && Sends(cfg, n, n.prs[j], true) :: AppendMsg(cfg, n, j, n.prs[j]);
    forall m | m in ms ensures MsgInv(s, m) {
      var j :| j in n.prs && j != n.id && m == AppendMsg(cfg, n, j, n.prs[j]);
      AppendMsgIsTrue(cfg, s, i, n, j, n.prs[j]);
    }
    forall j | j in n.prs ensures w'.n.prs[j].next <= |n.log| + 1 && w'.n.prs[j].matched == n.prs[j].matched {
      AfterSendNext(cfg, n, n.prs[j]);
    }
    t := SendMoves(cfg, s, i, n, ms);
    SameMatchesReady(cfg, t, i, n, w'.n);
  }

  lemma {:induction false} SendAllMoves(cfg: Config, s: State, i: Id, w: Work, to: Id) returns (t: State)
    requires Ready(cfg, s, i, w.n) && w.n.role == Leader && to in w.n.prs && to != i && w.out <= s.net
    ensures var w' := SendAll(cfg, w, to);
            Ready(cfg, t, i, w'.n) && Moves(s, t, i, w'.out) && w'.n.role == Leader
    decreases |w.n.log| + 1 - w.n.prs[to].next, if w.n.prs[to].paused then 0 else 1
  {
    hide Inv, MsgInv, Grows, AppendMsg;
    if Sends(cfg, w.n, w.n.prs[to], false) {
      var w' := SendAppend(cfg, w, to, false);
      var u := SendAppendMoves(cfg, s, i, w, to, false);
      t := SendAllMoves(cfg, u, i, w', to);
      SendAllKeepsOut(cfg, w', to);
      MovesTogether(s, u, t, i, w'.out, SendAll(cfg, w', to).out);
    } else {
      t := s;
      MovesNot(s, i);
    }
  }

  lemma {:induction false} SendAllKeepsOut(cfg: Config, w: Work, to: Id)
    requires to in w.n.prs
    ensures w.out <= SendAll(cfg, w, to).out
    decreases |w.n.log| + 1 - w.n.prs[to].next, if w.n.prs[to].paused then 0 else 1
  {
    if Sends(cfg, w.n, w.n.prs[to], false) {
      SendAllKeepsOut(cfg, SendAppend(cfg, w, to, false), to);
    }
  }

  lemma BcastHeartbeatMoves(cfg: Config, s: State, i: Id, w: Work, ctx: Ctx) returns (t: State)
    requires Ready(cfg, s, i, w.n) && w.n.role == Leader && w.out <= s.net
    ensures var w' := BcastHeartbeat(w, ctx); Ready(cfg, t, i, w'.n) && Moves(s, t, i, w'.out)
  {
    hide Inv, MsgInv, Grows;
    var ms := set j | j in w.n.prs && j != w.n.id :: HeartbeatMsg(w.n, j, ctx);
    forall m | m in ms ensures MsgInv(s, m) {
      var j :| j in w.n.prs && j != w.n.id && m == HeartbeatMsg(w.n, j, ctx);
      HeartbeatMsgIsTrue(cfg, s, i, w.n, j, ctx);
    }
    t := SendMoves(cfg, s, i, w.n, ms);
  }

  // ---------------------------------------------------------------- committing and appending

  lemma ReachedIsQuorum(cfg: Config, n: Node, q: set<Id>)
    requires n.prs.Keys == cfg.voters && q <= cfg.voters && |q| >= QuorumSize(n)
    ensures Quorum(cfg.voters, q)
  {
    assert |n.prs.Keys| == |n.prs|;
  }

  lemma MaybeCommitMoves(cfg: Config, s: State, i: Id, n: Node) returns (t: State)
    requires Ready(cfg, s, i, n) && n.role == Leader && Member(n)
    ensures var n' := MaybeCommit(n).0; Ready(cfg, t, i, n') && Moves(s, t, i, {}) && n' == n.(committed := n'.committed)
  {
    hide Inv, HistInv, Grows, LogInv, CommittedIn, HistLocal;
    MemberHasQuorum(n);
    var mci := QuorumIndex(n.prs, QuorumSize(n));
    if mci > n.committed && TermAt(n.log, mci) == n.term {
      var q := Reached(n.prs, mci);
      ReachedIsQuorum(cfg, n, q);
      assert forall j | j in q :: mci <= View(n).matched[j];
      t := LeaderCommit(s, i, mci);
      LeaderCommitKeepsInv(s, i, mci, q);
      InvNode(s, i);
      LeaderCommitIsLocal(s, i, mci, q);
      LocalMoves(s, t, i);
      assert View(n.(committed := mci)) == t.nodes[i];
    } else {
      t := s;
      MovesNot(s, i);
    }
  }

  /** The leader's own entries in its log, before it looks at the commit index. */
  function WithEntries(n: Node, payload: seq<string>): Node
    requires Member(n)
  {
    var log := n.log + NewEntries(n, payload);
    n.(log := log, prs := n.prs[n.id := MaybeUpdate(n.prs[n.id], |log|)])
  }

  lemma ProposeMoves(s: State, i: Id, es: seq<Entry>)
    requires Inv(s) && CanPropose(s, i, es)
    ensures Inv(Propose(s, i, es)) && Moves(s, Propose(s, i, es), i, {})
  {
    hide Inv, HistInv, Grows, LogInv, HistLocal, RoleInv;
    InvNode(s, i);
    ProposeKeepsInv(s, i, es);
    ProposeIsLocal(s, i, es) by { AckKeysOf(s); }
    LocalMoves(s, Propose(s, i, es), i);
  }

  lemma WithEntriesView(cfg: Config, s: State, i: Id, n: Node, payload: seq<string>)
    requires Ready(cfg, s, i, n) && n.role == Leader && Member(n)
    ensures CanPropose(s, i, NewEntries(n, payload))
    ensures View(WithEntries(n, payload)) == Propose(s, i, NewEntries(n, payload)).nodes[i]
    ensures forall j | j in n.prs :: WithEntries(n, payload).prs[j].next <= |WithEntries(n, payload).log| + 1
  {
    hide Inv;
    OwnMatchIsInRange(cfg, s, i, n);
  }

  lemma WithEntriesMoves(cfg: Config, s: State, i: Id, n: Node, payload: seq<string>) returns (u: State)
    requires Ready(cfg, s, i, n) && n.role == Leader && Member(n)
    ensures Ready(cfg, u, i, WithEntries(n, payload)) && Moves(s, u, i, {})
  {
    hide Inv, Moves, View, CanPropose, NewEntries;
    u := Propose(s, i, NewEntries(n, payload));
    WithEntriesView(cfg, s, i, n, payload);
    ProposeMoves(s, i, NewEntries(n, payload));
  }

  lemma AppendEntryMoves(cfg: Config, s: State, i: Id, n: Node, payload: seq<string>) returns (t: State)
    requires Ready(cfg, s, i, n) && n.role == Leader && Member(n)
    ensures var n' := AppendEntry(n, payload); Ready(cfg, t, i, n') && Moves(s, t, i, {}) && n'.role == Leader
  {
    hide Ready, Moves, NewEntries;
    var u := WithEntriesMoves(cfg, s, i, n, payload);
    t := MaybeCommitMoves(cfg, u, i, WithEntries(n, payload));
    MovesOn(s, u, t, i, {});
  }

  lemma AckKeysOf(s: State)
    requires HistInv(s)
    ensures AckKeys(s)
  {
  }

  /** No match exceeds the leader's own log. */
  lemma OwnMatchIsInRange(cfg: Config, s: State, i: Id, n: Node)
    requires Ready(cfg, s, i, n) && n.role == Leader
    ensures forall j | j in n.prs :: n.prs[j].matched <= |n.log|
  {
    hide Inv, HistInv, LogInv;
    InvNode(s, i);
    AckKeysOf(s);
    forall j | j in n.prs ensures n.prs[j].matched <= |n.log| {
      assert View(n).matched[j] == n.prs[j].matched;
    }
  }

  // ---------------------------------------------------------------- changing role

  lemma BecomeFollowerMoves(cfg: Config, s: State, i: Id, n: Node, term: nat, lead: Id) returns (t: State)
    requires Ready(cfg, s, i, n) && n.term <= term && lead != i
    requires lead != NONE ==> term in s.h.leaderOf && s.h.leaderOf[term] == lead
    ensures var n' := BecomeFollower(n, term, lead); Ready(cfg, t, i, n') && Moves(s, t, i, {}) && t.h == s.h
  {
    hide Inv, HistInv, Grows, LogInv, HistLocal;
    if n.term < term {
      t := TermUp(s, i, term);
      TermUpKeepsInv(s, i, term);
    } else {
      t := Demote(s, i, Follower);
      DemoteKeepsInv(s, i, Follower);
    }
    OnlyNodeIsLocal(s, t, i);
    LocalMoves(s, t, i);
    assert BecomeFollower(n, term, lead).prs.Keys == n.prs.Keys;
    assert View(BecomeFollower(n, term, lead)) == t.nodes[i];
  }

  lemma BecomePreCandidateMoves(cfg: Config, s: State, i: Id, n: Node, v: map<Id, bool>) returns (t: State)
    requires Ready(cfg, s, i, n) && n.role != Leader
    ensures var n' := BecomePreCandidate(n).(votes := v); Ready(cfg, t, i, n') && Moves(s, t, i, {}) && t.h == s.h
  {
    hide Inv, HistInv, Grows, LogInv, HistLocal;
    t := Demote(s, i, PreCandidate);
    DemoteKeepsInv(s, i, PreCandidate);
    OnlyNodeIsLocal(s, t, i);
    LocalMoves(s, t, i);
    assert NONE !in s.voters by { InvVoters(s); }
    assert View(BecomePreCandidate(n).(votes := v)) == t.nodes[i];
  }

  lemma TermIsReal(cfg: Config, s: State, i: Id, n: Node)
    requires Ready(cfg, s, i, n)
    ensures n.term >= BOOT_TERM
  {
  }

  lemma InvVoters(s: State)
    requires Inv(s)
    ensures NONE !in s.voters && s.nodes.Keys == s.voters
  {
  }

  /** becomeCandidate, with the node's own vote counted. */
  lemma BecomeCandidateMoves(cfg: Config, s: State, i: Id, n: Node) returns (t: State)
    requires Ready(cfg, s, i, n) && n.role != Leader
    ensures var n' := Poll(BecomeCandidate(n), n.id, true);
            && Ready(cfg, t, i, n') && Moves(s, t, i, {})
            && At(n'.term, i) in t.h.clog && t.h.clog[At(n'.term, i)] == n'.log
            && Granted(n') == {i}
  {
    hide Inv, HistInv, Grows, LogInv, HistLocal;
    t := ProtocolActions.Campaign(s, i);
    CampaignKeepsInv(s, i);
    CampaignIsLocal(s, i) by { InvHist(s); }
    LocalMoves(s, t, i);
    InvVoters(s);
    var n' := Poll(BecomeCandidate(n), n.id, true);
    assert n'.prs.Keys == n.prs.Keys;
    assert n'.votes == map[i := true];
    assert Granted(n') == {i};
    assert View(n') == t.nodes[i];
  }

  lemma InvHist(s: State)
    requires Inv(s)
    ensures HistInv(s) && KeysInv(s) && ElectedInv(s)
  {
  }

  lemma TakeOfficeMoves(cfg: Config, s: State, i: Id, n: Node) returns (t: State)
    requires Ready(cfg, s, i, n) && n.role == Candidate && Member(n) && |Granted(n)| == QuorumSize(n)
    ensures Ready(cfg, t, i, TakeOffice(n)) && Moves(s, t, i, {})
  {
    hide Inv, HistInv, Grows, LogInv, HistLocal, KeysInv, ElectedInv;
    InvNode(s, i);
    InvVoters(s);
    assert Granted(n) <= cfg.voters by { assert View(n).granted == Granted(n); }
    ReachedIsQuorum(cfg, n, Granted(n));
    t := Elect(s, i);
    ElectKeepsInv(s, i);
    ElectIsLocal(s, i) by { InvHist(s); }
    hide RoleInv, NodeInv;
    LocalMoves(s, t, i);
    TakeOfficeView(cfg, n);
  }

  lemma TakeOfficeView(cfg: Config, n: Node)
    requires Member(n) && n.prs.Keys == cfg.voters
    ensures View(TakeOffice(n)) ==
            View(n).(role := Leader, granted := {}, matched := map j | j in cfg.voters :: if j == n.id then |n.log| else 0)
    ensures TakeOffice(n).prs.Keys == n.prs.Keys
    ensures forall j | j in n.prs :: TakeOffice(n).prs[j].next <= |n.log| + 1
  {
  }

  lemma BecomeLeaderMoves(cfg: Config, s: State, i: Id, n: Node) returns (t: State)
    requires Ready(cfg, s, i, n) && n.role == Candidate && Member(n) && |Granted(n)| == QuorumSize(n)
    ensures var n' := BecomeLeader(n); Ready(cfg, t, i, n') && Moves(s, t, i, {}) && n'.role == Leader
  {
    hide Ready, Moves;
    var u := TakeOfficeMoves(cfg, s, i, n);
    t := AppendEntryMoves(cfg, u, i, TakeOffice(n), [""]);
    MovesOn(s, u, t, i, {});
  }

  lemma VoteRequestsAreTrue(cfg: Config, s: State, i: Id, n: Node, transfer: bool)
    requires Ready(cfg, s, i, n) && At(n.term, i) in s.h.clog && s.h.clog[At(n.term, i)] == n.log
    ensures forall m | m in (set j | j in n.prs && j != n.id :: MsgVote(n.term, n.id, j, |n.log|, LastTerm(n.log), transfer)) ::
              MsgInv(s, m)
  {
  }

  /** A campaign that asks for real votes. */
  lemma RealCampaignMoves(cfg: Config, s: State, i: Id, w: Work, t: CampaignType) returns (u: State)
    requires Ready(cfg, s, i, w.n) && Member(w.n) && w.n.role != Leader && !t.PreElection? && w.out <= s.net
    ensures var w' := RaftNode.Campaign(w, t); Ready(cfg, u, i, w'.n) && Moves(s, u, i, w'.out)
  {
    hide Inv, MsgInv, Moves, Reset, BecomeLeader, View;
    var n := Poll(BecomeCandidate(w.n), w.n.id, true);
    var a := BecomeCandidateMoves(cfg, s, i, w.n);
    if QuorumSize(n) == |Granted(n)| {
      u := BecomeLeaderMoves(cfg, a, i, n);
      MovesOn(s, a, u, i, {});
      MovesAgain(s, u, i, {}, w.out);
    } else {
      var ms := set j | j in n.prs && j != n.id :: MsgVote(n.term, n.id, j, |n.log|, LastTerm(n.log), t.Transfer?);
      VoteRequestsAreTrue(cfg, a, i, n, t.Transfer?);
      u := SendMoves(cfg, a, i, n, ms);
      MovesOn(s, a, u, i, ms);
      MovesAgain(s, u, i, ms, w.out);
      assert ms + w.out == w.out + ms;
    }
  }

  lemma CampaignMoves(cfg: Config, s: State, i: Id, w: Work, t: CampaignType) returns (u: State)
    requires Ready(cfg, s, i, w.n) && Member(w.n) && w.n.role != Leader && w.out <= s.net
    ensures var w' := RaftNode.Campaign(w, t); Ready(cfg, u, i, w'.n) && Moves(s, u, i, w'.out)
  {
    hide Inv, MsgInv, Grows, Ready;
    if t.PreElection? {
      var n := Poll(BecomePreCandidate(w.n), w.n.id, true);
      assert n == BecomePreCandidate(w.n).(votes := n.votes);
      var a := BecomePreCandidateMoves(cfg, s, i, w.n, n.votes);
      if QuorumSize(n) == |Granted(n)| {
        u := RealCampaignMoves(cfg, a, i, w.(n := n), Election);
        MovesOn(s, a, u, i, RaftNode.Campaign(w.(n := n), Election).out);
      } else {
        var ms := set j | j in n.prs && j != n.id :: MsgPreVote(n.term + 1, n.id, j, |n.log|, LastTerm(n.log));
        assert forall m | m in ms :: MsgInv(a, m) by { OtherMsgsAreTrue(a, ms); }
        u := SendMoves(cfg, a, i, n, ms);
        MovesOn(s, a, u, i, ms);
      }
    } else {
      u := RealCampaignMoves(cfg, s, i, w, t);
    }
  }

  /** Messages about which the protocol promises nothing. */
  predicate Unconstrained(m: Msg) {
    m.MsgPreVote? || m.MsgPreVoteResp? || m.MsgTimeoutNow? || m.MsgReadIndexResp?
    || m.MsgReadIndex?
  }

  lemma OtherMsgsAreTrue(s: State, ms: set<Msg>)
    requires forall m | m in ms :: Unconstrained(m) && (Termless(m) || m.term >= BOOT_TERM)
    ensures forall m | m in ms :: MsgInv(s, m)
  {
  }

  // ---------------------------------------------------------------- votes

  lemma HandleVoteMoves(cfg: Config, s: State, i: Id, n: Node, m: Msg) returns (t: State)
    requires Ready(cfg, s, i, n) && m.MsgVote? && m in s.net && m.term == n.term
    ensures var w := HandleVote(n, m); Ready(cfg, t, i, w.n) && Moves(s, t, i, w.out)
  {
    hide Inv, HistInv, Grows, LogInv, HistLocal, KeysInv, ElectedInv, RoleInv;
    InvNode(s, i);
    InvVoters(s);
    InvMsg(s, m);
    var w := HandleVote(n, m);
    var a := s;
    if !(MsgVoteResp(n.term, n.id, m.from, true) in w.out) && n.vote == NONE {
      assert m.from in s.voters by { CampaignKeysOf(s); }
      a := Vote(s, i, m.from);
      VoteKeepsInv(s, i, m.from);
      VoteIsLocal(s, i, m.from);
      LocalMoves(s, a, i);
      assert View(w.n) == a.nodes[i];
    } else {
      MovesNot(s, i);
      assert View(w.n) == View(n);
    }
    assert forall x | x in w.out :: MsgInv(a, x);
    t := SendMoves(cfg, a, i, w.n, w.out);
    MovesOn(s, a, t, i, w.out);
  }

  lemma CampaignKeysOf(s: State)
    requires Inv(s)
    ensures CampaignKeys(s) && s.nodes.Keys == s.voters
  {
  }

  /** Recording an answer, granted or not. */
  lemma PollMoves(cfg: Config, s: State, i: Id, n: Node, m: Msg) returns (t: State)
    requires Ready(cfg, s, i, n) && n.role == Candidate && m.MsgVoteResp? && m in s.net && m.term == n.term && m.to == i
    ensures Ready(cfg, t, i, Poll(n, m.from, !m.reject)) && Moves(s, t, i, {})
  {
    hide Inv, HistInv, Grows, LogInv, HistLocal, RoleInv, NodeInv;
    InvMsg(s, m);
    var n' := Poll(n, m.from, !m.reject);
    if m.from !in n.votes && !m.reject {
      t := CountVote(s, i, m.from);
      CountVoteKeepsInv(s, i, m.from);
      OnlyNodeIsLocal(s, t, i);
      LocalMoves(s, t, i);
      assert Granted(n') == Granted(n) + {m.from};
      assert View(n') == t.nodes[i];
    } else {
      t := s;
      MovesNot(s, i);
      assert Granted(n') == Granted(n);
      assert View(n') == View(n);
    }
  }

  lemma AfterPollMoves(cfg: Config, s: State, i: Id, n: Node) returns (t: State)
    requires Ready(cfg, s, i, n) && Member(n) && (n.role == Candidate || n.role == PreCandidate)
    ensures var w := AfterPoll(cfg, n); Ready(cfg, t, i, w.n) && Moves(s, t, i, w.out)
  {
    hide Inv, Grows, Moves, MsgInv;
    InvVoters(s);
    if |Granted(n)| == QuorumSize(n) {
      if n.role == PreCandidate {
        t := CampaignMoves(cfg, s, i, Work(n, {}), Election);
      } else {
        var a := BecomeLeaderMoves(cfg, s, i, n);
        t := BcastAppendMoves(cfg, a, i, Work(BecomeLeader(n), {}));
        MovesOn(s, a, t, i, BcastAppend(cfg, Work(BecomeLeader(n), {})).out);
      }
    } else if |n.votes| - |Granted(n)| == QuorumSize(n) {
      t := BecomeFollowerMoves(cfg, s, i, n, n.term, NONE);
    } else {
      t := s;
      MovesNot(s, i);
    }
  }

  lemma VoteRespMoves(cfg: Config, s: State, i: Id, n: Node, m: Msg) returns (t: State)
    requires Ready(cfg, s, i, n) && Member(n) && n.role == Candidate
    requires m.MsgVoteResp? && m in s.net && m.term == n.term && m.to == i
    ensures var w := CandidateVoteResp(cfg, n, m.from, !m.reject); Ready(cfg, t, i, w.n) && Moves(s, t, i, w.out)
  {
    hide Ready, Moves;
    var n' := Poll(n, m.from, !m.reject);
    var a := PollMoves(cfg, s, i, n, m);
    t := AfterPollMoves(cfg, a, i, n');
    MovesOn(s, a, t, i, CandidateVoteResp(cfg, n, m.from, !m.reject).out);
  }

  lemma PreVoteRespMoves(cfg: Config, s: State, i: Id, n: Node, from: Id, granted: bool) returns (t: State)
    requires Ready(cfg, s, i, n) && Member(n) && n.role == PreCandidate
    ensures var w := CandidateVoteResp(cfg, n, from, granted); Ready(cfg, t, i, w.n) && Moves(s, t, i, w.out)
  {
    hide Inv, Moves;
    var n' := Poll(n, from, granted);
    assert View(n') == View(n);
    t := AfterPollMoves(cfg, s, i, n');
  }

  // ---------------------------------------------------------------- follower handlers

  lemma RespondMoves(cfg: Config, s: State, i: Id, n: Node, m: Msg) returns (t: State)
    requires Ready(cfg, s, i, n) && m.MsgAppResp? && m.term == n.term && m.from == i && m.to != i && (m.reject || m.index <= Acked(s.h, m.term, i))
    ensures Ready(cfg, t, i, n) && Moves(s, t, i, {m})
  {
    hide Inv, Moves;
    t := SendMoves(cfg, s, i, n, {m});
  }

  /** An accepted append never panics and is acknowledged truthfully. */
  lemma AcceptAppendMoves(cfg: Config, s: State, i: Id, n: Node, m: Msg) returns (t: State)
    requires Ready(cfg, s, i, n) && n.role == Follower && m.MsgApp? && m in s.net && m.term == n.term && m.from != i
    requires m.index >= n.committed && Plain(n.log).MatchTerm(m.index, m.logTerm)
    ensures HandleAppend(n, m).Done?
    ensures var w := HandleAppend(n, m).value; Ready(cfg, t, i, w.n) && Moves(s, t, i, w.out)
  {
    hide Inv, HistInv, NodeInv, RoleInv, LogInv, MsgInv, Grows, HistLocal, CanAcknowledge, CommittedIn, FindConflict, Merged, Contiguous;
    InvNode(s, i);
    InvMsg(s, m);
    NoConflictWithCommitted(s, i, m);
    AppendCanAcknowledge(s, i, m);
    var p, last := AppendResult(s.nodes[i], m), m.index + |m.entries|;
    var a := Acknowledge(s, i, p, last);
    AppendKeepsInv(s, i, m);
    AcknowledgeIsLocal(s, i, p, last);
    LocalMoves(s, a, i);
    AckedIsInRange(s, i, p, last);
    var w := HandleAppend(n, m).value;
    assert View(w.n) == p;
    t := RespondMoves(cfg, a, i, w.n, MsgAppResp(n.term, n.id, m.from, last, false, 0));
    MovesOn(s, a, t, i, w.out);
  }

  lemma AckedIsInRange(s: State, i: Id, p: PNode, k: nat)
    requires CanAcknowledge(s, i, p, k)
    ensures p.committed <= |p.log| && k <= |p.log|
    ensures k <= Acked(Acknowledge(s, i, p, k).h, p.term, i)
  {
  }

  lemma StaleAppendMoves(cfg: Config, s: State, i: Id, n: Node, from: Id) returns (t: State)
    requires Ready(cfg, s, i, n) && n.role == Follower && n.term in s.h.tlog && from != i
    ensures Ready(cfg, t, i, n) && Moves(s, t, i, {MsgAppResp(n.term, n.id, from, n.committed, false, 0)})
  {
    hide Inv, HistInv, NodeInv, RoleInv, LogInv, MsgInv, Grows, HistLocal;
    var a := Acknowledge(s, i, s.nodes[i], n.committed);
    StaleAppendKeepsInv(s, i);
    AckHistGrows(s.h, At(n.term, i), n.committed);
    AckIsLocal(s, i, n.committed);
    LocalMoves(s, a, i);
    t := RespondMoves(cfg, a, i, n, MsgAppResp(n.term, n.id, from, n.committed, false, 0));
    MovesOn(s, a, t, i, {MsgAppResp(n.term, n.id, from, n.committed, false, 0)});
  }

  lemma AckIsLocal(s: State, i: Id, k: nat)
    requires i in s.nodes
    ensures LocalTo(s, Acknowledge(s, i, s.nodes[i], k), i)
  {
    hide HistGrows, HistLocal;
    AckHistGrows(s.h, At(s.nodes[i].term, i), k);
  }

  lemma HandleAppendMoves(cfg: Config, s: State, i: Id, n: Node, m: Msg) returns (t: State)
    requires Ready(cfg, s, i, n) && n.role == Follower && m.MsgApp? && m in s.net && m.term == n.term && m.from != i
    ensures HandleAppend(n, m).Done?
    ensures var w := HandleAppend(n, m).value; Ready(cfg, t, i, w.n) && Moves(s, t, i, w.out)
  {
    hide Inv, Grows, CommittedIn, FindConflict, Merged, Contiguous;
    InvMsg(s, m);
    if m.index < n.committed {
      t := StaleAppendMoves(cfg, s, i, n, m.from);
    } else if Plain(n.log).MatchTerm(m.index, m.logTerm) {
      t := AcceptAppendMoves(cfg, s, i, n, m);
    } else {
      t := RespondMoves(cfg, s, i, n, MsgAppResp(n.term, n.id, m.from, m.index, true, |n.log|));
    }
  }

  lemma HandleHeartbeatMoves(cfg: Config, s: State, i: Id, n: Node, m: Msg) returns (t: State)
    requires Ready(cfg, s, i, n) && n.role == Follower && m.MsgHeartbeat? && m in s.net && m.term == n.term && m.to == i && m.from != i
    ensures HandleHeartbeat(n, m).Done?
    ensures var w := HandleHeartbeat(n, m).value; Ready(cfg, t, i, w.n) && Moves(s, t, i, w.out)
  {
    hide Inv, Grows, CommittedIn, HistLocal;
    HeartbeatInRange(s, i, m);
    var a := ProtocolReplication.CommitTo(s, i, m.commit);
    CommitToKeepsInv(s, i, m.commit);
    OnlyNodeIsLocal(s, a, i);
    LocalMoves(s, a, i);
    var w := HandleHeartbeat(n, m).value;
    assert View(w.n) == a.nodes[i];
    assert forall x | x in w.out :: MsgInv(a, x);
    t := SendMoves(cfg, a, i, w.n, w.out);
    MovesOn(s, a, t, i, w.out);
  }

  // ---------------------------------------------------------------- leader handlers

  /** A progress change that raises the match of j to something j acknowledged. */
  lemma MatchMoves(cfg: Config, s: State, i: Id, n: Node, j: Id, pr: Progress) returns (t: State)
    requires Ready(cfg, s, i, n) && n.role == Leader && j in n.prs
    requires pr.matched <= Acked(s.h, n.term, j) && pr.next <= |n.log| + 1
    ensures Ready(cfg, t, i, SetProgress(n, j, pr)) && Moves(s, t, i, {}) && t.net == s.net
  {
    hide Inv, Grows, HistLocal;
    t := SetMatch(s, i, j, pr.matched);
    SetMatchKeepsInv(s, i, j, pr.matched);
    OnlyNodeIsLocal(s, t, i);
    LocalMoves(s, t, i);
    assert View(SetProgress(n, j, pr)) == t.nodes[i];
  }

  lemma AckedWithinLog(cfg: Config, s: State, i: Id, n: Node, j: Id)
    requires Ready(cfg, s, i, n) && n.role == Leader
    ensures Acked(s.h, n.term, j) <= |n.log|
  {
    hide Inv, HistInv, LogInv;
    InvNode(s, i);
    AckKeysOf(s);
  }

  lemma MatchIsAcked(cfg: Config, s: State, i: Id, n: Node, j: Id)
    requires Ready(cfg, s, i, n) && n.role == Leader && j in n.prs
    ensures n.prs[j].matched <= Acked(s.h, n.term, j) <= |n.log| && n.prs[j].next <= |n.log| + 1
  {
    hide Inv, HistInv, LogInv;
    InvNode(s, i);
    AckedWithinLog(cfg, s, i, n, j);
    assert View(n).matched[j] == n.prs[j].matched;
  }

  lemma CommitAndSendMoves(cfg: Config, s: State, i: Id, n: Node, from: Id, oldPaused: bool) returns (t: State)
    requires Ready(cfg, s, i, n) && n.role == Leader && Member(n) && from in n.prs && from != i
    ensures var w := CommitAndSend(cfg, n, from, oldPaused);
            Ready(cfg, t, i, w.n) && Moves(s, t, i, w.out) && w.n.role == Leader && from in w.n.prs
  {
    hide Inv, Moves, MsgInv, AfterSend, AppendMsg, Sends;
    var (n', moved) := MaybeCommit(n);
    var a := MaybeCommitMoves(cfg, s, i, n);
    var w0 := Work(n', {});
    t := a;
    MovesNot(a, i);
    if moved {
      t := BcastAppendMoves(cfg, a, i, w0);
    } else if oldPaused {
      t := SendAppendMoves(cfg, a, i, w0, from, true);
    }
    MovesOn(s, a, t, i, CommitAndSend(cfg, n, from, oldPaused).out);
  }

  lemma LeaderMatchedMoves(cfg: Config, s: State, i: Id, n: Node, from: Id, oldPaused: bool) returns (t: State)
    requires Ready(cfg, s, i, n) && n.role == Leader && Member(n) && from in n.prs && from != i
    ensures var w := LeaderMatched(cfg, n, from, oldPaused); Ready(cfg, t, i, w.n) && Moves(s, t, i, w.out)
  {
    hide Ready, Moves, MsgInv, CommitAndSend, SendAll;
    var w := CommitAndSend(cfg, n, from, oldPaused);
    var b := CommitAndSendMoves(cfg, s, i, n, from, oldPaused);
    var w' := SendAll(cfg, w, from);
    MovesNet(s, b, i, w.out);
    var c := SendAllMoves(cfg, b, i, w, from);
    SendAllKeepsOut(cfg, w, from);
    MovesTogether(s, b, c, i, w.out, w'.out);
    assert w.out + w'.out == w'.out;
    if from == n.transferee && from in w'.n.prs && w'.n.prs[from].matched == |n.log| {
      var m := MsgTimeoutNow(n.term, n.id, from);
      TermIsReal(cfg, s, i, n);
      OtherMsgsAreTrue(c, {m});
      t := SendMoves(cfg, c, i, w'.n, {m});
      MovesTogether(s, c, t, i, w'.out, {m});
    } else {
      t := c;
    }
  }

  lemma MovesNet(s: State, t: State, i: Id, out: set<Msg>)
    requires Moves(s, t, i, out)
    ensures out <= t.net
  {
  }

  /** A rejected append only moves Next back. */
  lemma RejectMoves(cfg: Config, s: State, i: Id, n: Node, m: Msg) returns (t: State)
    requires Ready(cfg, s, i, n) && n.role == Leader && Member(n) && m.MsgAppResp? && m.reject && m.from in n.prs && m.from != i
    ensures var w := LeaderAppResp(cfg, n, m); Ready(cfg, t, i, w.n) && Moves(s, t, i, w.out)
  {
    hide Inv, Moves, MsgInv, AfterSend, AppendMsg, Sends, SendAppend;
    MatchIsAcked(cfg, s, i, n, m.from);
    var pr := n.prs[m.from].(recentActive := true);
    var (pr', decreased) := MaybeDecrTo(pr, m.index, m.rejectHint);
    var pr'' := if decreased && pr'.state == Replicate then BecomeProbe(pr') else pr';
    var n' := SetProgress(n, m.from, pr'');
    SameMatchesReady(cfg, s, i, n, n');
    if decreased {
      t := SendAppendMoves(cfg, s, i, Work(n', {}), m.from, true);
    } else {
      t := s;
      MovesNot(s, i);
    }
  }

  /** The progress after a positive answer. */
  function Advanced(pr: Progress, index: nat): Progress {
    var pr' := MaybeUpdate(pr, index);
    if pr.matched >= index then pr'
    else if pr'.state == Probe then BecomeReplicate(pr') else pr'.(ins := FreeTo(pr'.ins, index))
  }

  lemma AdvancedInRange(pr: Progress, index: nat, last: nat)
    requires pr.next <= last + 1 && index <= last && pr.matched <= last
    ensures Advanced(pr, index).next <= last + 1
    ensures Advanced(pr, index).matched == Max(pr.matched, index)
  {
  }

  lemma AcceptedMoves(cfg: Config, s: State, i: Id, n: Node, m: Msg) returns (t: State)
    requires Ready(cfg, s, i, n) && n.role == Leader && Member(n)
    requires m.MsgAppResp? && !m.reject && m.from in n.prs && m.from != i && m.index <= Acked(s.h, n.term, m.from)
    ensures var w := LeaderAppResp(cfg, n, m); Ready(cfg, t, i, w.n) && Moves(s, t, i, w.out)
  {
    hide Inv, Moves, MsgInv, LeaderMatched, LeaderAppResp, Advanced, IsPaused, NodeOk, View;
    MatchIsAcked(cfg, s, i, n, m.from);
    var pr := n.prs[m.from].(recentActive := true);
    var pr' := Advanced(pr, m.index);
    AdvancedInRange(pr, m.index, |n.log|);
    var n' := SetProgress(n, m.from, pr');
    var a := MatchMoves(cfg, s, i, n, m.from, pr');
    LeaderAppRespIs(cfg, n, m);
    if pr.matched >= m.index {
      t := a;
    } else {
      t := LeaderMatchedMoves(cfg, a, i, n', m.from, IsPaused(cfg, pr));
      MovesOn(s, a, t, i, LeaderAppResp(cfg, n, m).out);
    }
  }

  lemma AppRespMoves(cfg: Config, s: State, i: Id, n: Node, m: Msg) returns (t: State)
    requires Ready(cfg, s, i, n) && n.role == Leader && Member(n)
    requires m.MsgAppResp? && m in s.net && m.from in n.prs && m.from != i && m.term == n.term
    ensures var w := LeaderAppResp(cfg, n, m); Ready(cfg, t, i, w.n) && Moves(s, t, i, w.out)
  {
    hide Inv, Moves, MsgInv, LeaderAppResp, NodeOk, View;
    if m.reject {
      t := RejectMoves(cfg, s, i, n, m);
    } else {
      AppRespIsAcked(s, m);
      t := AcceptedMoves(cfg, s, i, n, m);
    }
  }

  lemma LeaderAppRespIs(cfg: Config, n: Node, m: Msg)
    requires Member(n) && m.MsgAppResp? && !m.reject && m.from in n.prs
    ensures var pr := n.prs[m.from].(recentActive := true);
            var n' := SetProgress(n, m.from, Advanced(pr, m.index));
            LeaderAppResp(cfg, n, m) ==
            if pr.matched >= m.index then Work(n', {}) else LeaderMatched(cfg, n', m.from, IsPaused(cfg, pr))
  {
  }

  lemma AppRespIsAcked(s: State, m: Msg)
    requires Inv(s) && m in s.net && m.MsgAppResp? && !m.reject
    ensures m.index <= Acked(s.h, m.term, m.from)
  {
    InvMsg(s, m);
  }

  // ---------------------------------------------------------------- reads

  lemma {:induction false} ReleaseReadsMoves(cfg: Config, s: State, i: Id, w: Work, rs: seq<PendingRead>) returns (t: State)
    requires Ready(cfg, s, i, w.n) && w.out <= s.net
    ensures var w' := ReleaseReads(w, rs); Ready(cfg, t, i, w'.n) && Moves(s, t, i, w'.out) && w.out <= w'.out
    decreases |rs|
  {
    hide Inv, MsgInv, Grows;
    if rs == [] {
      t := s;
      MovesNot(s, i);
    } else {
      var w1 := ReleaseRead(w, rs[0]);
      var ms := w1.out - w.out;
      OtherMsgsAreTrue(s, ms);
      var a := SendMoves(cfg, s, i, w.n, ms);
      SameMatchesReady(cfg, a, i, w.n, w1.n);
      t := ReleaseReadsMoves(cfg, a, i, w1, rs[1..]);
      MovesTogether(s, a, t, i, ms, ReleaseReads(w1, rs[1..]).out);
      assert ms + ReleaseReads(w1, rs[1..]).out == ReleaseReads(w, rs).out;
    }
  }

  lemma AckReadMoves(cfg: Config, s: State, i: Id, w: Work, from: Id, ctx: Ctx) returns (t: State)
    requires Ready(cfg, s, i, w.n) && w.out <= s.net
    ensures var w' := LeaderAckRead(w, from, ctx); Ready(cfg, t, i, w'.n) && Moves(s, t, i, w'.out) && w.out <= w'.out
  {
    hide Inv, MsgInv, Grows, ReleaseReads;
    var pending := AckRead(w.n.pending, ctx, from);
    var k := FindRead(pending, ctx);
    var n := w.n.(pending := pending);
    if k == |pending| || |pending[k].acks| + 1 < QuorumSize(n) {
      SameMatchesReady(cfg, s, i, w.n, n);
      t := s;
      MovesNot(s, i);
    } else {
      var n' := n.(pending := pending[k + 1..]);
      SameMatchesReady(cfg, s, i, w.n, n');
      t := ReleaseReadsMoves(cfg, s, i, w.(n := n'), pending[..k + 1]);
    }
  }

  lemma HeartbeatRespMoves(cfg: Config, s: State, i: Id, n: Node, m: Msg) returns (t: State)
    requires Ready(cfg, s, i, n) && n.role == Leader && Member(n) && m.MsgHeartbeatResp? && m.from in n.prs && m.from != i
    ensures var w := LeaderHeartbeatResp(cfg, n, m); Ready(cfg, t, i, w.n) && Moves(s, t, i, w.out)
  {
    hide Inv, Moves, MsgInv, LeaderAckRead, AfterSend, AppendMsg, Sends, FreeTo;
    var pr := n.prs[m.from].(recentActive := true, paused := false);
    var pr' := if pr.state == Replicate && pr.ins != [] && |pr.ins| == cfg.maxInflight
               then pr.(ins := FreeTo(pr.ins, pr.ins[0])) else pr;
    var w := Work(SetProgress(n, m.from, pr'), {});
    SameMatchesReady(cfg, s, i, n, w.n);
    var w' := if pr'.matched < |n.log| then SendAppend(cfg, w, m.from, true) else w;
    var a := s;
    MovesNot(s, i);
    if pr'.matched < |n.log| {
      a := SendAppendMoves(cfg, s, i, w, m.from, true);
    }
    if cfg.leaseRead || m.ctx == "" {
      t := a;
    } else {
      MovesNet(s, a, i, w'.out);
      t := AckReadMoves(cfg, a, i, w', m.from, m.ctx);
      var w'' := LeaderAckRead(w', m.from, m.ctx);
      MovesTogether(s, a, t, i, w'.out, w''.out);
      assert w'.out + w''.out == w''.out;
    }
  }

  lemma ReadIndexMoves(cfg: Config, s: State, i: Id, n: Node, m: Msg) returns (t: State)
    requires Ready(cfg, s, i, n) && n.role == Leader && Member(n) && m.MsgReadIndex?
    ensures var w := LeaderReadIndex(cfg, n, m); Ready(cfg, t, i, w.n) && Moves(s, t, i, w.out)
  {
    hide Inv, MsgInv, Grows;
    var w := Work(n, {});
    var r := PendingRead(m.ctx, m.from, n.committed, {});
    if QuorumSize(n) <= 1 || (TermAt(n.log, n.committed) == n.term && cfg.leaseRead) {
      t := ReleaseReadsMoves(cfg, s, i, w, [r]);
      assert ReleaseReads(w, [r]) == ReleaseRead(w, r);
    } else if TermAt(n.log, n.committed) != n.term {
      t := s;
      MovesNot(s, i);
    } else {
      var n' := n.(pending := AddRead(n.pending, n.committed, m.from, m.ctx));
      SameMatchesReady(cfg, s, i, n, n');
      t := BcastHeartbeatMoves(cfg, s, i, Work(n', {}), m.ctx);
    }
  }

  lemma TransferMoves(cfg: Config, s: State, i: Id, n: Node, m: Msg) returns (t: State)
    requires Ready(cfg, s, i, n) && n.role == Leader && Member(n) && m.MsgTransferLeader? && m.from in n.prs
    ensures var w := LeaderTransfer(cfg, n, m); Ready(cfg, t, i, w.n) && Moves(s, t, i, w.out)
  {
    hide Inv, MsgInv, Moves, AfterSend, AppendMsg, Sends;
    t := s;
    MovesNot(s, i);
    if n.transferee != m.from || n.transferee == NONE {
      var n' := n.(transferee := NONE);
      SameMatchesReady(cfg, s, i, n, n');
      if m.from != n.id {
        var n'' := n'.(elapsed := 0, transferee := m.from);
        SameMatchesReady(cfg, s, i, n, n'');
        if n.prs[m.from].matched == |n.log| {
          OtherMsgsAreTrue(s, {MsgTimeoutNow(n.term, n.id, m.from)});
          t := SendMoves(cfg, s, i, n'', {MsgTimeoutNow(n.term, n.id, m.from)});
        } else {
          t := SendAppendMoves(cfg, s, i, Work(n'', {}), m.from, true);
        }
      }
    }
  }

  lemma CheckQuorumMoves(cfg: Config, s: State, i: Id, n: Node) returns (t: State)
    requires Ready(cfg, s, i, n) && n.role == Leader && Member(n)
    ensures Ready(cfg, t, i, CheckQuorum(n)) && Moves(s, t, i, {})
  {
    hide Inv, Moves;
    var n' := n.(prs := map j | j in n.prs :: if j == n.id then n.prs[j] else n.prs[j].(recentActive := false));
    SameMatchesReady(cfg, s, i, n, n');
    if |ActiveVoters(n)| >= QuorumSize(n) {
      t := s;
      MovesNot(s, i);
    } else {
      InvVoters(s);
      t := BecomeFollowerMoves(cfg, s, i, n', n.term, NONE);
    }
  }

  // ---------------------------------------------------------------- step

  /** A message node i may be handed: something sent to it, or something local. */
  ghost predicate Deliverable(net: set<Msg>, i: Id, m: Msg) {
    if IsLocal(m) then
      m.MsgProp? ==> m.payload != []
    else m in net && m.to == i
  }

  /** Proposals, reads and transfers that enter at this node, and the timers. */
  predicate IsLocal(m: Msg) {
    m.MsgHup? || m.MsgBeat? || m.MsgCheckQuorum? || m.MsgUnreachable?
    || (m.MsgProp? && m.from == NONE) || (m.MsgReadIndex? && m.from == NONE)
    || (m.MsgTransferLeader? && m.term == 0)
  }

  /** What Dispatch hands on: messages of the node's term, messages without one, and early pre-vote answers. */
  predicate InTerm(n: Node, m: Msg) {
    Termless(m) || IsLocal(m) || m.term == n.term || m.MsgPreVoteResp?
  }

  lemma ProposalMoves(cfg: Config, s: State, i: Id, n: Node, payload: seq<string>) returns (t: State)
    requires Ready(cfg, s, i, n) && n.role == Leader && Member(n)
    ensures var w := BcastAppend(cfg, Work(AppendEntry(n, payload), {})); Ready(cfg, t, i, w.n) && Moves(s, t, i, w.out)
  {
    hide Ready, Moves, AppendEntry, BcastAppend;
    var a := AppendEntryMoves(cfg, s, i, n, payload);
    t := BcastAppendMoves(cfg, a, i, Work(AppendEntry(n, payload), {}));
    MovesOn(s, a, t, i, BcastAppend(cfg, Work(AppendEntry(n, payload), {})).out);
  }

  lemma StepLeaderMoves(cfg: Config, s: State, i: Id, n: Node, m: Msg) returns (t: State)
    requires Ready(cfg, s, i, n) && Member(n) && n.role == Leader && Deliverable(s.net, i, m)
    requires InTerm(n, m)
    requires m.MsgProp? ==> m.payload != []
    ensures StepLeader(cfg, n, m).Done?
    ensures var w := StepLeader(cfg, n, m).value; Ready(cfg, t, i, w.n) && Moves(s, t, i, w.out)
  {
    hide Ready, Moves, LeaderAppResp, LeaderHeartbeatResp, LeaderReadIndex, LeaderTransfer, CheckQuorum,
         AppendEntry, BcastAppend, BcastHeartbeat;
    var w := Work(n, {});
    t := s;
    MovesNot(s, i);
    if m in s.net { NotFromSelf(s, m) by { ReadyInv(cfg, s, i, n); } }
    match m
    case MsgBeat =>
      t := BcastHeartbeatMoves(cfg, s, i, w, if n.pending == [] then "" else n.pending[|n.pending| - 1].ctx);
    case MsgCheckQuorum => t := CheckQuorumMoves(cfg, s, i, n);
    case MsgProp(_, _, payload) =>
      if n.transferee == NONE { t := ProposalMoves(cfg, s, i, n, payload); }
    case MsgReadIndex(_, _, _) => t := ReadIndexMoves(cfg, s, i, n, m);
    case MsgAppResp(_, from, _, _, _, _) => if from in n.prs { t := AppRespMoves(cfg, s, i, n, m); }
    case MsgHeartbeatResp(_, from, _, _) => if from in n.prs { t := HeartbeatRespMoves(cfg, s, i, n, m); }
    case MsgUnreachable(from) => if from in n.prs { UnreachableReady(cfg, s, i, n, from); }
    case MsgTransferLeader(_, from, _) => if from in n.prs { t := TransferMoves(cfg, s, i, n, m); }
    case _ =>
  }

  lemma ReadyInv(cfg: Config, s: State, i: Id, n: Node)
    requires Ready(cfg, s, i, n)
    ensures Inv(s)
  {
  }

  lemma NotFromSelf(s: State, m: Msg)
    requires Inv(s) && m in s.net
    ensures m.MsgApp? || m.MsgAppResp? || m.MsgHeartbeat? || m.MsgHeartbeatResp? ==> m.from != m.to
  {
    InvMsg(s, m);
  }

  lemma UnreachableReady(cfg: Config, s: State, i: Id, n: Node, from: Id)
    requires Ready(cfg, s, i, n) && n.role == Leader && from in n.prs
    ensures Ready(cfg, s, i, SetProgress(n, from, BecomeProbe(n.prs[from])))
  {
    hide Inv;
    MatchIsAcked(cfg, s, i, n, from);
    SameMatchesReady(cfg, s, i, n, SetProgress(n, from, BecomeProbe(n.prs[from])));
  }

  lemma StepCandidateMoves(cfg: Config, s: State, i: Id, n: Node, m: Msg) returns (t: State)
    requires Ready(cfg, s, i, n) && Member(n) && (n.role == Candidate || n.role == PreCandidate) && Deliverable(s.net, i, m)
    requires InTerm(n, m)
    requires m.MsgApp? || m.MsgHeartbeat? ==> KnownLeader(s, i, m)
    ensures StepCandidate(cfg, n, m).Done?
    ensures var w := StepCandidate(cfg, n, m).value; Ready(cfg, t, i, w.n) && Moves(s, t, i, w.out)
  {
    hide Inv, Moves, MsgInv, CandidateVoteResp, HandleAppend, HandleHeartbeat;
    t := s;
    MovesNot(s, i);
    match m
    case MsgApp(term, from, _, _, _, _, _) =>
      var a := BecomeFollowerMoves(cfg, s, i, n, term, from);
      assert m in a.net by { NetKept(s, a, i, {}); }
      t := HandleAppendMoves(cfg, a, i, BecomeFollower(n, term, from), m);
      MovesOn(s, a, t, i, StepCandidate(cfg, n, m).value.out);
    case MsgHeartbeat(term, from, _, _, _) =>
      var a := BecomeFollowerMoves(cfg, s, i, n, term, from);
      assert m in a.net by { NetKept(s, a, i, {}); }
      t := HandleHeartbeatMoves(cfg, a, i, BecomeFollower(n, term, from), m);
      MovesOn(s, a, t, i, StepCandidate(cfg, n, m).value.out);
    case MsgVoteResp(_, from, _, reject) => if n.role == Candidate { t := VoteRespMoves(cfg, s, i, n, m); }
    case MsgPreVoteResp(_, from, _, reject) => if n.role == PreCandidate { t := PreVoteRespMoves(cfg, s, i, n, from, !reject); }
    case _ =>
  }

  lemma NetKept(s: State, t: State, i: Id, out: set<Msg>)
    requires Moves(s, t, i, out)
    ensures s.net <= t.net
  {
  }

  /** The sender is the leader of the message's term, and is not this node. */
  ghost predicate KnownLeader(s: State, i: Id, m: Msg)
    requires m.MsgApp? || m.MsgHeartbeat?
  {
    m.from != i && m.from != NONE && m.term in s.h.leaderOf && s.h.leaderOf[m.term] == m.from
  }

  /** A follower that hears from the leader of its term remembers it. */
  lemma HearsLeader(cfg: Config, s: State, i: Id, n: Node, m: Msg)
    requires Ready(cfg, s, i, n) && (m.MsgApp? || m.MsgHeartbeat?) && KnownLeader(s, i, m) && m.term == n.term
    ensures Ready(cfg, s, i, n.(elapsed := 0, lead := m.from)) && m.from != i
  {
    hide Inv;
    assert View(n.(elapsed := 0, lead := m.from)) == View(n);
  }

  lemma ForwardMoves(cfg: Config, s: State, i: Id, n: Node, m: Msg) returns (t: State)
    requires Ready(cfg, s, i, n) && n.lead != NONE
    requires (m.MsgProp? && m.payload != []) || m.MsgReadIndex? || m == MsgTransferLeader(n.term, n.id, n.lead)
    ensures Ready(cfg, t, i, n) && Moves(s, t, i, Work(n, {}).Sending(m).out)
  {
    hide Inv, Moves;
    assert MsgInv(s, m);
    t := SendMoves(cfg, s, i, n, Work(n, {}).Sending(m).out);
  }

  lemma StepFollowerMoves(cfg: Config, s: State, i: Id, n: Node, m: Msg) returns (t: State)
    requires Ready(cfg, s, i, n) && Member(n) && n.role == Follower && Deliverable(s.net, i, m)
    requires InTerm(n, m)
    requires m.MsgProp? ==> m.payload != []
    requires m.MsgApp? || m.MsgHeartbeat? ==> KnownLeader(s, i, m)
    ensures StepFollower(cfg, n, m).Done?
    ensures var w := StepFollower(cfg, n, m).value; Ready(cfg, t, i, w.n) && Moves(s, t, i, w.out)
  {
    hide Ready, Moves, RaftNode.Campaign, HandleAppend, HandleHeartbeat, KnownLeader;
    t := s;
    MovesNot(s, i);
    match m
    case MsgApp(_, from, _, _, _, _, _) =>
      HearsLeader(cfg, s, i, n, m);
      t := HandleAppendMoves(cfg, s, i, n.(elapsed := 0, lead := from), m);
    case MsgHeartbeat(_, from, _, _, _) =>
      HearsLeader(cfg, s, i, n, m);
      t := HandleHeartbeatMoves(cfg, s, i, n.(elapsed := 0, lead := from), m);
    case MsgTimeoutNow(_, _, _) => t := CampaignMoves(cfg, s, i, Work(n, {}), Transfer);
    case MsgReadIndexResp(_, _, _, index, ctx) =>
      SameMatchesReady(cfg, s, i, n, n.(readStates := n.readStates + [ReadState(index, ctx)]));
    case MsgTransferLeader(_, _, _) =>
      TransferIsLocal(cfg, s, i, n, m);
      if n.lead != NONE { t := ForwardMoves(cfg, s, i, n, MsgTransferLeader(n.term, n.id, n.lead)); }
    case MsgProp(_, _, payload) =>
      if n.lead != NONE && !cfg.noForwarding { t := ForwardMoves(cfg, s, i, n, MsgProp(n.id, n.lead, payload)); }
    case MsgReadIndex(_, _, ctx) =>
      if n.lead != NONE { t := ForwardMoves(cfg, s, i, n, MsgReadIndex(n.id, n.lead, ctx)); }
    case _ =>
  }

  /** A forwarded transfer request only reaches a follower that knows no leader,
      so send never refuses it for already carrying a term. */
  lemma TransferIsLocal(cfg: Config, s: State, i: Id, n: Node, m: Msg)
    requires Ready(cfg, s, i, n) && n.role == Follower && m.MsgTransferLeader? && Deliverable(s.net, i, m)
    requires m.term == 0 || m.term == n.term
    ensures n.lead == NONE || m.term == 0
  {
    hide Inv;
    if m.term != 0 { InvMsg(s, m); }
  }

  lemma HandlePreVoteMoves(cfg: Config, s: State, i: Id, n: Node, m: Msg) returns (t: State)
    requires Ready(cfg, s, i, n) && m.MsgPreVote? && m in s.net
    ensures var w := HandlePreVote(n, m); Ready(cfg, t, i, w.n) && Moves(s, t, i, w.out)
  {
    hide Inv, Moves;
    InvMsg(s, m);
    var w := HandlePreVote(n, m);
    OtherMsgsAreTrue(s, w.out);
    t := SendMoves(cfg, s, i, n, w.out);
  }

  lemma DispatchMoves(cfg: Config, s: State, i: Id, n: Node, m: Msg) returns (t: State)
    requires Ready(cfg, s, i, n) && Member(n) && Deliverable(s.net, i, m)
    requires InTerm(n, m) || m.MsgPreVote?
    requires m.MsgProp? ==> m.payload != []
    requires m.MsgApp? || m.MsgHeartbeat? ==> n.role != Leader ==> KnownLeader(s, i, m)
    ensures Dispatch(cfg, n, m).Done?
    ensures var w := Dispatch(cfg, n, m).value; Ready(cfg, t, i, w.n) && Moves(s, t, i, w.out)
  {
    hide Ready, Moves, RaftNode.Campaign, HandleVote, HandlePreVote, StepLeader, StepFollower, StepCandidate, KnownLeader;
    match m
    case MsgHup =>
      if n.role == Leader {
        t := s;
        MovesNot(s, i);
      } else {
        t := CampaignMoves(cfg, s, i, Work(n, {}), if cfg.preVote then PreElection else Election);
      }
    case MsgVote(_, _, _, _, _, _) => t := HandleVoteMoves(cfg, s, i, n, m);
    case MsgPreVote(_, _, _, _, _) => t := HandlePreVoteMoves(cfg, s, i, n, m);
    case _ =>
      match n.role
      case Leader => t := StepLeaderMoves(cfg, s, i, n, m);
      case Follower => t := StepFollowerMoves(cfg, s, i, n, m);
      case _ => t := StepCandidateMoves(cfg, s, i, n, m);
  }

  // ---------------------------------------------------------------- Step

  lemma MsgFacts(s: State, i: Id, m: Msg)
    requires Inv(s) && Deliverable(s.net, i, m)
    ensures m.MsgProp? ==> m.payload != []
    ensures Termless(m) || IsLocal(m) || m.term >= BOOT_TERM
    ensures m.MsgApp? || m.MsgHeartbeat? ==> KnownLeader(s, i, m)
  {
    hide Inv, CommittedIn;
    if !IsLocal(m) {
      InvMsg(s, m);
      if m.MsgApp? || m.MsgHeartbeat? {
        InvHist(s);
        InvVoters(s);
        KeysLeader(s, m.term);
      }
    }
  }

  /** One call of Step, from any reachable state and for any message it may be handed:
      it does not panic, and it is a sequence of protocol actions. */
  lemma StepMoves(cfg: Config, s: State, i: Id, n: Node, m: Msg) returns (t: State)
    requires Ready(cfg, s, i, n) && Member(n) && Deliverable(s.net, i, m)
    ensures Step(cfg, n, m).Done?
    ensures var w := Step(cfg, n, m).value; Ready(cfg, t, i, w.n) && Moves(s, t, i, w.out)
  {
    hide Inv, MsgInv, Moves, View, Dispatch, BecomeFollower;
    MsgFacts(s, i, m);
    InvVoters(s);
    var term := TermOf(m);
    if term == 0 || term == n.term {
      t := DispatchMoves(cfg, s, i, n, m);
    } else if term > n.term {
      if IgnoredInLease(cfg, n, m) {
        t := s;
        MovesNot(s, i);
      } else if m.MsgPreVote? || (m.MsgPreVoteResp? && !m.reject) {
        t := DispatchMoves(cfg, s, i, n, m);
      } else {
        t := NewTermMoves(cfg, s, i, n, m);
      }
    } else if (cfg.checkQuorum || cfg.preVote) && (m.MsgHeartbeat? || m.MsgApp?) {
      t := RespondMoves(cfg, s, i, n, MsgAppResp(n.term, n.id, m.from, 0, false, 0));
    } else if m.MsgPreVote? {
      OtherMsgsAreTrue(s, {MsgPreVoteResp(n.term, n.id, m.from, true)});
      t := SendMoves(cfg, s, i, n, {MsgPreVoteResp(n.term, n.id, m.from, true)});
    } else {
      t := s;
      MovesNot(s, i);
    }
  }

  lemma NewTermMoves(cfg: Config, s: State, i: Id, n: Node, m: Msg) returns (t: State)
    requires Ready(cfg, s, i, n) && Member(n) && Deliverable(s.net, i, m) && !IsLocal(m) && !Termless(m) && m.term > n.term
    requires m.MsgApp? || m.MsgHeartbeat? ==> KnownLeader(s, i, m)
    ensures var n' := BecomeFollower(n, m.term, if m.MsgApp? || m.MsgHeartbeat? then m.from else NONE);
            && Member(n') && Dispatch(cfg, n', m).Done?
            && var w := Dispatch(cfg, n', m).value; Ready(cfg, t, i, w.n) && Moves(s, t, i, w.out)
  {
    hide Inv, MsgInv, Moves, View, Dispatch;
    InvVoters(s);
    var lead := if m.MsgApp? || m.MsgHeartbeat? then m.from else NONE;
    var n' := BecomeFollower(n, m.term, lead);
    var a := BecomeFollowerMoves(cfg, s, i, n, m.term, lead);
    NetKept(s, a, i, {});
    t := DispatchMoves(cfg, a, i, n', m);
    MovesOn(s, a, t, i, Dispatch(cfg, n', m).value.out);
  }
}
