/** The safety properties of Raft, over every run of the cluster. */
module Safety {
  import opened RaftTypes
  import opened Protocol
  import opened ProtocolReplication
  import opened RaftNode
  import opened Refinement
  import opened Cluster

  /** What is acknowledged, voted and logged in a run only grows. */
  ghost predicate MirrorsRun(cfg: Config, b: seq<Cluster>, ss: seq<State>) {
    && |ss| == |b|
    && (forall x | 0 <= x < |b| :: Mirrors(cfg, b[x], ss[x]))
    && (forall x, y | 0 <= x <= y < |b| :: Grows(ss[x], ss[y]))
  }

  lemma GrowsTogether(s: State, t: State, u: State)
    requires Grows(s, t) && Grows(t, u)
    ensures Grows(s, u)
  {
    hide HistGrows;
    HistGrowsTogether(s.h, t.h, u.h);
  }

  lemma {:induction false} RunMirrors(cfg: Config, boot: seq<Entry>, b: seq<Cluster>) returns (ss: seq<State>)
    requires Run(cfg, boot, b)
    ensures MirrorsRun(cfg, b, ss)
    decreases |b|
  {
    hide Mirrors, Grows, Next, Init;
    if |b| == 1 {
      ss := [InitState(cfg, boot)];
      InitMirrors(cfg, boot, b[0]);
      GrowsSelf(ss[0]);
    } else {
      var last := |b| - 1;
      assert Run(cfg, boot, b[..last]);
      var front := RunMirrors(cfg, boot, b[..last]);
      assert Next(cfg, b[last - 1], b[last - 1 + 1]);
      assert b[..last][last - 1] == b[last - 1];
      var t := NextMirrors(cfg, b[last - 1], b[last], front[last - 1]);
      ss := front + [t];
      GrowsSelf(t);
      forall x | 0 <= x < |b| ensures Mirrors(cfg, b[x], ss[x]) {
        if x < last { assert b[..last][x] == b[x]; }
      }
      forall x, y | 0 <= x <= y < |b| ensures Grows(ss[x], ss[y]) {
        if x < last && y == last { GrowsTogether(front[x], front[last - 1], t); }
      }
    }
  }

  lemma MirrorsNode(cfg: Config, c: Cluster, s: State, i: Id)
    requires Mirrors(cfg, c, s) && i in c.nodes
    ensures Inv(s) && Ready(cfg, s, i, c.nodes[i]) && i in s.nodes && s.nodes[i] == View(c.nodes[i])
  {
  }

  /** Committed entries never disagree: not between two nodes, not between two moments
      of a run, whether or not the node crashed in between. */
  lemma StateMachineSafety(cfg: Config, boot: seq<Entry>, b: seq<Cluster>, x: nat, y: nat, i: Id, j: Id, k: nat)
    requires Run(cfg, boot, b) && x < |b| && y < |b| && i in b[x].nodes && j in b[y].nodes
    requires 1 <= k <= b[x].nodes[i].committed && k <= b[y].nodes[j].committed
    ensures k <= |b[x].nodes[i].log| && k <= |b[y].nodes[j].log|
    ensures b[x].nodes[i].log[k - 1] == b[y].nodes[j].log[k - 1]
  {
    if x <= y {
      CommittedPrefixesAgree(cfg, boot, b, x, y, i, j, k);
    } else {
      CommittedPrefixesAgree(cfg, boot, b, y, x, j, i, k);
    }
    var p, q := b[x].nodes[i].log, b[y].nodes[j].log;
    assert p[k - 1] == p[..k][k - 1] == q[..k][k - 1] == q[k - 1];
  }

  lemma NodeCommitted(cfg: Config, c: Cluster, s: State, i: Id)
    requires Mirrors(cfg, c, s) && i in c.nodes
    ensures var n := c.nodes[i]; CommittedIn(s, n.log, n.term, n.committed) && n.committed <= |n.log|
    ensures CompletenessInv(s)
  {
    hide Inv, KeepsAcks, Good;
    MirrorsNode(cfg, c, s, i);
    InvNode(s, i);
  }

  lemma CommittedPrefixesAgree(cfg: Config, boot: seq<Entry>, b: seq<Cluster>, x: nat, y: nat, i: Id, j: Id, k: nat)
    requires Run(cfg, boot, b) && x <= y < |b| && i in b[x].nodes && j in b[y].nodes
    requires k <= b[x].nodes[i].committed && k <= b[y].nodes[j].committed
    ensures k <= |b[x].nodes[i].log| && k <= |b[y].nodes[j].log|
    ensures b[x].nodes[i].log[..k] == b[y].nodes[j].log[..k]
  {
    hide Mirrors, Grows, CommittedIn, CompletenessInv, Run;
    var ss := RunMirrors(cfg, boot, b);
    var n, m := b[x].nodes[i], b[y].nodes[j];
    NodeCommitted(cfg, b[x], ss[x], i);
    NodeCommitted(cfg, b[y], ss[y], j);
    CommittedInGrows(ss[x], ss[y], n.log, n.term, n.committed, n.log, n.term);
    CommittedAgree(ss[y], n.log, n.term, n.committed, m.log, m.term, m.committed, k);
  }

  /** Leader completeness (section 5.4.3 of the extended Raft paper): whatever a node has committed
      is in the log of every leader of that node's term or a later one, then and ever after. */
  lemma LeaderCompleteness(cfg: Config, boot: seq<Entry>, b: seq<Cluster>, x: nat, y: nat, i: Id, j: Id)
    requires Run(cfg, boot, b) && x <= y < |b| && i in b[x].nodes && j in b[y].nodes
    requires b[y].nodes[j].role == Leader && b[x].nodes[i].term <= b[y].nodes[j].term
    ensures var c := b[x].nodes[i].committed;
            && c <= |b[x].nodes[i].log| && c <= |b[y].nodes[j].log|
            && b[x].nodes[i].log[..c] == b[y].nodes[j].log[..c]
  {
    hide Mirrors, Grows, CommittedIn, CompletenessInv, Run, Inv, LogInv;
    var ss := RunMirrors(cfg, boot, b);
    var n, m := b[x].nodes[i], b[y].nodes[j];
    NodeCommitted(cfg, b[x], ss[x], i);
    NodeCommitted(cfg, b[y], ss[y], j);
    CommittedInGrows(ss[x], ss[y], n.log, n.term, n.committed, n.log, n.term);
    MirrorsNode(cfg, b[y], ss[y], j);
    InvNode(ss[y], j);
    CommittedReachesLeader(ss[y], n.log, n.term, n.committed, m.term);
  }

  /** Log matching (section 5.3): two logs of a run with the same term at a position are equal up to it. */
  lemma LogMatching(cfg: Config, boot: seq<Entry>, b: seq<Cluster>, x: nat, y: nat, i: Id, j: Id, k: nat)
    requires Run(cfg, boot, b) && x <= y < |b| && i in b[x].nodes && j in b[y].nodes
    requires 1 <= k <= |b[x].nodes[i].log| && k <= |b[y].nodes[j].log|
    requires b[x].nodes[i].log[k - 1].term == b[y].nodes[j].log[k - 1].term
    ensures b[x].nodes[i].log[..k] == b[y].nodes[j].log[..k]
  {
    hide Mirrors, Grows, Covered, WellFormed, Run;
    var ss := RunMirrors(cfg, boot, b);
    var n, m := b[x].nodes[i].log, b[y].nodes[j].log;
    var bn := NodeLogIsGood(cfg, b[x], ss[x], i);
    var bm := NodeLogIsGood(cfg, b[y], ss[y], j);
    GoodGrows(ss[x], ss[y], n, bn, bn);
    SameTermSamePrefix(ss[y].h, n, m, k);
  }

  lemma NodeLogIsGood(cfg: Config, c: Cluster, s: State, i: Id) returns (bound: nat)
    requires Mirrors(cfg, c, s) && i in c.nodes
    ensures Good(s.h, c.nodes[i].log, bound)
  {
    hide Inv, KeepsAcks, Good;
    MirrorsNode(cfg, c, s, i);
    InvNode(s, i);
    bound := c.nodes[i].term;
  }

  /** Election safety (section 5.2): a term has at most one leader in a whole run. */
  lemma ElectionSafety(cfg: Config, boot: seq<Entry>, b: seq<Cluster>, x: nat, y: nat, i: Id, j: Id)
    requires Run(cfg, boot, b) && x <= y < |b| && i in b[x].nodes && j in b[y].nodes
    requires b[x].nodes[i].role == Leader && b[y].nodes[j].role == Leader
    requires b[x].nodes[i].term == b[y].nodes[j].term
    ensures i == j
  {
    hide Mirrors, Inv, Run, Grows;
    var ss := RunMirrors(cfg, boot, b);
    LeaderIsRecorded(cfg, b[x], ss[x], i);
    LeaderIsRecorded(cfg, b[y], ss[y], j);
    RecordStays(ss[x], ss[y], b[x].nodes[i].term);
  }

  lemma LeaderIsRecorded(cfg: Config, c: Cluster, s: State, i: Id)
    requires Mirrors(cfg, c, s) && i in c.nodes && c.nodes[i].role == Leader
    ensures c.nodes[i].term in s.h.leaderOf && s.h.leaderOf[c.nodes[i].term] == i
  {
    hide Inv, LogInv, HistInv;
    MirrorsNode(cfg, c, s, i);
    InvNode(s, i);
  }

  lemma RecordStays(s: State, t: State, T: nat)
    requires Grows(s, t) && T in s.h.leaderOf
    ensures T in t.h.leaderOf && t.h.leaderOf[T] == s.h.leaderOf[T]
  {
  }

  /** A node never revokes or changes its vote within a term. */
  lemma OneVotePerTerm(cfg: Config, boot: seq<Entry>, b: seq<Cluster>, x: nat, y: nat, i: Id)
    requires Run(cfg, boot, b) && x <= y < |b| && i in b[x].nodes && i in b[y].nodes
    requires b[x].nodes[i].term == b[y].nodes[i].term && b[x].nodes[i].vote != NONE
    ensures b[y].nodes[i].vote == b[x].nodes[i].vote
  {
    hide Mirrors, Inv, LogInv, RoleInv, Run;
    var ss := RunMirrors(cfg, boot, b);
    MirrorsNode(cfg, b[x], ss[x], i);
    MirrorsNode(cfg, b[y], ss[y], i);
    InvNode(ss[x], i);
    InvNode(ss[y], i);
    assert Grows(ss[x], ss[y]);
  }

  /** No two granted votes of one node in one term name different candidates. */
  lemma VotesAgree(cfg: Config, boot: seq<Entry>, b: seq<Cluster>, x: nat, m: Msg, m': Msg)
    requires Run(cfg, boot, b) && x < |b| && m in b[x].net && m' in b[x].net
    requires m.MsgVoteResp? && m'.MsgVoteResp? && !m.reject && !m'.reject
    requires m.from == m'.from && m.term == m'.term
    ensures m.to == m'.to
  {
    hide Inv, Run;
    var ss := RunMirrors(cfg, boot, b);
    assert Mirrors(cfg, b[x], ss[x]);
    InvMsg(ss[x], m);
    InvMsg(ss[x], m');
  }

  /** Position k of the leader's log is committed and of its own term: it was chosen in this term. */
  lemma OwnCommitIsChosen(s: State, i: Id, k: nat)
    requires HistInv(s) && i in s.nodes && NodeInv(s, i) && s.nodes[i].role == Leader
    requires 1 <= k <= s.nodes[i].committed && TermAt(s.nodes[i].log, k) == s.nodes[i].term
    ensures Chosen(s, s.nodes[i].term, k)
  {
    hide KeepsAcks, AgreesInTerm, KeysInv, ElectedInv, BallotsInv, CampaignsInv, CompletenessInv, VoteInv, Covered;
    var n := s.nodes[i];
    var T, l :| CommitWitness(s, n.log, n.term, n.committed, T, l);
    assert s.h.tlog[T][k - 1] == s.h.tlog[T][..n.committed][k - 1] == n.log[..n.committed][k - 1] == n.log[k - 1];
    assert Good(s.h, s.h.tlog[T], T);
    assert T == n.term;
    var q :| AckQuorum(s, T, l, q);
    assert AckQuorum(s, T, k, q);
  }

  /** A peer keeps what it acknowledged to a leader that committed it, whatever term it has moved on to. */
  lemma PeerKeepsChosen(s: State, i: Id, j: Id, k: nat)
    requires Inv(s) && i in s.nodes && j in s.nodes && s.nodes[i].role == Leader && s.nodes[i].term <= s.nodes[j].term
    requires 1 <= k <= Acked(s.h, s.nodes[i].term, j) && k <= s.nodes[i].committed
    requires TermAt(s.nodes[i].log, k) == s.nodes[i].term
    ensures Has(s.nodes[j].log, s.nodes[i].log, k)
  {
    hide Inv, HistInv, Good, CommittedIn, NotChoosable, AgreesInTerm, VoteInv;
    InvNode(s, i);
    InvNode(s, j);
    OwnCommitIsChosen(s, i, k);
    ChosenIsChoosable(s, s.nodes[i].term, k);
    assert Safe(s, s.nodes[j].log, s.nodes[i].term, k);
  }

  lemma AcksComeLater(s: State, T: nat, j: Id)
    requires HistInv(s) && j in s.nodes && s.nodes[j].term < T
    ensures Acked(s.h, T, j) == 0
  {
    hide LeaderKeys, VoteKeys, CampaignKeys, TermLogsInv, ElectedInv, BallotsInv, CampaignsInv, CompletenessInv;
  }

  /** How far the logs of a leader and its peer agree according to the leader's Match. */
  function Vouched(n: Node, m: Node, j: Id): nat
    requires j in n.prs
  {
    var k := n.prs[j].matched;
    if m.term <= n.term then k
    else if TermAt(n.log, Min(k, n.committed)) == n.term then Min(k, n.committed)
    else 0
  }

  /** Follower-match soundness: a leader's Match bounds a prefix on which both logs agree. A peer
      that has left for a later term still has what the leader of its own term committed of it. */
  lemma MatchSoundness(cfg: Config, boot: seq<Entry>, b: seq<Cluster>, x: nat, i: Id, j: Id)
    requires Run(cfg, boot, b) && x < |b| && i in b[x].nodes && j in b[x].nodes && b[x].nodes[i].role == Leader
    ensures j in b[x].nodes[i].prs
    ensures var k := Vouched(b[x].nodes[i], b[x].nodes[j], j);
            && k <= |b[x].nodes[i].log| && k <= |b[x].nodes[j].log|
            && b[x].nodes[i].log[..k] == b[x].nodes[j].log[..k]
  {
    hide Mirrors, Inv, HistInv, Good, CommittedIn, KeepsAcks, Grows, Run;
    var ss := RunMirrors(cfg, boot, b);
    var s, n, m := ss[x], b[x].nodes[i], b[x].nodes[j];
    MirrorsNode(cfg, b[x], s, i);
    MirrorsNode(cfg, b[x], s, j);
    InvNode(s, i);
    InvNode(s, j);
    InvVoters(s);
    assert View(n).matched[j] == n.prs[j].matched;
    if m.term == n.term {
      AgreementShrinks(m.log, s.h.tlog[n.term], Acked(s.h, n.term, j), n.prs[j].matched);
    } else if m.term < n.term {
      AcksComeLater(s, n.term, j);
    } else if Vouched(n, m, j) > 0 {
      PeerKeepsChosen(s, i, j, Vouched(n, m, j));
    }
  }

  /** In every state of every run Step handles every message it may be handed without panicking:
      no commit index is out of range, no append conflicts with a committed entry, no message is malformed. */
  lemma NoPanic(cfg: Config, boot: seq<Entry>, b: seq<Cluster>, x: nat, i: Id, m: Msg)
    requires Run(cfg, boot, b) && x < |b| && i in b[x].nodes && Deliverable(b[x].net, i, m)
    ensures Member(b[x].nodes[i]) && Step(cfg, b[x].nodes[i], m).Done?
  {
    hide Inv, Grows, Run, Step;
    var ss := RunMirrors(cfg, boot, b);
    MirrorsNode(cfg, b[x], ss[x], i);
    var t := StepMoves(cfg, ss[x], i, b[x].nodes[i], m);
  }

  /** Within a run neither the term nor the commit index of a node ever decreases. */
  lemma {:induction false} Monotonicity(cfg: Config, boot: seq<Entry>, b: seq<Cluster>, x: nat, y: nat, i: Id)
    requires Run(cfg, boot, b) && x <= y < |b| && i in b[x].nodes
    ensures i in b[y].nodes
    ensures b[x].nodes[i].term <= b[y].nodes[i].term && b[x].nodes[i].committed <= b[y].nodes[i].committed
    decreases y
  {
    hide Mirrors, Inv, HistGrows, Next, Init;
    var ss := RunMirrors(cfg, boot, b);
    if x < y {
      Monotonicity(cfg, boot, b, x, y - 1, i);
      assert Next(cfg, b[y - 1], b[y - 1 + 1]);
      var t := NextMirrors(cfg, b[y - 1], b[y], ss[y - 1]);
      MirrorsNode(cfg, b[y - 1], ss[y - 1], i);
      MirrorsNode(cfg, b[y], ss[y], i);
      assert Grows(ss[y - 1], ss[y]);
    }
  }
}
