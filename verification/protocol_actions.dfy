/** The actions of the protocol, each with the proof that it keeps the invariant. */
module ProtocolActions {
  import opened RaftTypes
  import opened Quorums
  import opened Protocol

  function WithNode(s: State, i: Id, n: PNode, h: Hist): State {
    s.(nodes := s.nodes[i := n], h := h)
  }

  // ---------------------------------------------------------------- framing

  /** Node i is the only one that changed. */
  ghost predicate OthersSame(s: State, t: State, i: Id) {
    && i in s.nodes && i in t.nodes && t.net == s.net
    && t.nodes == s.nodes[i := t.nodes[i]]
  }

  /** Only i's part of the history changed. */
  ghost predicate HistLocal(a: Hist, b: Hist, i: Id) {
    && (forall T: nat, j: Id | j != i :: Acked(b, T, j) == Acked(a, T, j))
    && (forall p: At | p in b.voted :: p in a.voted || p.id == i)
    && (forall T | T in a.leaderOf && a.leaderOf[T] != i && T in a.tlog :: T in b.tlog && b.tlog[T] == a.tlog[T])
    && (forall T | T in b.leaderOf :: T in a.leaderOf || b.leaderOf[T] == i)
    && (forall T | T in a.leaderOf && a.leaderOf[T] != i :: Declared(b, T) == Declared(a, T))
  }

  ghost predicate LocalTo(s: State, t: State, i: Id) {
    Grows(s, t) && OthersSame(s, t, i) && HistLocal(s.h, t.h, i)
  }

  /** A node the action leaves alone keeps its invariant. */
  lemma OtherNodeKeepsInv(s: State, t: State, i: Id, j: Id)
    requires LocalTo(s, t, i) && KeysInv(s)
    requires j in s.nodes && j != i && NodeInv(s, j)
    ensures NodeInv(t, j)
  {
    hide LogInv;
    LogInvGrows(s, t, j);
  }

  lemma LocalKeepsNodes(s: State, t: State, i: Id)
    requires KeysInv(s) && NodesInv(s) && LocalTo(s, t, i)
    requires i in t.nodes && NodeInv(t, i)
    ensures NodesInv(t)
  {
    hide KeysInv, NodeInv;
    assert t.nodes.Keys == s.nodes.Keys;
    hide LocalTo;
    forall j | j in t.nodes ensures NodeInv(t, j) {
      if j != i { OtherNodeKeepsInv(s, t, i, j); }
    }
  }

  lemma LocalKeepsInv(s: State, t: State, i: Id)
    requires Inv(s) && LocalTo(s, t, i)
    requires i in t.nodes && NodeInv(t, i) && HistInv(t)
    ensures Inv(t)
  {
    hide KeysInv, NodesInv, NodeInv, NetInv, TermLogsInv, ElectedInv, BallotsInv, CampaignsInv, CompletenessInv;
    LocalKeepsNodes(s, t, i);
    NetInvGrows(s, t);
  }

  /** Node i changed, nothing else did, and its term did not fall. */
  ghost predicate OnlyNode(s: State, t: State, i: Id) {
    && i in s.nodes && i in t.nodes && t == s.(nodes := s.nodes[i := t.nodes[i]])
    && s.nodes[i].term <= t.nodes[i].term
  }

  lemma OnlyNodeIsLocal(s: State, t: State, i: Id)
    requires OnlyNode(s, t, i)
    ensures LocalTo(s, t, i)
  {
  }

  /** The records an action added are in order; the older ones stay so. */
  lemma HistInvFrom(s: State, t: State)
    requires HistInv(s) && Grows(s, t)
    requires KeysInv(t) && CompletenessInv(t)
    requires forall T | T in t.h.tlog :: (T in s.h.tlog && t.h.tlog[T] == s.h.tlog[T]) || Good(t.h, t.h.tlog[T], T)
    requires forall T | T in t.h.leaderOf :: T in s.h.leaderOf || Elected(t, T, t.h.leaderOf[T])
    requires forall p: At | p in t.h.voted :: p in s.h.voted || BallotSafe(t, p)
    requires forall p: At | p in t.h.clog :: p in s.h.clog || (p.term > 0 && Good(t.h, t.h.clog[p], p.term - 1))
    ensures HistInv(t)
  {
    hide Good, Elected, BallotSafe, Safe, KeysInv, CompletenessInv;
    OldRecordsGrow(s, t);
    assert TermLogsInv(t);
    assert ElectedInv(t);
    assert BallotsInv(t);
    assert CampaignsInv(t);
  }

  lemma LeaderKeysKept(s: State, t: State)
    requires LeaderKeys(s) && TermsGrow(s, t) && t.h.tlog == s.h.tlog && t.h.leaderOf == s.h.leaderOf && t.h.tcommit == s.h.tcommit
    ensures LeaderKeys(t)
  {
  }

  lemma VoteKeysKept(s: State, t: State)
    requires VoteKeys(s) && TermsGrow(s, t) && t.h.voted == s.h.voted && t.h.clog == s.h.clog
    ensures VoteKeys(t)
  {
  }

  lemma CampaignKeysKept(s: State, t: State)
    requires CampaignKeys(s) && TermsGrow(s, t) && t.h.clog == s.h.clog
    ensures CampaignKeys(t)
  {
  }

  lemma AckKeysKept(s: State, t: State)
    requires AckKeys(s) && TermsGrow(s, t) && t.h.acked == s.h.acked && t.h.tlog == s.h.tlog
    ensures AckKeys(t)
  {
  }

  lemma SameHistKeepsKeys(s: State, t: State)
    requires KeysInv(s) && TermsGrow(s, t) && t.h == s.h
    ensures KeysInv(t)
  {
    hide LeaderKeys, VoteKeys, CampaignKeys, AckKeys, TermsGrow;
    LeaderKeysKept(s, t);
    VoteKeysKept(s, t);
    CampaignKeysKept(s, t);
    AckKeysKept(s, t);
  }

  lemma SameHistKeepsHistInv(s: State, t: State)
    requires HistInv(s) && Grows(s, t) && t.h == s.h
    ensures HistInv(t)
  {
    hide Good, Elected, BallotSafe, Safe, KeysInv, HistGrows, CompletenessInv;
    SameHistKeepsKeys(s, t);
    CompletenessGrows(s, t);
    HistInvFrom(s, t);
  }

  lemma OnlyNodeKeepsInv(s: State, t: State, i: Id)
    requires Inv(s) && OnlyNode(s, t, i)
    requires NodeInv(t, i)
    ensures Inv(t)
  {
    hide KeysInv, NodesInv, NodeInv, NetInv, TermLogsInv, ElectedInv, BallotsInv, CampaignsInv, CompletenessInv;
    OnlyNodeIsLocal(s, t, i);
    SameHistKeepsHistInv(s, t);
    LocalKeepsInv(s, t, i);
  }

  /** Role, vote and bookkeeping changed; the log did not. */
  lemma SameLogKeepsInv(s: State, t: State, i: Id)
    requires Inv(s) && OnlyNode(s, t, i)
    requires t.nodes[i].log == s.nodes[i].log && t.nodes[i].committed == s.nodes[i].committed
    requires VoteInv(t, i) && RoleInv(t, i)
    ensures Inv(t)
  {
    assert NodeInv(s, i);
    hide KeysInv, NodesInv, NetInv, TermLogsInv, ElectedInv, BallotsInv, CampaignsInv, CompletenessInv, LogInv, RoleInv, VoteInv;
    OnlyNodeIsLocal(s, t, i);
    LogInvGrows(s, t, i);
    OnlyNodeKeepsInv(s, t, i);
  }

  // ---------------------------------------------------------------- changing term and role

  /** becomeFollower with a higher term. */
  function TermUp(s: State, i: Id, term: nat): State
    requires i in s.nodes
  {
    WithNode(s, i, s.nodes[i].(term := term, vote := NONE, role := Follower, granted := {}, matched := map[]), s.h)
  }

  lemma TermUpKeepsInv(s: State, i: Id, term: nat)
    requires Inv(s) && i in s.nodes && s.nodes[i].term < term
    ensures Inv(TermUp(s, i, term))
  {
    hide NodesInv, NetInv, TermLogsInv, ElectedInv, BallotsInv, CampaignsInv, CompletenessInv;
    SameLogKeepsInv(s, TermUp(s, i, term), i);
  }

  /** becomeFollower or becomePreCandidate in the same term; also a restart. */
  function Demote(s: State, i: Id, role: Role): State
    requires i in s.nodes
  {
    WithNode(s, i, s.nodes[i].(role := role, granted := {}, matched := map[]), s.h)
  }

  lemma DemoteKeepsInv(s: State, i: Id, role: Role)
    requires Inv(s) && i in s.nodes && role != Leader && role != Candidate
    ensures Inv(Demote(s, i, role))
  {
    hide KeysInv, NetInv, TermLogsInv, ElectedInv, BallotsInv, CampaignsInv, CompletenessInv, LogInv;
    assert NodeInv(s, i);
    hide NodesInv;
    SameLogKeepsInv(s, Demote(s, i, role), i);
  }

  function CampaignHist(h: Hist, p: At, log: seq<Entry>): Hist {
    h.(clog := h.clog[p := log], voted := h.voted[p := p.id])
  }

  lemma CampaignHistGrows(h: Hist, p: At, log: seq<Entry>)
    requires p !in h.voted && p !in h.clog
    ensures HistGrows(h, CampaignHist(h, p, log)) && HistLocal(h, CampaignHist(h, p, log), p.id)
  {
  }

  /** becomeCandidate: a new term, a vote for oneself. */
  function Campaign(s: State, i: Id): State
    requires i in s.nodes
  {
    var n := s.nodes[i];
    WithNode(s, i, n.(term := n.term + 1, vote := i, role := Candidate, granted := {i}, matched := map[]),
             CampaignHist(s.h, At(n.term + 1, i), n.log))
  }

  lemma CampaignIsNew(s: State, i: Id)
    requires KeysInv(s) && i in s.nodes
    ensures At(s.nodes[i].term + 1, i) !in s.h.voted && At(s.nodes[i].term + 1, i) !in s.h.clog
  {
    hide LeaderKeys, AckKeys;
  }

  lemma CampaignIsLocal(s: State, i: Id)
    requires KeysInv(s) && i in s.nodes
    ensures LocalTo(s, Campaign(s, i), i)
  {
    hide HistGrows, HistLocal, KeysInv;
    CampaignIsNew(s, i);
    CampaignHistGrows(s.h, At(s.nodes[i].term + 1, i), s.nodes[i].log);
  }

  lemma CampaignVoteKeys(s: State, t: State, p: At, log: seq<Entry>)
    requires VoteKeys(s) && TermsGrow(s, t) && t.h == CampaignHist(s.h, p, log)
    requires p.id in t.nodes && p.term <= t.nodes[p.id].term
    ensures VoteKeys(t)
  {
  }

  lemma CampaignCampaignKeys(s: State, t: State, p: At, log: seq<Entry>)
    requires CampaignKeys(s) && TermsGrow(s, t) && t.h == CampaignHist(s.h, p, log)
    requires p.id in t.nodes && BOOT_TERM < p.term <= t.nodes[p.id].term
    ensures CampaignKeys(t)
  {
  }

  lemma CampaignTerms(s: State, i: Id)
    requires i in s.nodes
    ensures TermsGrow(s, Campaign(s, i))
  {
  }

  lemma CampaignKeepsKeys(s: State, i: Id)
    requires KeysInv(s) && i in s.nodes && s.nodes[i].term >= BOOT_TERM
    ensures KeysInv(Campaign(s, i))
  {
    hide LeaderKeys, VoteKeys, CampaignKeys, AckKeys, TermsGrow;
    var t, n := Campaign(s, i), s.nodes[i];
    CampaignTerms(s, i);
    LeaderKeysKept(s, t);
    CampaignVoteKeys(s, t, At(n.term + 1, i), n.log);
    CampaignCampaignKeys(s, t, At(n.term + 1, i), n.log);
    AckKeysKept(s, t);
  }

  lemma CampaignKeepsHist(s: State, i: Id)
    requires HistInv(s) && i in s.nodes && LogInv(s, i) && s.nodes[i].term >= BOOT_TERM
    ensures HistInv(Campaign(s, i))
  {
    hide KeysInv, Good, Elected, Safe, KeepsAcks, CommittedIn, CompletenessInv, Grows, HistLocal;
    CampaignIsLocal(s, i);
    CampaignKeepsKeys(s, i);
    var t, n := Campaign(s, i), s.nodes[i];
    assert forall T: nat | T <= n.term :: Acked(t.h, T, i) == Acked(s.h, T, i);
    KeepsAcksGrows(s, t, i, n.log, n.term, n.term);
    GoodGrows(s, t, n.log, n.term, n.term);
    CompletenessGrows(s, t);
    HistInvFrom(s, t);
  }

  lemma CampaignKeepsInv(s: State, i: Id)
    requires Inv(s) && i in s.nodes
    ensures Inv(Campaign(s, i))
  {
    hide KeysInv, NetInv, TermLogsInv, ElectedInv, BallotsInv, CampaignsInv, CompletenessInv, LogInv, Grows, HistLocal;
    assert NodeInv(s, i);
    hide NodesInv;
    var t, n := Campaign(s, i), s.nodes[i];
    CampaignIsLocal(s, i);
    CampaignKeepsHist(s, i);
    LogInvGrows(s, t, i);
    if n.term + 1 in s.h.leaderOf { KeysLeader(s, n.term + 1); }
    LocalKeepsInv(s, t, i);
  }

  lemma KeysLeader(s: State, T: nat)
    requires KeysInv(s) && T in s.h.leaderOf
    ensures s.h.leaderOf[T] in s.nodes && s.nodes[s.h.leaderOf[T]].term >= T
  {
  }

  // ---------------------------------------------------------------- elections

  /** The candidate whose (index, logTerm) a vote request carries is at least as up to date. */
  predicate UpToDate(log: seq<Entry>, index: nat, logTerm: nat) {
    logTerm > LastTerm(log) || (logTerm == LastTerm(log) && index >= |log|)
  }

  /** A log that is up to date relative to one that keeps position k of term T keeps it too. */
  lemma UpToDateKeeps(s: State, voter: seq<Entry>, log: seq<Entry>, b0: nat, b1: nat, T: nat, k: nat)
    requires TermLogsInv(s) && CompletenessInv(s)
    requires Good(s.h, voter, b0) && Good(s.h, log, b1)
    requires UpToDate(voter, |log|, LastTerm(log))
    requires OwnEntry(s.h, T, k) && Safe(s, voter, T, k)
    ensures Safe(s, log, T, k)
  {
    if Has(voter, s.h.tlog[T], k) {
      assert voter[k - 1] == voter[..k][k - 1] == s.h.tlog[T][..k][k - 1];
      var u, v := LastTerm(log), LastTerm(voter);
      assert v == voter[|voter| - 1].term && voter[k - 1].term == T <= v <= u;
      assert log[|log| - 1].term == u;
      assert Has(log, s.h.tlog[u], |log|);
      if u == T {
        assert Has(voter, s.h.tlog[T], |voter|);
        assert log == s.h.tlog[T][..|log|];
        assert log[..k] == s.h.tlog[T][..k];
      } else {
        assert Safe(s, s.h.tlog[u], T, k);
        if Has(s.h.tlog[u], s.h.tlog[T], k) {
          LaterEntryIsBehind(s.h.tlog[u], u, log, T, k, s.h.tlog[T]);
        }
      }
    }
  }

  /** A prefix that ends in term u reaches past every entry of an earlier term. */
  lemma LaterEntryIsBehind(full: seq<Entry>, u: nat, log: seq<Entry>, T: nat, k: nat, early: seq<Entry>)
    requires WellFormed(full, u) && T < u
    requires 1 <= |log| && Has(log, full, |log|) && log[|log| - 1].term == u
    requires 1 <= k && Has(full, early, k) && early[k - 1].term == T
    ensures Has(log, early, k)
  {
    assert full[k - 1] == full[..k][k - 1] == early[..k][k - 1];
    assert full[|log| - 1] == full[..|log|][|log| - 1] == log[..|log|][|log| - 1];
    assert log[..k] == full[..|log|][..k] == full[..k];
  }

  function VoteHist(h: Hist, p: At, c: Id): Hist { h.(voted := h.voted[p := c]) }

  lemma VoteHistGrows(h: Hist, p: At, c: Id)
    requires p !in h.voted
    ensures HistGrows(h, VoteHist(h, p, c)) && HistLocal(h, VoteHist(h, p, c), p.id)
  {
  }

  /** Casting a real vote for `c` in the current term. */
  function Vote(s: State, i: Id, c: Id): State
    requires i in s.nodes
  {
    WithNode(s, i, s.nodes[i].(vote := c), VoteHist(s.h, At(s.nodes[i].term, i), c))
  }

  lemma VoteIsLocal(s: State, i: Id, c: Id)
    requires i in s.nodes && At(s.nodes[i].term, i) !in s.h.voted
    ensures LocalTo(s, Vote(s, i, c), i)
  {
    hide HistGrows, HistLocal;
    VoteHistGrows(s.h, At(s.nodes[i].term, i), c);
  }

  lemma VoteKeepsKeys(s: State, i: Id, c: Id)
    requires KeysInv(s) && i in s.nodes && At(s.nodes[i].term, c) in s.h.clog
    ensures KeysInv(Vote(s, i, c))
  {
    hide LeaderKeys, CampaignKeys, AckKeys;
    LeaderKeysKept(s, Vote(s, i, c));
    CampaignKeysKept(s, Vote(s, i, c));
    AckKeysKept(s, Vote(s, i, c));
  }

  /** The up-to-date check makes the candidate's log keep what the voter acknowledged. */
  lemma VoteIsSafe(s: State, i: Id, c: Id)
    requires HistInv(s) && i in s.nodes && LogInv(s, i)
    requires At(s.nodes[i].term, i) !in s.h.voted
    requires At(s.nodes[i].term, c) in s.h.clog
    requires UpToDate(s.nodes[i].log, |s.h.clog[At(s.nodes[i].term, c)]|, LastTerm(s.h.clog[At(s.nodes[i].term, c)]))
    ensures KeepsAcks(Vote(s, i, c), i, s.h.clog[At(s.nodes[i].term, c)], s.nodes[i].term - 1)
  {
    hide KeysInv, ElectedInv, BallotsInv, TermLogsInv, CompletenessInv, Good, CommittedIn, AgreesInTerm, Safe, HistLocal, OthersSame;
    var t, n := Vote(s, i, c), s.nodes[i];
    var log := s.h.clog[At(n.term, c)];
    VoteIsLocal(s, i, c);
    forall T: nat, k: nat | T <= n.term - 1 && OwnEntry(t.h, T, k) && k <= Acked(t.h, T, i)
      ensures Safe(t, log, T, k)
    {
      assert OwnEntry(s.h, T, k) && k <= Acked(s.h, T, i);
      UpToDateKeeps(s, n.log, log, n.term, n.term - 1, T, k);
      SafeGrows(s, t, log, T, k);
    }
  }

  lemma VoteKeepsHist(s: State, i: Id, c: Id)
    requires HistInv(s) && i in s.nodes && LogInv(s, i)
    requires At(s.nodes[i].term, i) !in s.h.voted
    requires At(s.nodes[i].term, c) in s.h.clog
    requires UpToDate(s.nodes[i].log, |s.h.clog[At(s.nodes[i].term, c)]|, LastTerm(s.h.clog[At(s.nodes[i].term, c)]))
    ensures HistInv(Vote(s, i, c))
  {
    hide KeysInv, Good, Elected, Safe, KeepsAcks, CommittedIn, CompletenessInv, Grows, HistLocal, UpToDate, LogInv;
    var t := Vote(s, i, c);
    VoteIsLocal(s, i, c);
    VoteKeepsKeys(s, i, c);
    VoteIsSafe(s, i, c);
    CompletenessGrows(s, t);
    HistInvFrom(s, t);
  }

  lemma VoteKeepsInv(s: State, i: Id, c: Id)
    requires Inv(s) && i in s.nodes && s.nodes[i].vote == NONE && c != NONE
    requires At(s.nodes[i].term, c) in s.h.clog
    requires UpToDate(s.nodes[i].log, |s.h.clog[At(s.nodes[i].term, c)]|, LastTerm(s.h.clog[At(s.nodes[i].term, c)]))
    ensures Inv(Vote(s, i, c))
  {
    hide KeysInv, NetInv, TermLogsInv, ElectedInv, BallotsInv, CampaignsInv, CompletenessInv, LogInv, Grows, HistLocal, UpToDate;
    assert NodeInv(s, i);
    hide NodesInv;
    VoteIsLocal(s, i, c);
    VoteKeepsHist(s, i, c);
    LogInvGrows(s, Vote(s, i, c), i);
    LocalKeepsInv(s, Vote(s, i, c), i);
  }

  /** A candidate records a granted vote. */
  function CountVote(s: State, i: Id, j: Id): State
    requires i in s.nodes
  {
    WithNode(s, i, s.nodes[i].(granted := s.nodes[i].granted + {j}), s.h)
  }

  lemma CountVoteKeepsInv(s: State, i: Id, j: Id)
    requires Inv(s) && i in s.nodes && s.nodes[i].role == Candidate
    requires j in s.voters && At(s.nodes[i].term, j) in s.h.voted && s.h.voted[At(s.nodes[i].term, j)] == i
    ensures Inv(CountVote(s, i, j))
  {
    hide KeysInv, NetInv, TermLogsInv, ElectedInv, BallotsInv, CampaignsInv, CompletenessInv, LogInv;
    assert NodeInv(s, i);
    hide NodesInv;
    SameLogKeepsInv(s, CountVote(s, i, j), i);
  }

  function ElectHist(h: Hist, p: At, log: seq<Entry>): Hist {
    h.(tlog := h.tlog[p.term := log], leaderOf := h.leaderOf[p.term := p.id], acked := h.acked[p := |log|])
  }

  lemma ElectHistGrows(h: Hist, p: At, log: seq<Entry>)
    requires p.term !in h.tlog && p.term !in h.leaderOf && p !in h.acked
    ensures HistGrows(h, ElectHist(h, p, log)) && HistLocal(h, ElectHist(h, p, log), p.id)
  {
  }

  /** becomeLeader on a majority of granted votes. */
  function Elect(s: State, i: Id): State
    requires i in s.nodes
  {
    var n := s.nodes[i];
    WithNode(s, i, n.(role := Leader, granted := {}, matched := map j | j in s.voters :: if j == i then |n.log| else 0),
             ElectHist(s.h, At(n.term, i), n.log))
  }

  ghost predicate CanElect(s: State, i: Id) {
    i in s.nodes && s.nodes[i].role == Candidate && Quorum(s.voters, s.nodes[i].granted)
  }

  /** Election safety: nobody was elected in this term before. */
  lemma ElectIsFirst(s: State, i: Id)
    requires KeysInv(s) && ElectedInv(s) && CanElect(s, i) && RoleInv(s, i)
    ensures s.nodes[i].term !in s.h.tlog && s.nodes[i].term !in s.h.leaderOf && Declared(s.h, s.nodes[i].term) == 0
  {
    var n := s.nodes[i];
    if n.term in s.h.leaderOf {
      var q :| VoteQuorum(s, n.term, s.h.leaderOf[n.term], q);
      var j := QuorumsIntersect(s.voters, q, n.granted);
      assert false;
    }
    assert At(n.term, i) in s.h.clog;
  }

  lemma ElectIsLocal(s: State, i: Id)
    requires KeysInv(s) && ElectedInv(s) && CanElect(s, i) && RoleInv(s, i)
    ensures LocalTo(s, Elect(s, i), i)
  {
    hide HistGrows, HistLocal, ElectedInv, RoleInv, LeaderKeys, VoteKeys, CampaignKeys;
    ElectIsFirst(s, i);
    ElectHistGrows(s.h, At(s.nodes[i].term, i), s.nodes[i].log);
  }

  lemma ElectLeaderKeys(s: State, t: State, p: At, log: seq<Entry>)
    requires LeaderKeys(s) && TermsGrow(s, t) && t.h == ElectHist(s.h, p, log)
    requires p.id in t.nodes && BOOT_TERM < p.term <= t.nodes[p.id].term
    ensures LeaderKeys(t)
  {
  }

  lemma ElectAckKeys(s: State, t: State, p: At, log: seq<Entry>)
    requires AckKeys(s) && TermsGrow(s, t) && t.h == ElectHist(s.h, p, log) && p.term !in s.h.tlog
    requires p.id in t.nodes && p.term <= t.nodes[p.id].term
    ensures AckKeys(t)
  {
  }

  lemma ElectTerms(s: State, i: Id)
    requires CampaignKeys(s) && CanElect(s, i) && RoleInv(s, i) && s.nodes[i].term !in s.h.tlog
    ensures s.nodes[i].term > BOOT_TERM && TermsGrow(s, Elect(s, i))
  {
    assert At(s.nodes[i].term, i) in s.h.clog;
  }

  lemma ElectKeepsKeys(s: State, i: Id)
    requires KeysInv(s) && CanElect(s, i) && RoleInv(s, i) && s.nodes[i].term !in s.h.tlog
    ensures KeysInv(Elect(s, i))
  {
    hide LeaderKeys, VoteKeys, CampaignKeys, AckKeys, RoleInv, TermsGrow;
    var t, n := Elect(s, i), s.nodes[i];
    ElectTerms(s, i);
    ElectLeaderKeys(s, t, At(n.term, i), n.log);
    VoteKeysKept(s, t);
    CampaignKeysKept(s, t);
    ElectAckKeys(s, t, At(n.term, i), n.log);
  }

  /** The majority that elected a leader vouches for everything that may still be chosen. */
  lemma ElectIsComplete(s: State, i: Id, T: nat, k: nat)
    requires KeysInv(s) && BallotsInv(s) && CanElect(s, i) && RoleInv(s, i)
    requires T < s.nodes[i].term && OwnEntry(s.h, T, k)
    ensures Safe(s, s.nodes[i].log, T, k)
  {
    var n := s.nodes[i];
    if j :| j in n.granted && k <= Acked(s.h, T, j) {
      assert BallotSafe(s, At(n.term, j));
    } else {
      assert MissQuorum(s, T, k, n.granted);
    }
  }

  lemma ElectKeepsCompleteness(s: State, i: Id)
    requires HistInv(s) && CanElect(s, i) && RoleInv(s, i)
    ensures CompletenessInv(Elect(s, i))
  {
    hide Grows, HistLocal, Safe, ElectedInv, RoleInv, BallotsInv, KeysInv, CampaignsInv, TermLogsInv;
    ElectIsFirst(s, i);
    ElectIsLocal(s, i);
    var t, n := Elect(s, i), s.nodes[i];
    forall T: nat, U: nat, k: nat | T < U && U in t.h.tlog && OwnEntry(t.h, T, k)
      ensures Safe(t, t.h.tlog[U], T, k)
    {
      assert T != n.term by { CampaignHasNoOwnEntry(s, i); }
      assert OwnEntry(s.h, T, k);
      if U == n.term { ElectIsComplete(s, i, T, k); }
      SafeGrows(s, t, t.h.tlog[U], T, k);
    }
  }

  lemma CampaignHasNoOwnEntry(s: State, i: Id)
    requires CampaignsInv(s) && CanElect(s, i) && RoleInv(s, i)
    ensures forall k | 0 <= k < |s.nodes[i].log| :: s.nodes[i].log[k].term < s.nodes[i].term
  {
    assert s.h.clog[At(s.nodes[i].term, i)] == s.nodes[i].log;
  }

  lemma ElectKeepsHist(s: State, i: Id)
    requires HistInv(s) && CanElect(s, i) && RoleInv(s, i) && LogInv(s, i)
    ensures HistInv(Elect(s, i))
  {
    hide KeysInv, Good, CampaignsInv, BallotsInv, ElectedInv, TermLogsInv, BallotSafe, Safe, KeepsAcks, CommittedIn, CompletenessInv, Grows, HistLocal;
    var t, n := Elect(s, i), s.nodes[i];
    ElectIsFirst(s, i);
    ElectIsLocal(s, i);
    ElectKeepsKeys(s, i);
    ElectKeepsCompleteness(s, i);
    GoodGrows(s, t, n.log, n.term, n.term);
    assert VoteQuorum(t, n.term, i, n.granted);
    HistInvFrom(s, t);
  }

  lemma ElectKeepsLog(s: State, i: Id)
    requires HistInv(s) && CanElect(s, i) && RoleInv(s, i) && LogInv(s, i)
    ensures LogInv(Elect(s, i), i)
  {
    hide KeysInv, Good, CampaignsInv, BallotsInv, ElectedInv, TermLogsInv, Safe, CommittedIn, CompletenessInv, Grows, HistLocal, RoleInv;
    var t, n := Elect(s, i), s.nodes[i];
    ElectIsFirst(s, i);
    ElectIsLocal(s, i);
    GoodGrows(s, t, n.log, n.term, n.term);
    CommittedBound(s, n.log, n.term, n.committed);
    CommittedInGrows(s, t, n.log, n.term, n.committed, n.log, n.term);
    forall T: nat, k: nat | T <= n.term && OwnEntry(t.h, T, k) && k <= Acked(t.h, T, i)
      ensures Safe(t, n.log, T, k)
    {
      if T < n.term {
        assert OwnEntry(s.h, T, k);
        SafeGrows(s, t, n.log, T, k);
      } else {
        HasIsSafe(t, n.log, T, k);
      }
    }
  }

  lemma HasIsSafe(s: State, log: seq<Entry>, T: nat, k: nat)
    requires T in s.h.tlog && Has(log, s.h.tlog[T], k)
    ensures Safe(s, log, T, k)
  {
  }

  lemma ElectKeepsInv(s: State, i: Id)
    requires Inv(s) && CanElect(s, i)
    ensures Inv(Elect(s, i))
  {
    hide KeysInv, NetInv, TermLogsInv, ElectedInv, BallotsInv, CampaignsInv, CompletenessInv, LogInv, Grows, HistLocal;
    assert NodeInv(s, i);
    hide NodesInv;
    ElectIsFirst(s, i);
    ElectIsLocal(s, i);
    ElectKeepsHist(s, i);
    ElectKeepsLog(s, i);
    LocalKeepsInv(s, Elect(s, i), i);
  }
}
