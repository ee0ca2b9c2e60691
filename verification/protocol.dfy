/**
 The Raft protocol at the level its safety argument needs: what each node has
 promised, an ever-growing set of sent messages, and a history that remembers
 for every term its leader's log, the acknowledgements and the votes.
 The handlers of raft/raft.go are shown to be made of these actions in
 module Refinement.
 */
module Protocol {
  import opened RaftTypes
  import opened Quorums

  /** The safety-relevant part of a node. `granted` is meaningful for candidates, `matched` for leaders. */
  datatype PNode = PNode(term: nat, vote: Id, log: seq<Entry>, committed: nat,
                         role: Role, granted: set<Id>, matched: map<Id, nat>)

  /** A node in a term. */
  datatype At = At(term: nat, id: Id)

  /** History variables.
      `tlog[T]`       the log of the leader of term T (frozen once it steps down);
      `leaderOf[T]`   who that leader is;
      `acked[At(T,j)]`  the largest index j has acknowledged in term T;
      `voted[At(T,j)]`  whom j voted for in term T;
      `clog[At(T,c)]`   the log with which c campaigned in term T;
      `tcommit[T]`      the largest index of its own that the leader of T committed. */
  datatype Hist = Hist(tlog: map<nat, seq<Entry>>, leaderOf: map<nat, Id>,
                       acked: map<At, nat>, voted: map<At, Id>,
                       clog: map<At, seq<Entry>>, tcommit: map<nat, nat>)

  datatype State = State(voters: set<Id>, nodes: map<Id, PNode>, net: set<Msg>, h: Hist)

  /** The term in which the bootstrap entries are written (raft/node.go, StartNode). */
  const BOOT_TERM: nat := 1

  function Acked(h: Hist, T: nat, j: Id): nat {
    if At(T, j) in h.acked then h.acked[At(T, j)] else 0
  }

  function Declared(h: Hist, T: nat): nat { if T in h.tcommit then h.tcommit[T] else 0 }

  /** The two logs agree on their first k entries. */
  predicate Has(log: seq<Entry>, other: seq<Entry>, k: nat) {
    k <= |log| && k <= |other| && log[..k] == other[..k]
  }

  // ---------------------------------------------------------------- the log of a term

  /** Every prefix of `log` that ends with an entry of term t is a prefix of the log of t's leader. */
  ghost predicate Covered(h: Hist, log: seq<Entry>) {
    forall k | 0 <= k < |log| :: log[k].term in h.tlog && Has(log, h.tlog[log[k].term], k + 1)
  }

  /** Positions are contiguous from 1, terms are positive, nondecreasing and at most `bound`. */
  ghost predicate WellFormed(log: seq<Entry>, bound: nat) {
    && (forall k | 0 <= k < |log| :: log[k].index == k + 1 && 1 <= log[k].term <= bound)
    && (forall k, l | 0 <= k <= l < |log| :: log[k].term <= log[l].term)
  }

  ghost predicate Good(h: Hist, log: seq<Entry>, bound: nat) {
    WellFormed(log, bound) && Covered(h, log)
  }

  // ---------------------------------------------------------------- commitment

  /** Position k of term T's log holds an entry that T's leader itself created. */
  ghost predicate OwnEntry(h: Hist, T: nat, k: nat) {
    T in h.tlog && 1 <= k <= |h.tlog[T]| && h.tlog[T][k - 1].term == T
  }

  ghost predicate AckQuorum(s: State, T: nat, k: nat, q: set<Id>) {
    Quorum(s.voters, q) && forall j | j in q :: Acked(s.h, T, j) >= k
  }

  /** A majority acknowledged position k in term T: the entry is committed for good. */
  ghost predicate Chosen(s: State, T: nat, k: nat) {
    OwnEntry(s.h, T, k) && exists q :: AckQuorum(s, T, k, q)
  }

  ghost predicate MissQuorum(s: State, T: nat, k: nat, q: set<Id>) {
    Quorum(s.voters, q) &&
    forall j | j in q :: j in s.nodes && s.nodes[j].term > T && Acked(s.h, T, j) < k
  }

  /** A majority has left term T without acknowledging k: (T, k) can never become chosen. */
  ghost predicate NotChoosable(s: State, T: nat, k: nat) {
    exists q :: MissQuorum(s, T, k, q)
  }

  ghost predicate Safe(s: State, log: seq<Entry>, T: nat, k: nat)
    requires T in s.h.tlog
  {
    Has(log, s.h.tlog[T], k) || NotChoosable(s, T, k)
  }

  /** `log` keeps everything j acknowledged in terms up to `bound`, unless it can no longer be chosen. */
  ghost predicate KeepsAcks(s: State, j: Id, log: seq<Entry>, bound: int) {
    forall T: nat, k: nat | T <= bound && OwnEntry(s.h, T, k) && k <= Acked(s.h, T, j) :: Safe(s, log, T, k)
  }

  /** The first c entries of `log` are committed by terms up to `bound`. */
  ghost predicate CommittedIn(s: State, log: seq<Entry>, bound: nat, c: nat) {
    c <= |log| && (c == 0 || exists T, k :: CommitWitness(s, log, bound, c, T, k))
  }

  ghost predicate CommitWitness(s: State, log: seq<Entry>, bound: nat, c: nat, T: nat, k: nat) {
    T <= bound && Chosen(s, T, k) && k <= Declared(s.h, T) && c <= k && Has(log, s.h.tlog[T], c)
  }

  // ---------------------------------------------------------------- invariant

  ghost predicate VoteQuorum(s: State, T: nat, c: Id, q: set<Id>) {
    Quorum(s.voters, q) && forall j | j in q :: At(T, j) in s.h.voted && s.h.voted[At(T, j)] == c
  }

  ghost predicate ShapeInv(s: State) {
    && s.voters != {} && NONE !in s.voters
    && s.nodes.Keys == s.voters
  }

  ghost predicate LeaderKeys(s: State) {
    && (forall T | T in s.h.tlog && T != BOOT_TERM :: T in s.h.leaderOf)
    && (forall T | T in s.h.leaderOf ::
          T in s.h.tlog && T > BOOT_TERM && s.h.leaderOf[T] in s.nodes && s.nodes[s.h.leaderOf[T]].term >= T)
    && (forall T | T in s.h.tcommit :: T in s.h.tlog)
  }

  ghost predicate VoteKeys(s: State) {
    forall p: At | p in s.h.voted ::
      p.id in s.nodes && p.term <= s.nodes[p.id].term && At(p.term, s.h.voted[p]) in s.h.clog
  }

  ghost predicate CampaignKeys(s: State) {
    forall p: At | p in s.h.clog :: p.id in s.nodes && BOOT_TERM < p.term <= s.nodes[p.id].term
  }

  ghost predicate AckKeys(s: State) {
    forall p: At | p in s.h.acked ::
      && p.term in s.h.tlog && s.h.acked[p] <= |s.h.tlog[p.term]|
      && p.id in s.nodes && p.term <= s.nodes[p.id].term
  }

  /** The history speaks only of terms its nodes have reached. */
  ghost predicate KeysInv(s: State) {
    LeaderKeys(s) && VoteKeys(s) && CampaignKeys(s) && AckKeys(s)
  }

  ghost predicate Elected(s: State, T: nat, c: Id) { exists q :: VoteQuorum(s, T, c, q) }

  /** A ballot binds: the candidate's log keeps what the voter had acknowledged. */
  ghost predicate BallotSafe(s: State, p: At)
    requires p in s.h.voted
  {
    At(p.term, s.h.voted[p]) in s.h.clog && KeepsAcks(s, p.id, s.h.clog[At(p.term, s.h.voted[p])], p.term - 1)
  }

  ghost predicate TermLogsInv(s: State) { forall T | T in s.h.tlog :: Good(s.h, s.h.tlog[T], T) }
  ghost predicate ElectedInv(s: State) { forall T | T in s.h.leaderOf :: Elected(s, T, s.h.leaderOf[T]) }
  ghost predicate BallotsInv(s: State) { forall p: At | p in s.h.voted :: BallotSafe(s, p) }
  ghost predicate CampaignsInv(s: State) { forall p: At | p in s.h.clog :: p.term > 0 && Good(s.h, s.h.clog[p], p.term - 1) }

  /** Leader completeness: a later leader's log holds every earlier entry that may still be chosen. */
  ghost predicate CompletenessInv(s: State) {
    forall T: nat, U: nat, k: nat | T < U && U in s.h.tlog && OwnEntry(s.h, T, k) :: Safe(s, s.h.tlog[U], T, k)
  }

  ghost predicate HistInv(s: State) {
    KeysInv(s) && TermLogsInv(s) && ElectedInv(s) && BallotsInv(s) && CampaignsInv(s) && CompletenessInv(s)
  }

  ghost predicate RoleInv(s: State, i: Id)
    requires i in s.nodes
  {
    var n := s.nodes[i];
    match n.role
    case Leader =>
      && n.term in s.h.leaderOf && s.h.leaderOf[n.term] == i
      && n.term in s.h.tlog && s.h.tlog[n.term] == n.log
      && n.matched.Keys == s.voters
      && Declared(s.h, n.term) <= n.committed
      && forall j | j in n.matched :: n.matched[j] <= Acked(s.h, n.term, j)
    case Candidate =>
      && At(n.term, i) in s.h.clog && s.h.clog[At(n.term, i)] == n.log
      && n.granted <= s.voters
      && (forall j | j in n.granted :: At(n.term, j) in s.h.voted && s.h.voted[At(n.term, j)] == i)
      && (n.term in s.h.leaderOf ==> s.h.leaderOf[n.term] != i)
    case _ => true
  }

  ghost predicate VoteInv(s: State, i: Id)
    requires i in s.nodes
  {
    var n := s.nodes[i];
    if n.vote == NONE then At(n.term, i) !in s.h.voted
    else At(n.term, i) in s.h.voted && s.h.voted[At(n.term, i)] == n.vote
  }

  /** Match soundness: in its own term a node's log agrees with the leader's up to what it acknowledged. */
  ghost predicate AgreesInTerm(s: State, i: Id)
    requires i in s.nodes
  {
    var n := s.nodes[i];
    n.term in s.h.tlog ==> Has(n.log, s.h.tlog[n.term], Acked(s.h, n.term, i))
  }

  ghost predicate LogInv(s: State, i: Id)
    requires i in s.nodes
  {
    var n := s.nodes[i];
    && Good(s.h, n.log, n.term)
    && CommittedIn(s, n.log, n.term, n.committed)
    && AgreesInTerm(s, i)
    && KeepsAcks(s, i, n.log, n.term)
  }

  ghost predicate NodeInv(s: State, i: Id)
    requires i in s.nodes
  {
    s.nodes[i].term >= BOOT_TERM && LogInv(s, i) && VoteInv(s, i) && RoleInv(s, i)
  }

  /** What a sent message says about the history. */
  ghost predicate MsgInv(s: State, m: Msg) {
    && (Termless(m) || m.term >= BOOT_TERM)
    && (m.MsgApp? || m.MsgAppResp? || m.MsgHeartbeat? || m.MsgHeartbeatResp? ==> m.from != m.to)
    &&
    match m
    case MsgVote(term, from, _, index, logTerm, _) =>
      && At(term, from) in s.h.clog
      && index == |s.h.clog[At(term, from)]| && logTerm == LastTerm(s.h.clog[At(term, from)])
    case MsgVoteResp(term, from, to, reject) =>
      from in s.voters && (!reject ==> At(term, from) in s.h.voted && s.h.voted[At(term, from)] == to)
    case MsgApp(term, from, _, index, logTerm, commit, entries) =>
      && term in s.h.leaderOf && s.h.leaderOf[term] == from && term in s.h.tlog
      && index + |entries| <= |s.h.tlog[term]|
      && entries == s.h.tlog[term][index..index + |entries|]
      && logTerm == TermAt(s.h.tlog[term], index)
      && CommittedIn(s, s.h.tlog[term], term, commit)
    case MsgAppResp(term, from, _, index, reject, _) =>
      from in s.voters && (!reject ==> index <= Acked(s.h, term, from))
    case MsgHeartbeat(term, from, to, commit, _) =>
      && term in s.h.leaderOf && s.h.leaderOf[term] == from && term in s.h.tlog
      && commit <= Acked(s.h, term, to)
      && CommittedIn(s, s.h.tlog[term], term, commit)
    case MsgTransferLeader(term, _, to) => term in s.h.leaderOf && s.h.leaderOf[term] == to
    case MsgProp(_, _, payload) => payload != []
    case _ => true
  }

  ghost predicate NodesInv(s: State) { forall i | i in s.nodes :: NodeInv(s, i) }

  ghost predicate NetInv(s: State) { forall m | m in s.net :: MsgInv(s, m) }

  ghost predicate Inv(s: State) {
    ShapeInv(s) && HistInv(s) && NodesInv(s) && NetInv(s)
  }

  // ---------------------------------------------------------------- growth of the history

  ghost predicate TermsGrow(s: State, t: State) {
    && t.voters == s.voters && t.nodes.Keys == s.nodes.Keys
    && (forall j | j in s.nodes :: s.nodes[j].term <= t.nodes[j].term)
  }

  ghost predicate HistGrows(a: Hist, b: Hist) {
    && (forall T | T in a.tlog :: T in b.tlog && a.tlog[T] <= b.tlog[T])
    && (forall T | T in a.leaderOf :: T in b.leaderOf && b.leaderOf[T] == a.leaderOf[T])
    && (forall T: nat, j: Id :: Acked(a, T, j) <= Acked(b, T, j))
    && (forall T: nat :: Declared(a, T) <= Declared(b, T))
    && (forall p: At | p in a.voted :: p in b.voted && b.voted[p] == a.voted[p])
    && (forall p: At | p in a.clog :: p in b.clog && b.clog[p] == a.clog[p])
  }

  ghost predicate AcksFrozen(s: State, t: State) {
    forall T: nat, j: Id | j in s.nodes && T < s.nodes[j].term :: Acked(t.h, T, j) == Acked(s.h, T, j)
  }

  /** What every action guarantees about the history: it only grows, and what a
      node acknowledged in a term is frozen once the node has left that term. */
  ghost predicate Grows(s: State, t: State) {
    TermsGrow(s, t) && HistGrows(s.h, t.h) && AcksFrozen(s, t)
  }

  lemma HasGrows(log: seq<Entry>, a: seq<Entry>, b: seq<Entry>, k: nat)
    requires Has(log, a, k) && a <= b
    ensures Has(log, b, k)
  {
    assert b[..k] == a[..k];
  }

  lemma GoodGrows(s: State, t: State, log: seq<Entry>, bound: nat, bound': nat)
    requires Grows(s, t) && Good(s.h, log, bound) && bound <= bound'
    ensures Good(t.h, log, bound')
  {
    forall k | 0 <= k < |log|
      ensures log[k].term in t.h.tlog && Has(log, t.h.tlog[log[k].term], k + 1)
    {
      HasGrows(log, s.h.tlog[log[k].term], t.h.tlog[log[k].term], k + 1);
    }
  }

  lemma NotChoosableGrows(s: State, t: State, T: nat, k: nat)
    requires Grows(s, t) && NotChoosable(s, T, k)
    ensures NotChoosable(t, T, k)
  {
    var q :| MissQuorum(s, T, k, q);
    assert MissQuorum(t, T, k, q);
  }

  lemma SafeGrows(s: State, t: State, log: seq<Entry>, T: nat, k: nat)
    requires Grows(s, t) && T in s.h.tlog && Safe(s, log, T, k)
    ensures T in t.h.tlog && Safe(t, log, T, k)
  {
    if Has(log, s.h.tlog[T], k) {
      HasGrows(log, s.h.tlog[T], t.h.tlog[T], k);
    } else {
      NotChoosableGrows(s, t, T, k);
    }
  }

  lemma ChosenGrows(s: State, t: State, T: nat, k: nat)
    requires Grows(s, t) && Chosen(s, T, k)
    ensures Chosen(t, T, k)
  {
    var q :| AckQuorum(s, T, k, q);
    assert AckQuorum(t, T, k, q);
  }

  lemma CommittedInGrows(s: State, t: State, log: seq<Entry>, bound: nat, c: nat, log': seq<Entry>, bound': nat)
    requires Grows(s, t) && CommittedIn(s, log, bound, c)
    requires Has(log', log, c) && bound <= bound'
    ensures CommittedIn(t, log', bound', c)
  {
    if c > 0 {
      var T, k :| CommitWitness(s, log, bound, c, T, k);
      ChosenGrows(s, t, T, k);
      HasGrows(log', s.h.tlog[T], t.h.tlog[T], c);
      assert CommitWitness(t, log', bound', c, T, k);
    }
  }

  /** What keeps a node's acknowledgements keeps keeping them as long as no new ones are made. */
  lemma KeepsAcksGrows(s: State, t: State, j: Id, log: seq<Entry>, bound: int, bound': int)
    requires Grows(s, t) && KeysInv(s) && KeepsAcks(s, j, log, bound)
    requires forall T: nat | T <= bound' :: Acked(t.h, T, j) == Acked(s.h, T, j)
    requires forall T: nat | bound < T <= bound' :: Acked(s.h, T, j) == 0
    ensures KeepsAcks(t, j, log, bound')
  {
    hide NotChoosable;
    forall T: nat, k: nat | T <= bound' && OwnEntry(t.h, T, k) && k <= Acked(t.h, T, j)
      ensures Safe(t, log, T, k)
    {
      assert At(T, j) in s.h.acked;
      assert OwnEntry(s.h, T, k);
      SafeGrows(s, t, log, T, k);
    }
  }

  lemma SliceGrows(a: seq<Entry>, b: seq<Entry>, lo: nat, hi: nat)
    requires a <= b && lo <= hi <= |a|
    ensures b[lo..hi] == a[lo..hi] && TermAt(b, lo) == TermAt(a, lo)
  {
  }

  lemma MsgInvGrows(s: State, t: State, m: Msg)
    requires Grows(s, t) && MsgInv(s, m)
    ensures MsgInv(t, m)
  {
    hide CommittedIn;
    match m
    case MsgApp(term, from, _, index, logTerm, commit, entries) =>
      var a, b := s.h.tlog[term], t.h.tlog[term];
      SliceGrows(a, b, index, index + |entries|);
      CommittedBound(s, a, term, commit);
      HasGrows(a, a, b, commit);
      CommittedInGrows(s, t, a, term, commit, b, term);
    case MsgHeartbeat(term, from, to, commit, _) =>
      var a, b := s.h.tlog[term], t.h.tlog[term];
      CommittedBound(s, a, term, commit);
      HasGrows(a, a, b, commit);
      CommittedInGrows(s, t, a, term, commit, b, term);
    case _ =>
  }

  lemma NetInvGrows(s: State, t: State)
    requires Grows(s, t) && NetInv(s) && t.net == s.net
    ensures NetInv(t)
  {
    forall m | m in t.net ensures MsgInv(t, m) { MsgInvGrows(s, t, m); }
  }

  /** Everything the history already recorded stays in order. */
  lemma OldRecordsGrow(s: State, t: State)
    requires Grows(s, t) && HistInv(s)
    ensures forall T | T in s.h.tlog :: Good(t.h, s.h.tlog[T], T)
    ensures forall T | T in s.h.leaderOf :: Elected(t, T, s.h.leaderOf[T])
    ensures forall p: At | p in s.h.voted :: BallotSafe(t, p)
    ensures forall p: At | p in s.h.clog :: p.term > 0 && Good(t.h, s.h.clog[p], p.term - 1)
  {
    hide Good, KeepsAcks, CompletenessInv;
    forall T | T in s.h.tlog ensures Good(t.h, s.h.tlog[T], T) { GoodGrows(s, t, s.h.tlog[T], T, T); }
    forall T | T in s.h.leaderOf ensures Elected(t, T, s.h.leaderOf[T]) {
      var q :| VoteQuorum(s, T, s.h.leaderOf[T], q);
      assert VoteQuorum(t, T, s.h.leaderOf[T], q);
    }
    forall p: At | p in s.h.voted ensures BallotSafe(t, p) {
      assert BallotSafe(s, p);
      KeepsAcksGrows(s, t, p.id, s.h.clog[At(p.term, s.h.voted[p])], p.term - 1, p.term - 1);
    }
    forall p: At | p in s.h.clog ensures p.term > 0 && Good(t.h, s.h.clog[p], p.term - 1) {
      GoodGrows(s, t, s.h.clog[p], p.term - 1, p.term - 1);
    }
  }

  /** The log facts of a node whose log and acknowledgements stay as they are. */
  lemma LogInvGrows(s: State, t: State, j: Id)
    requires Grows(s, t) && KeysInv(s)
    requires j in s.nodes && LogInv(s, j)
    requires t.nodes[j].log == s.nodes[j].log && t.nodes[j].committed == s.nodes[j].committed
    requires forall T: nat :: Acked(t.h, T, j) == Acked(s.h, T, j)
    ensures LogInv(t, j)
  {
    hide Good, CommittedIn, KeepsAcks;
    var n, n' := s.nodes[j], t.nodes[j];
    assert n.committed <= |n.log| by { CommittedBound(s, n.log, n.term, n.committed); }
    GoodGrows(s, t, n.log, n.term, n'.term);
    CommittedInGrows(s, t, n.log, n.term, n.committed, n.log, n'.term);
    KeepsAcksGrows(s, t, j, n.log, n.term, n'.term);
    if n'.term == n.term && n.term in s.h.tlog {
      HasGrows(n.log, s.h.tlog[n.term], t.h.tlog[n.term], Acked(s.h, n.term, j));
    } else {
      assert Acked(s.h, n'.term, j) == 0;
    }
  }

  lemma CommittedBound(s: State, log: seq<Entry>, bound: nat, c: nat)
    requires CommittedIn(s, log, bound, c)
    ensures Has(log, log, c)
  {
  }

  lemma CompletenessGrows(s: State, t: State)
    requires Grows(s, t) && CompletenessInv(s)
    requires t.h.tlog == s.h.tlog
    ensures CompletenessInv(t)
  {
    hide NotChoosable, Has;
    forall T: nat, U: nat, k: nat | T < U && U in t.h.tlog && OwnEntry(t.h, T, k)
      ensures Safe(t, t.h.tlog[U], T, k)
    {
      assert OwnEntry(s.h, T, k);
      SafeGrows(s, t, s.h.tlog[U], T, k);
    }
  }
}
