/** The replication actions of the protocol: proposing, appending, acknowledging, committing. */
module ProtocolReplication {
  import opened RaftTypes
  import opened Quorums
  import opened Logs
  import opened Protocol
  import opened ProtocolActions

  // ---------------------------------------------------------------- committed entries

  lemma ChosenIsChoosable(s: State, T: nat, k: nat)
    requires Chosen(s, T, k)
    ensures !NotChoosable(s, T, k)
  {
    if NotChoosable(s, T, k) {
      var p :| MissQuorum(s, T, k, p);
      var q :| AckQuorum(s, T, k, q);
      var j := QuorumsIntersect(s.voters, p, q);
      assert false;
    }
  }

  /** Leader completeness: the log of a later term holds everything committed by earlier ones. */
  lemma CommittedReachesLeader(s: State, log: seq<Entry>, bound: nat, c: nat, U: nat)
    requires CompletenessInv(s) && U in s.h.tlog && bound <= U
    requires CommittedIn(s, log, bound, c)
    ensures Has(log, s.h.tlog[U], c)
  {
    if c > 0 {
      var T: nat, k: nat :| CommitWitness(s, log, bound, c, T, k);
      if T < U {
        hide MissQuorum, AckQuorum;
        ChosenIsChoosable(s, T, k);
        assert Safe(s, s.h.tlog[U], T, k);
        assert s.h.tlog[U][..c] == s.h.tlog[U][..k][..c] == s.h.tlog[T][..k][..c] == s.h.tlog[T][..c];
      }
    }
  }

  /** Two committed prefixes never disagree. */
  lemma CommittedAgree(s: State, a: seq<Entry>, ba: nat, ca: nat, b: seq<Entry>, bb: nat, cb: nat, c: nat)
    requires CompletenessInv(s)
    requires CommittedIn(s, a, ba, ca) && CommittedIn(s, b, bb, cb)
    requires c <= ca && c <= cb
    ensures a[..c] == b[..c]
  {
    if c > 0 {
      var T: nat, k: nat :| CommitWitness(s, a, ba, ca, T, k);
      var U: nat, l: nat :| CommitWitness(s, b, bb, cb, U, l);
      assert CommitWitness(s, a, T, ca, T, k) && CommitWitness(s, b, U, cb, U, l);
      hide Chosen, CompletenessInv;
      var V := if T <= U then U else T;
      CommittedReachesLeader(s, a, T, ca, V);
      CommittedReachesLeader(s, b, U, cb, V);
      assert a[..c] == a[..ca][..c] == s.h.tlog[V][..c] == b[..cb][..c] == b[..c];
    }
  }

  // ---------------------------------------------------------------- proposing

  function ExtendHist(h: Hist, p: At, log: seq<Entry>): Hist {
    h.(tlog := h.tlog[p.term := log], acked := h.acked[p := |log|])
  }

  lemma ExtendHistGrows(h: Hist, p: At, log: seq<Entry>)
    requires p.term in h.tlog && h.tlog[p.term] <= log && Acked(h, p.term, p.id) <= |log|
    requires p.term in h.leaderOf && h.leaderOf[p.term] == p.id
    ensures HistGrows(h, ExtendHist(h, p, log)) && HistLocal(h, ExtendHist(h, p, log), p.id)
  {
  }

  /** appendEntry: a leader extends its own log with entries of its term. */
  function Propose(s: State, i: Id, es: seq<Entry>): State
    requires i in s.nodes
  {
    var n := s.nodes[i];
    WithNode(s, i, n.(log := n.log + es, matched := n.matched[i := |n.log + es|]),
             ExtendHist(s.h, At(n.term, i), n.log + es))
  }

  ghost predicate CanPropose(s: State, i: Id, es: seq<Entry>) {
    && i in s.nodes && s.nodes[i].role == Leader
    && forall x | 0 <= x < |es| :: es[x].term == s.nodes[i].term && es[x].index == |s.nodes[i].log| + x + 1
  }

  lemma ProposeIsLocal(s: State, i: Id, es: seq<Entry>)
    requires AckKeys(s) && CanPropose(s, i, es) && RoleInv(s, i)
    ensures LocalTo(s, Propose(s, i, es), i)
  {
    hide HistGrows, HistLocal;
    var n := s.nodes[i];
    ExtendHistGrows(s.h, At(n.term, i), n.log + es);
  }

  lemma ProposeKeepsKeys(s: State, i: Id, es: seq<Entry>)
    requires KeysInv(s) && CanPropose(s, i, es) && RoleInv(s, i)
    ensures KeysInv(Propose(s, i, es))
  {
    hide VoteKeys, CampaignKeys;
    VoteKeysKept(s, Propose(s, i, es));
    CampaignKeysKept(s, Propose(s, i, es));
  }

  lemma ProposeIsGood(s: State, i: Id, es: seq<Entry>)
    requires AckKeys(s) && CanPropose(s, i, es) && RoleInv(s, i) && Good(s.h, s.nodes[i].log, s.nodes[i].term)
    requires s.nodes[i].term >= BOOT_TERM
    ensures Good(Propose(s, i, es).h, s.nodes[i].log + es, s.nodes[i].term)
  {
    hide Grows, HistLocal;
    var t, n := Propose(s, i, es), s.nodes[i];
    var log := n.log + es;
    ProposeIsLocal(s, i, es);
    GoodGrows(s, t, n.log, n.term, n.term);
    forall k | 0 <= k < |log|
      ensures log[k].term in t.h.tlog && Has(log, t.h.tlog[log[k].term], k + 1)
    {
      if k < |n.log| {
        assert log[k] == n.log[k] && log[..k + 1] == n.log[..k + 1];
      }
    }
  }

  /** A new entry of an old term cannot be chosen any more: the voters of the newer leader have moved on. */
  lemma LateEntryIsNotChoosable(s: State, i: Id, es: seq<Entry>, U: nat, k: nat)
    requires KeysInv(s) && ElectedInv(s) && CanPropose(s, i, es) && RoleInv(s, i)
    requires U in s.h.tlog && s.nodes[i].term < U && |s.nodes[i].log| < k
    ensures NotChoosable(Propose(s, i, es), s.nodes[i].term, k)
  {
    var T, t := s.nodes[i].term, Propose(s, i, es);
    var q :| VoteQuorum(s, U, s.h.leaderOf[U], q);
    forall j | j in q ensures j in t.nodes && t.nodes[j].term > T && Acked(t.h, T, j) < k {
      assert At(U, j) in s.h.voted;
      assert j != i;
      assert At(T, j) in s.h.acked ==> s.h.acked[At(T, j)] <= |s.h.tlog[T]|;
    }
    assert MissQuorum(t, T, k, q);
  }

  lemma ProposeKeepsCompleteness(s: State, i: Id, es: seq<Entry>)
    requires KeysInv(s) && ElectedInv(s) && CompletenessInv(s) && CanPropose(s, i, es) && RoleInv(s, i)
    ensures CompletenessInv(Propose(s, i, es))
  {
    hide KeysInv, ElectedInv, NotChoosable, Grows, HistLocal;
    var t, n := Propose(s, i, es), s.nodes[i];
    ProposeIsLocal(s, i, es) by { KeysAcks(s); }
    forall T: nat, U: nat, k: nat | T < U && U in t.h.tlog && OwnEntry(t.h, T, k)
      ensures Safe(t, t.h.tlog[U], T, k)
    {
      if T == n.term && |n.log| < k {
        LateEntryIsNotChoosable(s, i, es, U, k);
      } else {
        assert OwnEntry(s.h, T, k);
        assert Safe(s, s.h.tlog[U], T, k);
        SafeGrows(s, t, s.h.tlog[U], T, k);
        LongerIsSafe(t, s.h.tlog[U], t.h.tlog[U], T, k);
      }
    }
  }

  lemma KeysAcks(s: State)
    requires KeysInv(s)
    ensures AckKeys(s)
  {
  }

  lemma LongerIsSafe(s: State, a: seq<Entry>, b: seq<Entry>, T: nat, k: nat)
    requires a <= b && T in s.h.tlog && Safe(s, a, T, k)
    ensures Safe(s, b, T, k)
  {
    if k <= |a| { assert b[..k] == a[..k]; }
  }

  lemma ProposeKeepsHist(s: State, i: Id, es: seq<Entry>)
    requires HistInv(s) && CanPropose(s, i, es) && RoleInv(s, i) && LogInv(s, i) && s.nodes[i].term >= BOOT_TERM
    ensures HistInv(Propose(s, i, es))
  {
    hide KeysInv, Good, TermLogsInv, ElectedInv, BallotsInv, CampaignsInv, BallotSafe, Safe, KeepsAcks, CommittedIn,
         CompletenessInv, Grows, HistLocal;
    var t := Propose(s, i, es);
    KeysAcks(s);
    ProposeIsLocal(s, i, es);
    ProposeKeepsKeys(s, i, es);
    ProposeKeepsCompleteness(s, i, es);
    ProposeIsGood(s, i, es);
    HistInvFrom(s, t);
  }

  lemma ProposeKeepsLog(s: State, i: Id, es: seq<Entry>)
    requires KeysInv(s) && CanPropose(s, i, es) && RoleInv(s, i) && LogInv(s, i) && s.nodes[i].term >= BOOT_TERM
    ensures LogInv(Propose(s, i, es), i)
  {
    hide KeysInv, Good, Safe, CommittedIn, Grows, HistLocal;
    var t, n := Propose(s, i, es), s.nodes[i];
    KeysAcks(s);
    ProposeIsLocal(s, i, es);
    ProposeIsGood(s, i, es);
    CommittedBound(s, n.log, n.term, n.committed);
    assert (n.log + es)[..n.committed] == n.log[..n.committed];
    CommittedInGrows(s, t, n.log, n.term, n.committed, n.log + es, n.term);
    forall T: nat, k: nat | T <= n.term && OwnEntry(t.h, T, k) && k <= Acked(t.h, T, i)
      ensures Safe(t, n.log + es, T, k)
    {
      if T < n.term {
        assert OwnEntry(s.h, T, k);
        SafeGrows(s, t, n.log, T, k);
        LongerIsSafe(t, n.log, n.log + es, T, k);
      } else {
        HasIsSafe(t, n.log + es, T, k);
      }
    }
  }

  lemma ProposeKeepsInv(s: State, i: Id, es: seq<Entry>)
    requires Inv(s) && CanPropose(s, i, es)
    ensures Inv(Propose(s, i, es))
  {
    hide KeysInv, NetInv, TermLogsInv, ElectedInv, BallotsInv, CampaignsInv, CompletenessInv, LogInv, Grows, HistLocal;
    assert NodeInv(s, i);
    hide NodesInv;
    KeysAcks(s);
    ProposeIsLocal(s, i, es);
    ProposeKeepsHist(s, i, es);
    ProposeKeepsLog(s, i, es);
    LocalKeepsInv(s, Propose(s, i, es), i);
  }

  // ---------------------------------------------------------------- sending

  function Send(s: State, ms: set<Msg>): State { s.(net := s.net + ms) }

  /** Any messages that are true of the history may be sent. */
  lemma SendKeepsInv(s: State, ms: set<Msg>)
    requires Inv(s) && forall m | m in ms :: MsgInv(s, m)
    ensures Inv(Send(s, ms)) && Grows(s, Send(s, ms))
  {
    var t := Send(s, ms);
    hide HistInv, NodeInv, MsgInv, Grows;
    SendGrows(s, ms);
    forall j | j in t.nodes ensures NodeInv(t, j) { SendKeepsNode(s, ms, j); }
    SameHistKeepsHistInv(s, t);
    forall x | x in t.net ensures MsgInv(t, x) { MsgInvGrows(s, t, x); }
  }

  lemma SendGrows(s: State, ms: set<Msg>)
    ensures Grows(s, Send(s, ms))
  {
  }

  lemma SendKeepsNode(s: State, ms: set<Msg>, j: Id)
    requires Inv(s) && j in s.nodes
    ensures NodeInv(Send(s, ms), j)
  {
    hide Good, KeepsAcks, CommittedIn, Elected, MsgInv, KeysInv;
    assert NodeInv(s, j);
    LogInvGrows(s, Send(s, ms), j);
  }

  // ---------------------------------------------------------------- acknowledging

  function AckHist(h: Hist, p: At, k: nat): Hist { h.(acked := h.acked[p := Max(Acked(h, p.term, p.id), k)]) }

  lemma AckHistGrows(h: Hist, p: At, k: nat)
    ensures HistGrows(h, AckHist(h, p, k)) && HistLocal(h, AckHist(h, p, k), p.id)
  {
  }

  /** Node i acknowledges k in its term while its log and commit index become what `n` says. */
  function Acknowledge(s: State, i: Id, n: PNode, k: nat): State
    requires i in s.nodes
  {
    WithNode(s, i, n, AckHist(s.h, At(n.term, i), k))
  }

  /** The log a follower may adopt when it acknowledges k: it agrees with the leader up to k
      and gives up nothing on which it already agreed. */
  ghost predicate CanAcknowledge(s: State, i: Id, n: PNode, k: nat) {
    && i in s.nodes && n == s.nodes[i].(log := n.log, committed := n.committed)
    && n.role == Follower
    && n.term in s.h.tlog
    && Good(s.h, n.log, n.term)
    && Has(n.log, s.h.tlog[n.term], k)
    && (forall a | Has(s.nodes[i].log, s.h.tlog[n.term], a) :: Has(n.log, s.h.tlog[n.term], a))
    && CommittedIn(s, n.log, n.term, n.committed)
  }

  lemma AcknowledgeIsLocal(s: State, i: Id, n: PNode, k: nat)
    requires CanAcknowledge(s, i, n, k)
    ensures LocalTo(s, Acknowledge(s, i, n, k), i)
  {
    hide HistGrows, HistLocal;
    AckHistGrows(s.h, At(n.term, i), k);
  }

  lemma AcknowledgeKeepsKeys(s: State, i: Id, n: PNode, k: nat)
    requires KeysInv(s) && CanAcknowledge(s, i, n, k)
    ensures KeysInv(Acknowledge(s, i, n, k))
  {
    hide Good, CommittedIn, LeaderKeys, VoteKeys, CampaignKeys;
    var t := Acknowledge(s, i, n, k);
    LeaderKeysKept(s, t);
    VoteKeysKept(s, t);
    CampaignKeysKept(s, t);
  }

  lemma AcknowledgeKeepsHist(s: State, i: Id, n: PNode, k: nat)
    requires HistInv(s) && CanAcknowledge(s, i, n, k)
    ensures HistInv(Acknowledge(s, i, n, k))
  {
    hide KeysInv, Good, TermLogsInv, ElectedInv, BallotsInv, CampaignsInv, BallotSafe, Elected,
         CompletenessInv, Grows, HistLocal, CanAcknowledge;
    assert i in s.nodes by { AcknowledgeIsLocal(s, i, n, k); }
    var t := Acknowledge(s, i, n, k);
    AcknowledgeIsLocal(s, i, n, k);
    AcknowledgeKeepsKeys(s, i, n, k);
    CompletenessGrows(s, t);
    HistInvFrom(s, t);
  }

  lemma AcknowledgeKeepsLog(s: State, i: Id, n: PNode, k: nat)
    requires HistInv(s) && CanAcknowledge(s, i, n, k) && LogInv(s, i)
    ensures LogInv(Acknowledge(s, i, n, k), i)
  {
    hide KeysInv, Good, Safe, CommittedIn, Grows, HistLocal, TermLogsInv, ElectedInv, BallotsInv, CampaignsInv;
    var t, old' := Acknowledge(s, i, n, k), s.nodes[i];
    AcknowledgeIsLocal(s, i, n, k);
    GoodGrows(s, t, n.log, n.term, n.term);
    CommittedBound(s, n.log, n.term, n.committed);
    CommittedInGrows(s, t, n.log, n.term, n.committed, n.log, n.term);
    forall T: nat, l: nat | T <= n.term && OwnEntry(t.h, T, l) && l <= Acked(t.h, T, i)
      ensures Safe(t, n.log, T, l)
    {
      if T == n.term {
        AgreementShrinks(n.log, s.h.tlog[T], Acked(t.h, T, i), l);
        HasIsSafe(t, n.log, T, l);
      } else {
        assert OwnEntry(s.h, T, l) && Safe(s, s.h.tlog[n.term], T, l);
        KeptPrefixIsSafe(s, old'.log, s.h.tlog[n.term], n.log, T, l);
        SafeGrows(s, t, n.log, T, l);
      }
    }
  }

  lemma AgreementShrinks(a: seq<Entry>, b: seq<Entry>, k: nat, l: nat)
    requires Has(a, b, k) && l <= k
    ensures Has(a, b, l)
  {
    assert a[..l] == a[..k][..l];
    assert b[..l] == b[..k][..l];
  }

  /** Where the old log and the leader's agree, giving up neither, the new log is as safe as the old one. */
  lemma KeptPrefixIsSafe(s: State, log: seq<Entry>, lead: seq<Entry>, log': seq<Entry>, T: nat, k: nat)
    requires T in s.h.tlog && Safe(s, log, T, k) && Safe(s, lead, T, k)
    requires forall a | Has(log, lead, a) :: Has(log', lead, a)
    ensures Safe(s, log', T, k)
  {
    if Has(log, s.h.tlog[T], k) && Has(lead, s.h.tlog[T], k) {
      assert Has(log, lead, k);
    }
  }

  lemma AcknowledgeKeepsInv(s: State, i: Id, n: PNode, k: nat)
    requires Inv(s) && CanAcknowledge(s, i, n, k)
    ensures i in s.nodes && Inv(Acknowledge(s, i, n, k))
  {
    hide KeysInv, NetInv, TermLogsInv, ElectedInv, BallotsInv, CampaignsInv, CompletenessInv, LogInv, Grows, HistLocal, Good,
         CommittedIn;
    assert NodeInv(s, i);
    hide NodesInv;
    AcknowledgeIsLocal(s, i, n, k);
    AcknowledgeKeepsHist(s, i, n, k);
    AcknowledgeKeepsLog(s, i, n, k);
    LocalKeepsInv(s, Acknowledge(s, i, n, k), i);
  }

  // ---------------------------------------------------------------- appending at a follower

  /** Log matching: two covered logs with the same term at a position agree up to it. */
  lemma SameTermSamePrefix(h: Hist, a: seq<Entry>, b: seq<Entry>, k: nat)
    requires Covered(h, a) && Covered(h, b)
    requires 1 <= k <= |a| && k <= |b| && a[k - 1].term == b[k - 1].term
    ensures Has(a, b, k)
  {
    assert Has(a, h.tlog[a[k - 1].term], k) && Has(b, h.tlog[b[k - 1].term], k);
  }

  /** The entries of an append are a slice of the leader's log, and the previous entry matched. */
  ghost predicate Fits(h: Hist, log: seq<Entry>, lead: seq<Entry>, index: nat, es: seq<Entry>) {
    && Covered(h, log) && Covered(h, lead)
    && (exists b :: WellFormed(lead, b))
    && index + |es| <= |lead| && es == lead[index..index + |es|]
    && index <= |log| && (index == 0 || log[index - 1].term == lead[index - 1].term)
  }

  lemma FitsIsContiguous(h: Hist, log: seq<Entry>, lead: seq<Entry>, index: nat, es: seq<Entry>)
    requires Fits(h, log, lead, index, es)
    ensures Contiguous(es, index + 1) && Has(log, lead, index)
  {
    forall x | 0 <= x < |es| ensures es[x].index == index + 1 + x && es[x].term >= 1 {
      assert es[x] == lead[index + x];
    }
    if index > 0 { SameTermSamePrefix(h, log, lead, index); }
  }

  /** An entry of the append that the log holds makes the logs agree up to it. */
  lemma HeldEntryAgrees(h: Hist, log: seq<Entry>, lead: seq<Entry>, index: nat, es: seq<Entry>, x: nat)
    requires Fits(h, log, lead, index, es) && Contiguous(es, index + 1)
    requires x < |es| && Holds(Plain(log), es, x + 1)
    ensures Has(log, lead, index + x + 1)
  {
    hide WellFormed, Covered, Has;
    assert es[x].index == index + x + 1 && es[x] == lead[index + x];
    SameTermSamePrefix(h, log, lead, index + x + 1);
  }

  /** Up to the conflict the two logs agree; at the conflict they differ. */
  lemma ConflictSplits(h: Hist, log: seq<Entry>, lead: seq<Entry>, index: nat, es: seq<Entry>)
    requires Fits(h, log, lead, index, es) && Contiguous(es, index + 1)
    ensures var ci := FindConflict(Plain(log), es);
            if ci == 0 then Has(log, lead, index + |es|)
            else index < ci <= index + |es| && ci <= |log| + 1 && Has(log, lead, ci - 1) && !Has(log, lead, ci)
  {
    hide FindConflict, Has, Fits, Holds;
    FitsBound(h, log, lead, index, es);
    FitsIsContiguous(h, log, lead, index, es);
    ConflictIsFirst(Plain(log), index, es);
    hide Contiguous;
    var ci := FindConflict(Plain(log), es);
    if ci == 0 {
      if es != [] { HeldEntryAgrees(h, log, lead, index, es, |es| - 1); }
    } else {
      if ci - 1 > index { HeldEntryAgrees(h, log, lead, index, es, ci - index - 2); }
      assert es[ci - index - 1] == lead[ci - 1];
      HasLast(log, lead, ci);
    }
  }

  lemma HasLast(a: seq<Entry>, b: seq<Entry>, k: nat)
    ensures 1 <= k && Has(a, b, k) ==> k <= |a| && k <= |b| && a[k - 1] == b[k - 1]
  {
    if 1 <= k && Has(a, b, k) { assert a[k - 1] == a[..k][k - 1] == b[..k][k - 1]; }
  }

  lemma CutAndAppend(log: seq<Entry>, lead: seq<Entry>, index: nat, es: seq<Entry>, ci: nat)
    requires index < ci <= index + |es| <= |lead| && es == lead[index..index + |es|]
    requires Has(log, lead, ci - 1)
    ensures log[..ci - 1] + es[ci - index - 1..] == lead[..index + |es|]
  {
    assert es[ci - index - 1..] == lead[ci - 1..index + |es|];
  }

  lemma MergedAgrees(h: Hist, log: seq<Entry>, lead: seq<Entry>, index: nat, es: seq<Entry>)
    requires Fits(h, log, lead, index, es) && Contiguous(es, index + 1)
    ensures var l := Merged(Plain(log), index, es);
            (l == Plain(log) && Has(log, lead, index + |es|)) || l == Plain(lead[..index + |es|])
  {
    hide Covered, WellFormed, FindConflict, Holds, Fits, Has;
    ConflictSplits(h, log, lead, index, es);
    FitsBound(h, log, lead, index, es);
    var ci := FindConflict(Plain(log), es);
    if ci != 0 {
      assert es[ci - index - 1].index == ci;
      CutAndAppend(log, lead, index, es, ci);
    }
  }

  /** An accepted append ends in agreement with the leader and gives up no earlier agreement. */
  lemma MergedKeeps(h: Hist, log: seq<Entry>, lead: seq<Entry>, index: nat, es: seq<Entry>, a: nat)
    requires Fits(h, log, lead, index, es) && Contiguous(es, index + 1)
    ensures Has(Merged(Plain(log), index, es).ents, lead, index + |es|)
    ensures Has(log, lead, a) ==> Has(Merged(Plain(log), index, es).ents, lead, a)
  {
    hide WellFormed, Covered, FindConflict, Fits;
    ConflictSplits(h, log, lead, index, es);
    MergedAgrees(h, log, lead, index, es);
    var last, ci := index + |es|, FindConflict(Plain(log), es);
    assert last <= |lead| by { FitsBound(h, log, lead, index, es); }
    if Has(log, lead, a) && ci != 0 {
      if ci <= a { AgreementShrinks(log, lead, a, ci); }
      AgreementShrinks(lead[..last], lead, last, a);
    }
  }

  lemma FitsBound(h: Hist, log: seq<Entry>, lead: seq<Entry>, index: nat, es: seq<Entry>)
    requires Fits(h, log, lead, index, es)
    ensures index + |es| <= |lead| && es == lead[index..index + |es|] && index <= |log|
  {
  }

  lemma PrefixIsGood(h: Hist, log: seq<Entry>, bound: nat, k: nat)
    requires Good(h, log, bound) && k <= |log|
    ensures Good(h, log[..k], bound)
  {
    forall x | 0 <= x < k
      ensures log[..k][x].term in h.tlog && Has(log[..k], h.tlog[log[..k][x].term], x + 1)
    {
      assert Has(log, h.tlog[log[x].term], x + 1);
      assert log[..k][..x + 1] == log[..x + 1];
    }
  }

  // ---------------------------------------------------------------- handling an append

  /** The node after maybeAppend accepted `m`: raft/log.go:87-103. */
  function AppendResult(n: PNode, m: Msg): PNode
    requires m.MsgApp? && Contiguous(m.entries, m.index + 1) && m.index <= |n.log|
  {
    n.(log := Merged(Plain(n.log), m.index, m.entries).ents,
       committed := Max(n.committed, Min(m.commit, m.index + |m.entries|)))
  }

  /** An append whose previous entry matches fits the follower's log. */
  lemma AppendFits(s: State, i: Id, m: Msg)
    requires HistInv(s) && i in s.nodes && LogInv(s, i) && m.MsgApp? && MsgInv(s, m)
    requires Plain(s.nodes[i].log).MatchTerm(m.index, m.logTerm)
    ensures m.term in s.h.tlog
    ensures Fits(s.h, s.nodes[i].log, s.h.tlog[m.term], m.index, m.entries)
    ensures Contiguous(m.entries, m.index + 1)
  {
    hide KeysInv, ElectedInv, BallotsInv, CampaignsInv, CompletenessInv, CommittedIn, KeepsAcks, Covered;
    var lead := s.h.tlog[m.term];
    assert Good(s.h, lead, m.term);
    if m.index > 0 { assert lead[m.index - 1].term >= 1; }
    FitsIsContiguous(s.h, s.nodes[i].log, lead, m.index, m.entries);
  }

  /** The "conflict with committed entry" panic cannot happen. */
  lemma NoConflictWithCommitted(s: State, i: Id, m: Msg)
    requires HistInv(s) && i in s.nodes && LogInv(s, i) && m.MsgApp? && MsgInv(s, m)
    requires m.term == s.nodes[i].term && Plain(s.nodes[i].log).MatchTerm(m.index, m.logTerm)
    ensures var ci := FindConflict(Plain(s.nodes[i].log), m.entries);
            ci == 0 || s.nodes[i].committed < ci
  {
    hide KeysInv, TermLogsInv, ElectedInv, BallotsInv, CampaignsInv, CompletenessInv, CommittedIn, KeepsAcks, Good, Fits,
         FindConflict, Contiguous;
    var n := s.nodes[i];
    AppendFits(s, i, m);
    ConflictSplits(s.h, n.log, s.h.tlog[m.term], m.index, m.entries);
    CommittedReachesLeader(s, n.log, n.term, n.committed, m.term);
    var ci := FindConflict(Plain(n.log), m.entries);
    if 0 < ci <= n.committed { AgreementShrinks(n.log, s.h.tlog[m.term], n.committed, ci); }
  }

  lemma AppendCommits(s: State, i: Id, m: Msg, log': seq<Entry>)
    requires HistInv(s) && i in s.nodes && LogInv(s, i) && m.MsgApp? && MsgInv(s, m) && m.term == s.nodes[i].term
    requires Has(log', s.h.tlog[m.term], m.index + |m.entries|)
    requires forall a | Has(s.nodes[i].log, s.h.tlog[m.term], a) :: Has(log', s.h.tlog[m.term], a)
    ensures CommittedIn(s, log', m.term, Max(s.nodes[i].committed, Min(m.commit, m.index + |m.entries|)))
  {
    hide KeysInv, TermLogsInv, ElectedInv, BallotsInv, CampaignsInv, CompletenessInv, CommittedIn, KeepsAcks, Good;
    var n, lead := s.nodes[i], s.h.tlog[m.term];
    var c := Min(m.commit, m.index + |m.entries|);
    assert Grows(s, s);
    if n.committed >= c {
      CommittedReachesLeader(s, n.log, n.term, n.committed, m.term);
      CommittedInGrows(s, s, n.log, n.term, n.committed, log', n.term);
    } else {
      CommittedShrinks(s, lead, m.term, m.commit, c);
      AgreementShrinks(log', lead, m.index + |m.entries|, c);
      CommittedInGrows(s, s, lead, m.term, c, log', m.term);
    }
  }

  lemma CommittedShrinks(s: State, log: seq<Entry>, bound: nat, c: nat, d: nat)
    requires CommittedIn(s, log, bound, c) && d <= c
    ensures CommittedIn(s, log, bound, d)
  {
    if d > 0 {
      var T: nat, k: nat :| CommitWitness(s, log, bound, c, T, k);
      AgreementShrinks(log, s.h.tlog[T], c, d);
      assert CommitWitness(s, log, bound, d, T, k);
    }
  }

  lemma AppendCanAcknowledge(s: State, i: Id, m: Msg)
    requires HistInv(s) && i in s.nodes && LogInv(s, i) && m.MsgApp? && MsgInv(s, m)
    requires m.term == s.nodes[i].term && s.nodes[i].role == Follower
    requires Plain(s.nodes[i].log).MatchTerm(m.index, m.logTerm)
    ensures Contiguous(m.entries, m.index + 1) && m.index <= |s.nodes[i].log|
    ensures CanAcknowledge(s, i, AppendResult(s.nodes[i], m), m.index + |m.entries|)
  {
    hide KeysInv, ElectedInv, BallotsInv, CampaignsInv, CompletenessInv, CommittedIn, KeepsAcks, Good, FindConflict, Contiguous;
    var n := s.nodes[i];
    AppendFits(s, i, m);
    var lead, log', last := s.h.tlog[m.term], Merged(Plain(n.log), m.index, m.entries).ents, m.index + |m.entries|;
    MergedAgrees(s.h, n.log, lead, m.index, m.entries);
    assert Good(s.h, log', n.term) by {
      assert Good(s.h, lead, m.term);
      PrefixIsGood(s.h, lead, m.term, last);
    }
    hide TermLogsInv, Merged, Fits;
    forall a: nat | true ensures Has(log', lead, last) && (Has(n.log, lead, a) ==> Has(log', lead, a)) {
      MergedKeeps(s.h, n.log, lead, m.index, m.entries, a);
    }
    AppendCommits(s, i, m, log');
  }

  lemma InvNode(s: State, i: Id)
    requires Inv(s) && i in s.nodes
    ensures HistInv(s) && NodeInv(s, i) && LogInv(s, i) && RoleInv(s, i)
  {
    hide HistInv, NetInv;
  }

  lemma InvMsg(s: State, m: Msg)
    requires Inv(s) && m in s.net
    ensures MsgInv(s, m)
  {
    hide HistInv, NodesInv, MsgInv;
  }

  /** handleAppendEntries accepting an append (raft/raft.go:1356-1357). */
  lemma AppendKeepsInv(s: State, i: Id, m: Msg)
    requires Inv(s) && i in s.nodes && m.MsgApp? && m in s.net
    requires m.term == s.nodes[i].term && s.nodes[i].role == Follower
    requires Plain(s.nodes[i].log).MatchTerm(m.index, m.logTerm)
    ensures Contiguous(m.entries, m.index + 1) && m.index <= |s.nodes[i].log|
    ensures Inv(Acknowledge(s, i, AppendResult(s.nodes[i], m), m.index + |m.entries|))
  {
    hide Inv, HistInv, NodeInv, RoleInv, LogInv, MsgInv, CanAcknowledge, Contiguous;
    InvNode(s, i);
    InvMsg(s, m);
    AppendCanAcknowledge(s, i, m);
    AcknowledgeKeepsInv(s, i, AppendResult(s.nodes[i], m), m.index + |m.entries|);
  }

  /** A stale append is answered with the commit index (raft/raft.go:1351-1354). */
  lemma StaleAppendKeepsInv(s: State, i: Id)
    requires Inv(s) && i in s.nodes && s.nodes[i].role == Follower && s.nodes[i].term in s.h.tlog
    ensures Inv(Acknowledge(s, i, s.nodes[i], s.nodes[i].committed))
  {
    hide Inv, KeysInv, NodeInv, RoleInv, TermLogsInv, ElectedInv, BallotsInv, CampaignsInv, CompletenessInv, Good,
         CommittedIn, KeepsAcks, Has;
    InvNode(s, i);
    var n := s.nodes[i];
    CommittedReachesLeader(s, n.log, n.term, n.committed, n.term);
    AcknowledgeKeepsInv(s, i, n, n.committed);
  }

  // ---------------------------------------------------------------- commit indexes

  function CommitTo(s: State, i: Id, c: nat): State
    requires i in s.nodes
  {
    WithNode(s, i, s.nodes[i].(committed := Max(s.nodes[i].committed, c)), s.h)
  }

  lemma CommitToKeepsInv(s: State, i: Id, c: nat)
    requires Inv(s) && i in s.nodes && CommittedIn(s, s.nodes[i].log, s.nodes[i].term, c)
    ensures Inv(CommitTo(s, i, c))
  {
    hide Inv, HistInv, Good, CommittedIn, KeepsAcks, HistGrows, HistLocal, AcksFrozen;
    InvNode(s, i);
    var t, n := CommitTo(s, i, c), s.nodes[i];
    OnlyNodeIsLocal(s, t, i);
    var c' := Max(n.committed, c);
    CommittedBound(s, n.log, n.term, c');
    CommittedInGrows(s, t, n.log, n.term, c', n.log, n.term);
    GoodGrows(s, t, n.log, n.term, n.term);
    KeepsAcksGrows(s, t, i, n.log, n.term, n.term) by { HistKeys(s); }
    OnlyNodeKeepsInv(s, t, i);
  }

  lemma HistKeys(s: State)
    requires HistInv(s)
    ensures KeysInv(s)
  {
  }

  /** A heartbeat carries at most what the follower acknowledged, so the
      "tocommit out of range" panic cannot happen (raft/raft.go:585-603, 1366-1369). */
  lemma HeartbeatInRange(s: State, i: Id, m: Msg)
    requires Inv(s) && i in s.nodes && m.MsgHeartbeat? && m in s.net && m.to == i && m.term == s.nodes[i].term
    ensures m.commit <= |s.nodes[i].log|
    ensures CommittedIn(s, s.nodes[i].log, s.nodes[i].term, m.commit)
  {
    hide Inv, HistInv, NodeInv, RoleInv, CommittedIn, Good, KeepsAcks, HistGrows, AcksFrozen;
    InvNode(s, i);
    InvMsg(s, m);
    var n := s.nodes[i];
    AgreementShrinks(n.log, s.h.tlog[n.term], Acked(s.h, n.term, i), m.commit);
    assert HistGrows(s.h, s.h) && AcksFrozen(s, s) by { GrowsSelf(s); }
    CommittedInGrows(s, s, s.h.tlog[n.term], n.term, m.commit, n.log, n.term);
  }

  lemma GrowsSelf(s: State)
    ensures Grows(s, s)
  {
  }

  /** The leader records an acknowledgement it has seen. */
  function SetMatch(s: State, i: Id, j: Id, k: nat): State
    requires i in s.nodes
  {
    WithNode(s, i, s.nodes[i].(matched := s.nodes[i].matched[j := k]), s.h)
  }

  lemma SetMatchKeepsInv(s: State, i: Id, j: Id, k: nat)
    requires Inv(s) && i in s.nodes && s.nodes[i].role == Leader && j in s.voters
    requires k <= Acked(s.h, s.nodes[i].term, j)
    ensures Inv(SetMatch(s, i, j, k))
  {
    hide Inv, HistInv, LogInv;
    InvNode(s, i);
    SameLogKeepsInv(s, SetMatch(s, i, j, k), i);
  }

  function DeclareHist(h: Hist, T: nat, c: nat): Hist { h.(tcommit := h.tcommit[T := c]) }

  lemma DeclareHistGrows(h: Hist, T: nat, i: Id, c: nat)
    requires T in h.leaderOf && h.leaderOf[T] == i && Declared(h, T) <= c
    ensures HistGrows(h, DeclareHist(h, T, c)) && HistLocal(h, DeclareHist(h, T, c), i)
  {
  }

  /** The leader moves its commit index to an entry of its own term. */
  function LeaderCommit(s: State, i: Id, c: nat): State
    requires i in s.nodes
  {
    WithNode(s, i, s.nodes[i].(committed := c), DeclareHist(s.h, s.nodes[i].term, c))
  }

  ghost predicate CanCommit(s: State, i: Id, c: nat, q: set<Id>) {
    && i in s.nodes && s.nodes[i].role == Leader && s.nodes[i].committed <= c
    && Quorum(s.voters, q) && (forall j | j in q :: j in s.nodes[i].matched && c <= s.nodes[i].matched[j])
    && 1 <= c && TermAt(s.nodes[i].log, c) == s.nodes[i].term
  }

  lemma LeaderCommitIsLocal(s: State, i: Id, c: nat, q: set<Id>)
    requires CanCommit(s, i, c, q) && RoleInv(s, i)
    ensures LocalTo(s, LeaderCommit(s, i, c), i)
  {
    hide HistGrows, HistLocal;
    DeclareHistGrows(s.h, s.nodes[i].term, i, c);
  }

  lemma LeaderCommitKeepsKeys(s: State, i: Id, c: nat, q: set<Id>)
    requires KeysInv(s) && CanCommit(s, i, c, q) && RoleInv(s, i)
    ensures KeysInv(LeaderCommit(s, i, c))
  {
    hide VoteKeys, CampaignKeys, AckKeys;
    var t := LeaderCommit(s, i, c);
    VoteKeysKept(s, t);
    CampaignKeysKept(s, t);
    AckKeysKept(s, t);
  }

  lemma LeaderCommitKeepsHist(s: State, i: Id, c: nat, q: set<Id>)
    requires HistInv(s) && CanCommit(s, i, c, q) && RoleInv(s, i)
    ensures HistInv(LeaderCommit(s, i, c))
  {
    hide KeysInv, Good, TermLogsInv, ElectedInv, BallotsInv, CampaignsInv, BallotSafe, Elected,
         CompletenessInv, Grows, HistLocal, RoleInv;
    var t := LeaderCommit(s, i, c);
    LeaderCommitIsLocal(s, i, c, q);
    LeaderCommitKeepsKeys(s, i, c, q);
    CompletenessGrows(s, t);
    HistInvFrom(s, t);
  }

  /** A majority of matches at an entry of the leader's own term commits it (raft/raft.go:638-653, raft/log.go:294-300). */
  lemma LeaderCommitIsChosen(s: State, i: Id, c: nat, q: set<Id>)
    requires CanCommit(s, i, c, q) && RoleInv(s, i) && s.nodes[i].term >= BOOT_TERM
    ensures var t := LeaderCommit(s, i, c); CommittedIn(t, t.nodes[i].log, t.nodes[i].term, c)
  {
    var t, n := LeaderCommit(s, i, c), s.nodes[i];
    assert AckQuorum(t, n.term, c, q);
    assert c <= |n.log|;
    assert CommitWitness(t, n.log, n.term, c, n.term, c);
  }

  lemma LeaderCommitKeepsNode(s: State, i: Id, c: nat, q: set<Id>)
    requires HistInv(s) && CanCommit(s, i, c, q) && NodeInv(s, i)
    ensures NodeInv(LeaderCommit(s, i, c), i)
  {
    hide HistInv, Good, CommittedIn, KeepsAcks, HistGrows, HistLocal, AcksFrozen;
    var t, n := LeaderCommit(s, i, c), s.nodes[i];
    LeaderCommitIsLocal(s, i, c, q);
    LeaderCommitIsChosen(s, i, c, q);
    GoodGrows(s, t, n.log, n.term, n.term);
    KeepsAcksGrows(s, t, i, n.log, n.term, n.term) by { HistKeys(s); }
  }

  lemma LeaderCommitKeepsInv(s: State, i: Id, c: nat, q: set<Id>)
    requires Inv(s) && CanCommit(s, i, c, q)
    ensures Inv(LeaderCommit(s, i, c))
  {
    hide Inv, HistInv, NodeInv, LogInv, RoleInv, Grows, HistLocal;
    InvNode(s, i);
    LeaderCommitIsLocal(s, i, c, q);
    LeaderCommitKeepsHist(s, i, c, q);
    LeaderCommitKeepsNode(s, i, c, q);
    LocalKeepsInv(s, LeaderCommit(s, i, c), i);
  }
}
