/** The vocabulary shared by every level of the Raft model: entries, roles and
    the messages of raft/raftpb, one constructor per message type. */
module RaftTypes {

  /** Raft replica ids; `NONE` stands for "no node". */
  type Id = nat
  const NONE: Id := 0

  /** The opaque context that travels with a read-index request. */
  type Ctx = string

  /** `index` is the 1-based log position of the entry. */
  datatype Entry = Entry(index: nat, term: nat, data: string)

  datatype Role = Follower | Candidate | Leader | PreCandidate

  /** Messages. The last group is local: it never travels between nodes.
      `MsgProp` and `MsgReadIndex` travel without a term, as in the source. */
  datatype Msg =
    | MsgVote(term: nat, from: Id, to: Id, index: nat, logTerm: nat, transfer: bool)
    | MsgVoteResp(term: nat, from: Id, to: Id, reject: bool)
    | MsgPreVote(term: nat, from: Id, to: Id, index: nat, logTerm: nat)
    | MsgPreVoteResp(term: nat, from: Id, to: Id, reject: bool)
    | MsgApp(term: nat, from: Id, to: Id, index: nat, logTerm: nat, commit: nat, entries: seq<Entry>)
    | MsgAppResp(term: nat, from: Id, to: Id, index: nat, reject: bool, rejectHint: nat)
    | MsgHeartbeat(term: nat, from: Id, to: Id, commit: nat, ctx: Ctx)
    | MsgHeartbeatResp(term: nat, from: Id, to: Id, ctx: Ctx)
    | MsgTimeoutNow(term: nat, from: Id, to: Id)
    | MsgTransferLeader(term: nat, from: Id, to: Id)
    | MsgReadIndexResp(term: nat, from: Id, to: Id, index: nat, ctx: Ctx)
    | MsgProp(from: Id, to: Id, payload: seq<string>)
    | MsgReadIndex(from: Id, to: Id, ctx: Ctx)
    | MsgHup
    | MsgBeat
    | MsgCheckQuorum
    | MsgUnreachable(from: Id)

  /** Messages that carry no term. */
  predicate Termless(m: Msg) {
    m.MsgProp? || m.MsgReadIndex? || m.MsgHup? || m.MsgBeat? || m.MsgCheckQuorum? || m.MsgUnreachable?
  }

  function Min(a: nat, b: nat): nat { if a > b then b else a }
  function Max(a: nat, b: nat): nat { if a > b then a else b }

  /** Term of the entry at 1-based position `i`; 0 outside the log. */
  function TermAt(log: seq<Entry>, i: nat): nat {
    if 1 <= i <= |log| then log[i - 1].term else 0
  }

  function LastTerm(log: seq<Entry>): nat { TermAt(log, |log|) }
}

/** The log a node represents, as one value: everything up to `offset` is summed up
    in a snapshot whose last term is `offsetTerm`; `ents` follow contiguously. */
module Logs {
  import opened RaftTypes

  datatype Log = Log(offset: nat, offsetTerm: nat, ents: seq<Entry>) {
    function FirstIndex(): nat { offset + 1 }

    function LastIndex(): nat { offset + |ents| }

    /** 0 outside the log, without an error: raft/log.go:234-240. */
    function Term(i: nat): nat {
      if i == offset then offsetTerm
      else if offset < i <= LastIndex() then ents[i - offset - 1].term
      else 0
    }

    predicate MatchTerm(i: nat, term: nat) { Term(i) == term }

    /** Entries at positions lo .. hi-1. */
    function Slice(lo: nat, hi: nat): (r: seq<Entry>)
      requires offset < lo <= hi <= LastIndex() + 1
      ensures |r| == hi - lo
    {
      ents[lo - offset - 1..hi - offset - 1]
    }

    /** The log once everything up to position i is summed up. */
    function Dropped(i: nat): Log
      requires offset <= i <= LastIndex()
    {
      Log(i, Term(i), ents[i - offset..])
    }

    /** "Cut at the first new position, then append." */
    function Appended(es: seq<Entry>): Log
      requires es != [] ==> offset < es[0].index <= LastIndex() + 1
    {
      if es == [] then this else this.(ents := ents[..es[0].index - offset - 1] + es)
    }
  }

  /** A log that was never compacted. */
  function Plain(log: seq<Entry>): Log { Log(0, 0, log) }

  /** Position of the first entry of `es` whose term the log does not have there; 0 if there is none. */
  function FindConflict(l: Log, es: seq<Entry>): nat {
    if es == [] then 0
    else if !l.MatchTerm(es[0].index, es[0].term) then es[0].index
    else FindConflict(l, es[1..])
  }

  /** Real entries: terms are positive and positions run contiguously from `from`. */
  predicate Contiguous(es: seq<Entry>, from: nat) {
    forall x | 0 <= x < |es| :: es[x].index == from + x && es[x].term >= 1
  }

  /** The first n entries of `es` are in the log with their terms. */
  predicate Holds(l: Log, es: seq<Entry>, n: nat)
    requires n <= |es|
  {
    forall x | 0 <= x < n :: es[x].index <= l.LastIndex() && l.MatchTerm(es[x].index, es[x].term)
  }

  /** Everything before the conflict is in the log with its term, and the conflict itself is not. */
  lemma {:induction false} ConflictIsFirst(l: Log, index: nat, es: seq<Entry>)
    requires Contiguous(es, index + 1) && l.offset <= index <= l.LastIndex()
    ensures var ci := FindConflict(l, es);
            if ci == 0 then Holds(l, es, |es|)
            else index < ci <= index + |es| && ci <= l.LastIndex() + 1
                 && Holds(l, es, ci - index - 1) && l.Term(ci) != es[ci - index - 1].term
    decreases |es|
  {
    if es != [] && l.MatchTerm(es[0].index, es[0].term) {
      var rest := es[1..];
      ConflictIsFirst(l, index + 1, rest);
      var ci := FindConflict(l, rest);
      HoldsOneMore(l, es, if ci == 0 then |rest| else ci - index - 2);
    }
  }

  lemma HoldsOneMore(l: Log, es: seq<Entry>, n: nat)
    requires n < |es| && Holds(l, es[1..], n)
    requires es[0].index <= l.LastIndex() && l.MatchTerm(es[0].index, es[0].term)
    ensures Holds(l, es, n + 1)
  {
    forall x | 0 <= x < n + 1 ensures es[x].index <= l.LastIndex() && l.MatchTerm(es[x].index, es[x].term) {
      assert x == 0 || es[x] == es[1..][x - 1];
    }
  }

  /** What maybeAppend leaves behind once the previous entry matched. */
  function Merged(l: Log, index: nat, es: seq<Entry>): Log
    requires Contiguous(es, index + 1) && l.offset <= index <= l.LastIndex()
  {
    var ci := FindConflict(l, es);
    ConflictIsFirst(l, index, es);
    if ci == 0 then l else l.Appended(es[ci - index - 1..])
  }
}

/** Majorities of a fixed, finite voter set. */
module Quorums {
  import opened RaftTypes

  ghost predicate Quorum(voters: set<Id>, q: set<Id>) {
    q <= voters && |voters| < 2 * |q|
  }

  /** Any two majorities of one voter set share a member. */
  lemma QuorumsIntersect(voters: set<Id>, p: set<Id>, q: set<Id>) returns (j: Id)
    requires Quorum(voters, p) && Quorum(voters, q)
    ensures j in p && j in q
  {
    if p !! q {
      CardinalityOfUnion(p, q);
      SubsetCardinality(p + q, voters);
      assert false;
    }
    j :| j in p && j in q;
  }

  lemma CardinalityOfUnion(p: set<Id>, q: set<Id>)
    requires p !! q
    ensures |p + q| == |p| + |q|
  {
  }

  lemma {:induction false} SubsetCardinality(p: set<Id>, q: set<Id>)
    requires p <= q
    ensures |p| <= |q|
  {
    if p != {} {
      var x :| x in p;
      SubsetCardinality(p - {x}, q - {x});
    }
  }
}
