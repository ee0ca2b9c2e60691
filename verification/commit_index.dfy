/** How a leader computes the index a quorum has reached: raft/raft.go:638-653 fills a buffer with
    the match indexes, sorts it and picks one position. */
module CommitIndex {
  import opened RaftTypes
  import opened RaftNode

  /** How many elements are at least k. */
  function CountGe(s: seq<nat>, k: nat): nat {
    if s == [] then 0 else CountGe(s[..|s| - 1], k) + if s[|s| - 1] >= k then 1 else 0
  }

  predicate Sorted(s: seq<nat>) { forall j, k | 0 <= j < k < |s| :: s[j] <= s[k] }

  ghost predicate SameCounts(s: seq<nat>, t: seq<nat>) { |s| == |t| && forall k: nat :: CountGe(s, k) == CountGe(t, k) }

  lemma {:induction false} CountJoins(s: seq<nat>, t: seq<nat>, k: nat)
    ensures CountGe(s + t, k) == CountGe(s, k) + CountGe(t, k)
  {
    if t == [] {
      assert s + t == s;
    } else {
      assert (s + t)[..|s + t| - 1] == s + t[..|t| - 1];
      CountJoins(s, t[..|t| - 1], k);
    }
  }

  /** Stands for the library's sort: moves x to its place in a sorted sequence. */
  function Insert(x: nat, s: seq<nat>): (r: seq<nat>)
    requires Sorted(s)
    ensures Sorted(r) && |r| == |s| + 1
    ensures r[0] == if s == [] || x <= s[0] then x else s[0]
  {
    if s == [] || x <= s[0] then [x] + s
    else
      var rest := Insert(x, s[1..]);
      assert s[0] <= rest[0];
      [s[0]] + rest
  }

  lemma {:induction false} InsertCounts(x: nat, s: seq<nat>, k: nat)
    requires Sorted(s)
    ensures CountGe(Insert(x, s), k) == CountGe(s + [x], k)
  {
    CountJoins(s, [x], k);
    CountJoins([x], s, k);
    if s != [] && x > s[0] {
      InsertCounts(x, s[1..], k);
      CountJoins(s[1..], [x], k);
      CountJoins([s[0]], Insert(x, s[1..]), k);
      CountJoins([s[0]], s[1..], k);
      assert s == [s[0]] + s[1..];
    }
  }

  /** In a sorted sequence at least q elements reach the q-th from the end, and fewer than q exceed it. */
  lemma PickedIsReached(s: seq<nat>, q: nat)
    requires Sorted(s) && 1 <= q <= |s|
    ensures var k := s[|s| - q]; CountGe(s, k) >= q > CountGe(s, k + 1)
  {
    var k := s[|s| - q];
    CountAtLeast(s, k, |s| - q);
    CountAtMost(s, k + 1, |s| - q + 1);
  }

  lemma {:induction false} CountAtLeast(s: seq<nat>, k: nat, p: nat)
    requires p <= |s| && forall j | p <= j < |s| :: s[j] >= k
    ensures CountGe(s, k) >= |s| - p
  {
    if p < |s| { CountAtLeast(s[..|s| - 1], k, p); }
  }

  lemma {:induction false} CountAtMost(s: seq<nat>, k: nat, p: nat)
    requires p <= |s| && forall j | 0 <= j < p :: s[j] < k
    ensures CountGe(s, k) <= |s| - p
  {
    if s != [] { CountAtMost(s[..|s| - 1], k, Min(p, |s| - 1)); }
  }

  /** The members of `ids` whose match index is at least k. */
  ghost function ReachedIn(prs: map<Id, Progress>, ids: set<Id>, k: nat): set<Id> {
    set j | j in ids && j in prs && prs[j].matched >= k
  }

  lemma ReachedOneMore(prs: map<Id, Progress>, ids: set<Id>, j: Id, k: nat)
    requires j in prs && j !in ids
    ensures |ReachedIn(prs, ids + {j}, k)| == |ReachedIn(prs, ids, k)| + if prs[j].matched >= k then 1 else 0
  {
    if prs[j].matched >= k {
      assert ReachedIn(prs, ids + {j}, k) == ReachedIn(prs, ids, k) + {j};
    } else {
      assert ReachedIn(prs, ids + {j}, k) == ReachedIn(prs, ids, k);
    }
  }

  class Committer {
    /** Kept across calls and grown when it is too short. */
    var matchBuf: array<nat>

    constructor ()
      ensures fresh(matchBuf)
    {
      matchBuf := new nat[0];
    }

    /** Copies the match indexes in some order. */
    method Collect(prs: map<Id, Progress>)
      modifies this, matchBuf
      ensures matchBuf == old(matchBuf) || fresh(matchBuf)
      ensures matchBuf.Length >= |prs|
      ensures forall k: nat :: CountGe(matchBuf[..|prs|], k) == |Reached(prs, k)|
    {
      if matchBuf.Length < |prs| { matchBuf := new nat[|prs|]; }
      var buf, ids, idx := matchBuf, prs.Keys, 0;
      while ids != {}
        invariant matchBuf == buf
        invariant ids <= prs.Keys && idx + |ids| == |prs|
        invariant forall k: nat :: CountGe(matchBuf[..idx], k) == |ReachedIn(prs, prs.Keys - ids, k)|
        decreases |ids|
      {
        var j :| j in ids;
        ghost var before := matchBuf[..idx];
        matchBuf[idx] := prs[j].matched;
        idx := idx + 1;
        assert matchBuf[..idx] == before + [prs[j].matched];
        forall k: nat ensures CountGe(matchBuf[..idx], k) == |ReachedIn(prs, prs.Keys - (ids - {j}), k)| {
          ReachedOneMore(prs, prs.Keys - ids, j, k);
          assert prs.Keys - (ids - {j}) == prs.Keys - ids + {j};
        }
        ids := ids - {j};
      }
      forall k: nat ensures CountGe(matchBuf[..|prs|], k) == |Reached(prs, k)| {
        assert ReachedIn(prs, prs.Keys - ids, k) == Reached(prs, k);
      }
    }

    /** The index the commit rule picks: a quorum has reached it, and no quorum has passed it. */
    method QuorumMatch(prs: map<Id, Progress>, quorum: nat) returns (mci: nat)
      requires 1 <= quorum <= |prs|
      modifies this, matchBuf
      ensures matchBuf == old(matchBuf) || fresh(matchBuf)
      ensures mci == QuorumIndex(prs, quorum)
    {
      Collect(prs);
      var sorted := SortPrefix(matchBuf, |prs|);
      mci := sorted[|sorted| - quorum];
      PickedIsReached(sorted, quorum);
      assert IsQuorumIndex(prs, quorum, mci);
      QuorumIndexUnique(prs, quorum, mci, QuorumIndex(prs, quorum));
    }
  }

  method SortPrefix(a: array<nat>, n: nat) returns (sorted: seq<nat>)
    requires n <= a.Length
    ensures Sorted(sorted) && SameCounts(sorted, a[..n])
  {
    sorted := [];
    for i := 0 to n
      invariant Sorted(sorted) && SameCounts(sorted, a[..i])
    {
      ghost var before := sorted;
      sorted := Insert(a[i], sorted);
      assert a[..i + 1] == a[..i] + [a[i]];
      forall k: nat ensures CountGe(sorted, k) == CountGe(a[..i + 1], k) { InsertCounts(a[i], before, k); }
    }
  }
}
