/** The log of one node as it is stored: raft/storage.go (MemoryStorage), raft/log_unstable.go
    and raft/log.go. Each class stands for one value of type `Logs.Log`, and its methods are
    specified on that value. A panic of the source is a precondition here. */
module RaftLogs {
  import opened RaftTypes
  import opened Logs
  import opened SizeLimit

  datatype Error = Compacted | Unavailable | SnapOutOfDate
  datatype Result<T> = Ok(value: T) | Err(error: Error)
  datatype Option<T> = None | Some(value: T)
  datatype Snapshot = Snapshot(index: nat, term: nat, data: string)

  /** The entries of `es` at positions after `i`. */
  function Above(es: seq<Entry>, i: nat): seq<Entry> {
    if es == [] || es[0].index > i then es else Above(es[1..], i)
  }

  lemma {:induction false} AboveIsSuffix(es: seq<Entry>, from: nat, i: nat)
    requires Contiguous(es, from)
    ensures Above(es, i) == if i < from then es else if i - from + 1 <= |es| then es[i - from + 1..] else []
    decreases |es|
  {
    if es != [] && es[0].index <= i { AboveIsSuffix(es[1..], from + 1, i); }
  }

  lemma JoinContiguous(a: seq<Entry>, b: seq<Entry>, from: nat)
    requires Contiguous(a, from) && Contiguous(b, from + |a|)
    ensures Contiguous(a + b, from)
  {
  }

  /** Entries a log can take over: contiguous, and without a gap after its last one. */
  predicate Follows(l: Log, es: seq<Entry>) {
    es != [] ==> Contiguous(es, es[0].index) && es[0].index <= l.LastIndex() + 1
  }

  /** The log once `es` is saved: what was compacted away stays compacted. */
  function Saved(l: Log, es: seq<Entry>): Log
    requires Follows(l, es)
  {
    if es == [] then l
    else
      AboveIsSuffix(es, es[0].index, l.offset);
      l.Appended(Above(es, l.offset))
  }

  // ---------------------------------------------------------------- raft/storage.go:91-330

  /** `ents[0]` is a dummy that carries the position and term of the last compacted entry. */
  class MemoryStorage {
    const size: Entry -> nat
    var snapshot: Snapshot
    var ents: seq<Entry>

    ghost predicate Valid()
      reads this
    {
      |ents| >= 1 && Contiguous(ents[1..], ents[0].index + 1)
    }

    ghost function View(): Log
      requires Valid()
      reads this
    {
      Log(ents[0].index, ents[0].term, ents[1..])
    }

    constructor (size: Entry -> nat)
      ensures Valid() && View() == Log(0, 0, []) && snapshot == Snapshot(0, 0, "") && this.size == size
    {
      this.size := size;
      snapshot := Snapshot(0, 0, "");
      ents := [Entry(0, 0, "")];
    }

    function FirstIndex(): (r: nat)
      requires Valid()
      reads this
      ensures r == View().FirstIndex()
    {
      ents[0].index + 1
    }

    function LastIndex(): (r: nat)
      requires Valid()
      reads this
      ensures r == View().LastIndex()
    {
      ents[0].index + |ents| - 1
    }

    function Term(i: nat): (r: Result<nat>)
      requires Valid()
      reads this
      ensures r == if i < View().offset then Err(Compacted)
                   else if i > View().LastIndex() then Err(Unavailable)
                   else Ok(View().Term(i))
    {
      if i < ents[0].index then Err(Compacted)
      else if i - ents[0].index >= |ents| then Err(Unavailable)
      else Ok(ents[i - ents[0].index].term)
    }

    method Entries(lo: nat, hi: nat, max: nat) returns (r: Result<seq<Entry>>)
      requires Valid()
      requires View().offset < lo ==> lo <= hi <= View().LastIndex() + 1
      ensures r == if lo <= View().offset then Err(Compacted)
                   else if View().ents == [] then Err(Unavailable)
                   else Ok(LimitSize(size, View().Slice(lo, hi), max))
    {
      var offset := ents[0].index;
      if lo <= offset { return Err(Compacted); }
      if |ents| == 1 { return Err(Unavailable); }
      var es := ents[lo - offset..hi - offset];
      assert es == ents[1..][lo - offset - 1..hi - offset - 1];
      es := Limit(size, es, max);
      r := Ok(es);
    }

    method ApplySnapshot(snap: Snapshot) returns (ok: bool)
      requires Valid()
      modifies this
      ensures Valid() && ok == (old(snapshot).index < snap.index)
      ensures View() == if ok then Log(snap.index, snap.term, []) else old(View())
      ensures snapshot == if ok then snap else old(snapshot)
    {
      if snapshot.index >= snap.index { return false; }
      snapshot := snap;
      ents := [Entry(snap.index, snap.term, "")];
      ok := true;
    }

    method CreateSnapshot(i: nat, data: string) returns (r: Result<Snapshot>)
      requires Valid()
      requires snapshot.index < i ==> View().offset <= i <= View().LastIndex()
      modifies this
      ensures Valid() && View() == old(View())
      ensures r == if i <= old(snapshot).index then Err(SnapOutOfDate)
                   else Ok(Snapshot(i, View().Term(i), data))
      ensures snapshot == if r.Ok? then r.value else old(snapshot)
    {
      if i <= snapshot.index { return Err(SnapOutOfDate); }
      snapshot := Snapshot(i, ents[i - ents[0].index].term, data);
      r := Ok(snapshot);
    }

    method Compact(i: nat) returns (ok: bool)
      requires Valid() && i <= View().LastIndex()
      modifies this`ents
      ensures Valid() && ok == (old(View()).offset < i)
      ensures View() == if ok then old(View()).Dropped(i) else old(View())
    {
      if i <= ents[0].index { return false; }
      var k := i - ents[0].index;
      ents := [Entry(ents[k].index, ents[k].term, "")] + ents[k + 1..];
      ok := true;
    }

    method Append(entries: seq<Entry>)
      requires Valid() && Follows(View(), entries)
      modifies this`ents
      ensures Valid() && View() == Saved(old(View()), entries)
    {
      if |entries| == 0 { return; }
      AboveIsSuffix(entries, entries[0].index, ents[0].index);
      var first := FirstIndex();
      var last := entries[0].index + |entries| - 1;
      if last < first { return; }
      var es := entries;
      if first > entries[0].index {
        es := entries[first - entries[0].index..];
      }
      assert es == Above(entries, ents[0].index);
      AppendKept(es);
    }

    /** The switch at the end of the source's Append. */
    method AppendKept(es: seq<Entry>)
      requires Valid() && es != [] && Contiguous(es, es[0].index)
      requires View().offset < es[0].index <= View().LastIndex() + 1
      modifies this`ents
      ensures Valid() && View() == old(View()).Appended(es)
    {
      ghost var was := ents;
      var offset := es[0].index - ents[0].index;
      if |ents| > offset {
        ents := ents[..offset];
        ents := ents + es;
      } else {
        ents := ents + es;
      }
      assert ents[1..] == was[1..][..offset - 1] + es;
      JoinContiguous(was[1..][..offset - 1], es, ents[0].index + 1);
    }
  }

  // ---------------------------------------------------------------- raft/log_unstable.go

  /** What is not in storage yet: an incoming snapshot, if any, and the entries from `offset`. */
  class Unstable {
    var snapshot: Option<Snapshot>
    var entries: seq<Entry>
    var offset: nat

    ghost predicate Valid()
      reads this
    {
      Contiguous(entries, offset) && (snapshot.Some? ==> snapshot.value.index < offset)
    }

    constructor (offset: nat)
      ensures snapshot == None && entries == [] && this.offset == offset
    {
      snapshot, entries := None, [];
      this.offset := offset;
    }

    function MaybeFirstIndex(): Option<nat>
      reads this
    {
      if snapshot.Some? then Some(snapshot.value.index + 1) else None
    }

    function MaybeLastIndex(): Option<nat>
      requires Valid()
      reads this
    {
      if entries != [] then Some(offset + |entries| - 1)
      else if snapshot.Some? then Some(snapshot.value.index)
      else None
    }

    /** An entry answers for its own position, the snapshot for its last one. */
    function MaybeTerm(i: nat): (r: Option<nat>)
      requires Valid()
      reads this
      ensures r.Some? <==> offset <= i < offset + |entries| || (snapshot.Some? && snapshot.value.index == i)
      ensures offset <= i < offset + |entries| ==> r.value == entries[i - offset].term
      ensures snapshot.Some? && snapshot.value.index == i ==> r.value == snapshot.value.term
    {
      if i < offset then
        if snapshot.Some? && snapshot.value.index == i then Some(snapshot.value.term) else None
      else
        var last := MaybeLastIndex();
        if last == None || i > last.value then None else Some(entries[i - offset].term)
    }

    method StableTo(i: nat, t: nat)
      requires Valid()
      modifies this`entries, this`offset
      ensures Valid()
      ensures var hit := old(offset) <= i < old(offset) + |old(entries)| && old(entries)[i - old(offset)].term == t;
              && offset == (if hit then i + 1 else old(offset))
              && entries == (if hit then old(entries)[i + 1 - old(offset)..] else old(entries))
    {
      var gt := MaybeTerm(i);
      if gt == Some(t) && i >= offset {
        entries := entries[i + 1 - offset..];
        offset := i + 1;
      }
    }

    method StableSnapTo(i: nat)
      modifies this`snapshot
      ensures snapshot == if old(snapshot).Some? && old(snapshot).value.index == i then None else old(snapshot)
    {
      if snapshot.Some? && snapshot.value.index == i { snapshot := None; }
    }

    method Restore(s: Snapshot)
      modifies this
      ensures Valid() && snapshot == Some(s) && entries == [] && offset == s.index + 1
    {
      offset, entries, snapshot := s.index + 1, [], Some(s);
    }

    /** All three cases of the source are one: cut at the first new position, then append. */
    method TruncateAndAppend(es: seq<Entry>)
      requires Valid() && es != [] && Contiguous(es, es[0].index) && es[0].index <= offset + |entries|
      requires snapshot.Some? ==> snapshot.value.index < es[0].index
      modifies this`entries, this`offset
      ensures Valid() && offset == Min(old(offset), es[0].index)
      ensures entries == old(entries)[..es[0].index - offset] + es
    {
      var after := es[0].index;
      if after == offset + |entries| {
        entries := entries + es;
      } else if after <= offset {
        offset := after;
        entries := es;
      } else {
        entries := entries[..after - offset];
        entries := entries + es;
      }
    }
  }

  // ---------------------------------------------------------------- raft/log.go

  /** The log a storage and an unstable part stand for together. */
  ghost function Joined(stable: Log, snapshot: Option<Snapshot>, entries: seq<Entry>, offset: nat): Log
    requires snapshot == None ==> stable.offset < offset <= stable.LastIndex() + 1
  {
    if snapshot.Some? then Log(snapshot.value.index, snapshot.value.term, entries)
    else Log(stable.offset, stable.offsetTerm, stable.ents[..offset - 1 - stable.offset] + entries)
  }

  /** Cutting and appending in the unstable part alone is cutting and appending in the whole log. */
  lemma JoinedAppends(stable: Log, snapshot: Option<Snapshot>, entries: seq<Entry>, offset: nat, es: seq<Entry>)
    requires if snapshot.Some? then offset == snapshot.value.index + 1
             else stable.offset < offset <= stable.LastIndex() + 1
    requires es != [] && offset + |entries| >= es[0].index
    requires Joined(stable, snapshot, entries, offset).offset < es[0].index
    ensures var cut := Min(offset, es[0].index);
            && (snapshot == None ==> stable.offset < cut)
            && Joined(stable, snapshot, entries[..es[0].index - cut] + es, cut)
               == Joined(stable, snapshot, entries, offset).Appended(es)
  {
    var after, cut := es[0].index, Min(offset, es[0].index);
    if snapshot == None {
      var kept, base := stable.ents[..offset - 1 - stable.offset], stable.offset + 1;
      assert (kept + entries)[..after - base] == kept[..cut - base] + entries[..after - cut];
      assert kept[..cut - base] == stable.ents[..cut - base];
      assert kept[..cut - base] + (entries[..after - cut] + es) == kept[..cut - base] + entries[..after - cut] + es;
    }
  }

  /** Below `offset` the log is storage; from there on it is the unstable part. */
  lemma JoinedSlices(stable: Log, snapshot: Option<Snapshot>, entries: seq<Entry>, offset: nat, lo: nat, hi: nat)
    requires if snapshot.Some? then offset == snapshot.value.index + 1
             else stable.offset < offset <= stable.LastIndex() + 1
    requires Joined(stable, snapshot, entries, offset).offset < lo <= hi <= offset + |entries|
    ensures hi <= Joined(stable, snapshot, entries, offset).LastIndex() + 1
    ensures lo < offset ==> snapshot == None && stable.offset < lo
    ensures var l := Joined(stable, snapshot, entries, offset);
            l.Slice(lo, hi) == if lo >= offset then entries[lo - offset..hi - offset]
                               else if hi <= offset then stable.Slice(lo, hi)
                               else stable.Slice(lo, offset) + entries[..hi - offset]
  {
    if snapshot == None {
      var base := stable.offset + 1;
      JoinedRange(stable.ents[..offset - base], entries, lo - base, hi - base);
      if lo < offset { PrefixRange(stable.ents, offset - base, lo - base, Min(hi, offset) - base); }
    }
  }

  /** Summing up storage below `offset` sums up the whole log. */
  lemma JoinedDrops(stable: Log, entries: seq<Entry>, offset: nat, i: nat)
    requires stable.offset < offset <= stable.LastIndex() + 1 && stable.offset < i < offset
    ensures var l := Joined(stable, None, entries, offset);
            && i <= l.LastIndex() && stable.Dropped(i).LastIndex() == stable.LastIndex()
            && Joined(stable.Dropped(i), None, entries, offset) == l.Dropped(i)
  {
    var kept, base := stable.ents[..offset - 1 - stable.offset], stable.offset + 1;
    assert (kept + entries)[i - stable.offset..] == kept[i - stable.offset..] + entries;
    assert kept[i - stable.offset..] == stable.ents[i - stable.offset..][..offset - 1 - i];
  }

  lemma JoinedRange(a: seq<Entry>, b: seq<Entry>, lo: nat, hi: nat)
    requires lo <= hi <= |a| + |b|
    ensures (a + b)[lo..hi] == if lo >= |a| then b[lo - |a|..hi - |a|]
                               else if hi <= |a| then a[lo..hi]
                               else a[lo..] + b[..hi - |a|]
  {
  }

  lemma PrefixRange(a: seq<Entry>, k: nat, lo: nat, hi: nat)
    requires lo <= hi <= k <= |a|
    ensures a[..k][lo..hi] == a[lo..hi] && a[..k][lo..] == a[lo..k]
  {
  }

  lemma MergedReaches(l: Log, index: nat, es: seq<Entry>)
    requires Contiguous(es, index + 1) && l.offset <= index <= l.LastIndex()
    ensures index + |es| <= Merged(l, index, es).LastIndex()
  {
    ConflictIsFirst(l, index, es);
    if FindConflict(l, es) == 0 && es != [] { assert es[|es| - 1].index == index + |es|; }
  }

  lemma {:induction false} HeldHasNoConflict(l: Log, es: seq<Entry>)
    requires Holds(l, es, |es|)
    ensures FindConflict(l, es) == 0
  {
    if es != [] {
      assert l.MatchTerm(es[0].index, es[0].term);
      forall x | 0 <= x < |es| - 1 ensures es[1..][x].index <= l.LastIndex() && l.MatchTerm(es[1..][x].index, es[1..][x].term) {
        assert es[1..][x] == es[x + 1];
      }
      HeldHasNoConflict(l, es[1..]);
    }
  }

  /** After a merge the log holds everything that was sent. */
  lemma MergedHolds(l: Log, index: nat, es: seq<Entry>)
    requires Contiguous(es, index + 1) && l.offset <= index <= l.LastIndex()
    ensures Holds(Merged(l, index, es), es, |es|)
  {
    hide FindConflict;
    ConflictIsFirst(l, index, es);
    var ci, l' := FindConflict(l, es), Merged(l, index, es);
    if ci != 0 {
      forall x | 0 <= x < |es| ensures es[x].index <= l'.LastIndex() && l'.MatchTerm(es[x].index, es[x].term) {
        if x >= ci - index - 1 {
          assert l'.ents[es[x].index - l.offset - 1] == es[ci - index - 1..][x - (ci - index - 1)];
        } else {
          assert l.MatchTerm(es[x].index, es[x].term);
        }
      }
    }
  }

  /** Delivering an append again changes nothing, and an append changes the log exactly when
      something in it is not held yet. */
  lemma MergeAgain(l: Log, index: nat, es: seq<Entry>)
    requires Contiguous(es, index + 1) && l.offset <= index <= l.LastIndex()
    ensures var l' := Merged(l, index, es); l'.offset <= index <= l'.LastIndex() && Merged(l', index, es) == l'
    ensures Merged(l, index, es) == l <==> Holds(l, es, |es|)
  {
    MergedHolds(l, index, es);
    MergedReaches(l, index, es);
    HeldHasNoConflict(Merged(l, index, es), es);
    ConflictIsFirst(l, index, es);
    ConflictIsFirst(Merged(l, index, es), index, es);
    if Holds(l, es, |es|) { HeldHasNoConflict(l, es); }
  }

  lemma RestFollows(l: Log, index: nat, es: seq<Entry>)
    requires Contiguous(es, index + 1) && l.offset <= index <= l.LastIndex() && FindConflict(l, es) != 0
    ensures var ci := FindConflict(l, es);
            && index < ci <= index + |es| && Follows(l, es[ci - index - 1..]) && es[ci - index - 1].index == ci
            && Merged(l, index, es) == l.Appended(es[ci - index - 1..])
  {
    hide FindConflict, Holds, Contiguous;
    ConflictIsFirst(l, index, es);
    SuffixContiguous(es, index + 1, FindConflict(l, es) - index - 1);
  }

  lemma SuffixContiguous(es: seq<Entry>, from: nat, k: nat)
    requires Contiguous(es, from) && k < |es|
    ensures Contiguous(es[k..], from + k) && es[k].index == from + k && es[k..][0] == es[k]
  {
  }

  /** What the rest of the node can observe of its log. `installing` holds while a received
      snapshot waits to be handed to the application. */
  datatype LogState = LogState(view: Log, committed: nat, applied: nat, installing: bool)

  class RaftLog {
    const storage: MemoryStorage
    const unstable: Unstable
    const maxNextEntsSize: nat
    var committed: nat
    var applied: nat

    /** Storage and unstable part fit together. */
    ghost predicate Fits()
      reads this, storage, unstable
    {
      && storage.Valid() && unstable.Valid()
      && (if unstable.snapshot.Some? then unstable.offset == unstable.snapshot.value.index + 1
          else storage.View().offset < unstable.offset <= storage.View().LastIndex() + 1)
      && (unstable.snapshot == None && unstable.entries == [] ==> unstable.offset == storage.View().LastIndex() + 1)
    }

    ghost function View(): Log
      requires Fits()
      reads this, storage, unstable
    {
      Joined(storage.View(), unstable.snapshot, unstable.entries, unstable.offset)
    }

    ghost predicate Valid()
      reads this, storage, unstable
    {
      && Fits()
      && applied <= committed && applied < unstable.offset && applied <= storage.View().LastIndex()
      && View().offset <= committed <= View().LastIndex()
      && (unstable.snapshot == None ==> View().offset <= applied)
      && (unstable.snapshot.Some? ==> applied < View().offset)
    }

    ghost function State(): LogState
      requires Fits()
      reads this, storage, unstable
    {
      LogState(View(), committed, applied, unstable.snapshot.Some?)
    }

    constructor (storage: MemoryStorage, maxNextEntsSize: nat)
      requires storage.Valid()
      ensures Valid() && this.storage == storage && this.maxNextEntsSize == maxNextEntsSize && fresh(unstable)
      ensures State() == LogState(storage.View(), storage.View().offset, storage.View().offset, false)
    {
      this.storage := storage;
      this.maxNextEntsSize := maxNextEntsSize;
      unstable := new Unstable(storage.LastIndex() + 1);
      committed := storage.FirstIndex() - 1;
      applied := storage.FirstIndex() - 1;
    }

    function FirstIndex(): (r: nat)
      requires Fits()
      reads this, storage, unstable
      ensures r == View().FirstIndex()
    {
      var i := unstable.MaybeFirstIndex();
      if i.Some? then i.value else storage.FirstIndex()
    }

    function LastIndex(): (r: nat)
      requires Fits()
      reads this, storage, unstable
      ensures r == View().LastIndex()
    {
      var i := unstable.MaybeLastIndex();
      if i.Some? then i.value else storage.LastIndex()
    }

    /** Never an error: what the unstable part does not answer, storage holds. */
    function Term(i: nat): (r: nat)
      requires Fits()
      reads this, storage, unstable
      ensures r == View().Term(i)
    {
      if i < FirstIndex() - 1 || i > LastIndex() then 0
      else
        var t := unstable.MaybeTerm(i);
        if t.Some? then t.value else storage.Term(i).value
    }

    predicate MatchTerm(i: nat, term: nat)
      requires Fits()
      reads this, storage, unstable
    {
      Term(i) == term
    }

    method FindConflict(es: seq<Entry>) returns (ci: nat)
      requires Fits()
      ensures ci == Logs.FindConflict(View(), es)
    {
      for k := 0 to |es|
        invariant Logs.FindConflict(View(), es) == Logs.FindConflict(View(), es[k..])
      {
        if !MatchTerm(es[k].index, es[k].term) { return es[k].index; }
        assert es[k..][1..] == es[k + 1..];
      }
      ci := 0;
    }

    method CommitTo(tocommit: nat)
      requires Valid() && (committed < tocommit ==> tocommit <= View().LastIndex())
      modifies this`committed
      ensures Valid() && State() == old(State()).(committed := Max(old(committed), tocommit))
    {
      if committed < tocommit { committed := tocommit; }
    }

    method Append(es: seq<Entry>) returns (last: nat)
      requires Valid() && Follows(View(), es) && (es != [] ==> committed < es[0].index)
      modifies unstable
      ensures Valid() && State() == old(State()).(view := old(View()).Appended(es))
      ensures last == View().LastIndex()
    {
      if |es| == 0 { return LastIndex(); }
      JoinedAppends(storage.View(), unstable.snapshot, unstable.entries, unstable.offset, es);
      unstable.TruncateAndAppend(es);
      last := LastIndex();
    }

    /** Refuses unless the previous entry matches; otherwise merges and moves the commit index. */
    method MaybeAppend(index: nat, logTerm: nat, commit: nat, es: seq<Entry>) returns (lastnewi: nat, ok: bool)
      requires Valid()
      requires View().MatchTerm(index, logTerm) ==>
                 && Contiguous(es, index + 1) && View().offset <= index <= View().LastIndex()
                 && (Logs.FindConflict(View(), es) == 0 || committed < Logs.FindConflict(View(), es))
      modifies this`committed, unstable
      ensures Valid() && ok == old(View()).MatchTerm(index, logTerm)
      ensures ok ==> lastnewi == index + |es| && State() == old(State()).(
                       view := Merged(old(View()), index, es),
                       committed := Max(old(committed), Min(commit, lastnewi)))
      ensures !ok ==> lastnewi == 0 && State() == old(State())
    {
      hide Contiguous, Logs.FindConflict;
      if !MatchTerm(index, logTerm) { return 0, false; }
      lastnewi := index + |es|;
      var ci := FindConflict(es);
      MergedReaches(View(), index, es);
      if ci != 0 {
        RestFollows(View(), index, es);
        var _ := Append(es[ci - index - 1..]);
      }
      CommitTo(Min(commit, lastnewi));
      ok := true;
    }

    method MaybeCommit(maxIndex: nat, term: nat) returns (moved: bool)
      requires Valid() && term >= 1
      modifies this`committed
      ensures Valid() && moved == (maxIndex > old(committed) && View().Term(maxIndex) == term)
      ensures State() == old(State()).(committed := if moved then maxIndex else old(committed))
    {
      if maxIndex > committed && Term(maxIndex) == term {
        CommitTo(maxIndex);
        return true;
      }
      moved := false;
    }

    method Restore(s: Snapshot)
      requires Valid() && committed < s.index
      modifies this`committed, unstable
      ensures Valid() && State() == LogState(Log(s.index, s.term, []), s.index, old(applied), true)
    {
      committed := s.index;
      unstable.Restore(s);
    }

    /** raft/raft.go:1386-1411, as far as the log is concerned: an old snapshot is ignored, one the log
        already contains only moves the commit index, any other replaces the log. */
    method MaybeRestore(s: Snapshot) returns (restored: bool)
      requires Valid() && s.term >= 1
      modifies this`committed, unstable
      ensures Valid()
      ensures restored == (old(committed) < s.index && !old(View()).MatchTerm(s.index, s.term))
      ensures State() == if restored then LogState(Log(s.index, s.term, []), s.index, old(applied), true)
                         else if old(committed) < s.index then old(State()).(committed := s.index)
                         else old(State())
    {
      if s.index <= committed { return false; }
      if MatchTerm(s.index, s.term) {
        CommitTo(s.index);
        return false;
      }
      Restore(s);
      restored := true;
    }

    /** Compacting storage no further than was applied. What was applied is in storage, so the
        unstable part is not touched, and a snapshot waiting there hides the change. */
    method Compact(i: nat) returns (ok: bool)
      requires Valid() && i <= applied
      modifies storage
      ensures Valid() && ok == (old(storage.View()).offset < i)
      ensures State() == if ok && unstable.snapshot == None then old(State()).(view := old(View()).Dropped(i)) else old(State())
    {
      hide Contiguous;
      if storage.View().offset < i && unstable.snapshot == None {
        JoinedDrops(storage.View(), unstable.entries, unstable.offset, i);
      }
      ok := storage.Compact(i);
    }

    /** The longest affordable prefix of the represented range, wherever storage ends in it. */
    method Slice(lo: nat, hi: nat, max: nat) returns (r: Result<seq<Entry>>)
      requires Fits() && lo <= hi && (View().offset < lo ==> hi <= View().LastIndex() + 1)
      ensures r == if lo <= View().offset then Err(Compacted)
                   else Ok(LimitSize(storage.size, View().Slice(lo, hi), max))
    {
      hide Contiguous, LimitSize, Log.Slice;
      if lo < FirstIndex() { return Err(Compacted); }
      LimitSizeIsPrefix(storage.size, View().Slice(lo, hi), max);
      if lo == hi { return Ok([]); }
      JoinedSlices(storage.View(), unstable.snapshot, unstable.entries, unstable.offset, lo, hi);
      var es := [];
      if lo < unstable.offset {
        var mid := Min(hi, unstable.offset);
        var stored := storage.Entries(lo, mid, max);
        ghost var low := storage.View().Slice(lo, mid);
        LimitSizeIsPrefix(storage.size, low, max);
        if |stored.value| < mid - lo {
          if mid < hi { LimitOfPrefix(storage.size, low, unstable.entries[..hi - mid], max); }
          return stored;
        }
        es := stored.value;
        assert es == low;
      }
      if hi > unstable.offset {
        var from := Max(lo, unstable.offset);
        es := es + unstable.entries[from - unstable.offset..hi - unstable.offset];
      }
      assert es == View().Slice(lo, hi);
      es := Limit(storage.size, es, max);
      r := Ok(es);
    }

    method NextEnts() returns (es: seq<Entry>)
      requires Valid()
      ensures es == NextOf(storage.size, maxNextEntsSize, State())
    {
      hide LimitSize, Contiguous;
      var off := Max(applied + 1, FirstIndex());
      if committed + 1 > off {
        var r := Slice(off, committed + 1, maxNextEntsSize);
        return r.value;
      }
      es := [];
    }

    method AppliedTo(i: nat)
      requires Valid() && (i == 0 || applied <= i <= committed)
      modifies this`applied
      ensures applied == if i == 0 then old(applied) else i
    {
      if i == 0 { return; }
      applied := i;
    }
  }

  /** The next batch to hand out: committed, above both the applied index and the snapshot, cut to size. */
  function NextOf(size: Entry -> nat, max: nat, s: LogState): seq<Entry>
    requires s.committed <= s.view.LastIndex()
  {
    var off := Max(s.applied + 1, s.view.FirstIndex());
    if s.committed + 1 > off then LimitSize(size, s.view.Slice(off, s.committed + 1), max) else []
  }
}
