/** Handing committed entries to the application: the Ready/Advance cycle of raft/node.go
    and the trimming in node/node.go. */
module Delivery {
  import opened RaftTypes
  import opened Logs
  import opened SizeLimit
  import opened RaftLogs

  /** What the application is told to do, in order. */
  datatype Item = Install(index: nat) | Apply(entry: Entry)

  datatype Ready = Ready(entries: seq<Entry>, committedEntries: seq<Entry>, snapshot: Option<Snapshot>) {
    /** raft/node.go:120-131; 0 when there is nothing to apply. */
    function AppliedCursor(): nat {
      if committedEntries != [] then committedEntries[|committedEntries| - 1].index
      else if snapshot.Some? then snapshot.value.index
      else 0
    }

    function Items(): seq<Item> {
      (if snapshot.Some? then [Install(snapshot.value.index)] else []) + Applies(committedEntries)
    }
  }

  function Applies(es: seq<Entry>): seq<Item> { seq(|es|, k requires 0 <= k < |es| => Apply(es[k])) }

  /** The state of a node's log between two calls: raft/log.go:37 and the shape of the log. */
  ghost predicate Sound(s: LogState) {
    && Contiguous(s.view.ents, s.view.offset + 1)
    && s.applied <= s.committed
    && s.view.offset <= s.committed <= s.view.LastIndex()
    && (if s.installing then s.applied < s.view.offset else s.view.offset <= s.applied)
  }

  lemma ValidIsSound(l: RaftLog)
    requires l.Valid()
    ensures Sound(l.State())
  {
    if l.unstable.snapshot == None {
      var stable, offset := l.storage.View(), l.unstable.offset;
      JoinContiguous(stable.ents[..offset - 1 - stable.offset], l.unstable.entries, stable.offset + 1);
    }
  }

  /** Everything up to here has been handed out or is covered by the snapshot being installed. */
  function Done(s: LogState): nat { Max(s.applied, s.view.offset) }

  lemma SliceContiguous(l: Log, lo: nat, hi: nat)
    requires Contiguous(l.ents, l.offset + 1) && l.offset < lo <= hi <= l.LastIndex() + 1
    ensures Contiguous(l.Slice(lo, hi), lo)
  {
  }

  /** A batch starts right after what is done and has no gap. */
  ghost predicate Continues(s: LogState, es: seq<Entry>) {
    && Done(s) + |es| <= s.view.LastIndex()
    && es == s.view.Slice(Done(s) + 1, Done(s) + 1 + |es|)
  }

  lemma ContinuesContiguous(s: LogState, es: seq<Entry>)
    requires Sound(s) && Continues(s, es)
    ensures Contiguous(es, Done(s) + 1)
  {
    SliceContiguous(s.view, Done(s) + 1, Done(s) + 1 + |es|);
  }

  /** The next batch continues, stops at the commit index, and is empty only when nothing is left. */
  lemma NextOfRange(size: Entry -> nat, max: nat, s: LogState)
    requires Sound(s)
    ensures Continues(s, NextOf(size, max, s))
    ensures Done(s) + |NextOf(size, max, s)| <= s.committed
    ensures NextOf(size, max, s) == [] <==> Done(s) == s.committed
  {
    hide LimitSize, Contiguous, Continues, Log.Slice;
    if s.committed > Done(s) {
      LimitedSlice(size, s.view, Done(s) + 1, s.committed + 1, max);
      SliceContinues(s, |NextOf(size, max, s)|);
    } else {
      NothingContinues(s);
    }
  }

  lemma SliceContinues(s: LogState, k: nat)
    requires Sound(s) && Done(s) + k <= s.view.LastIndex()
    ensures Continues(s, s.view.Slice(Done(s) + 1, Done(s) + 1 + k))
  {
  }

  lemma LimitedSlice(size: Entry -> nat, l: Log, lo: nat, hi: nat, max: nat)
    requires l.offset < lo < hi <= l.LastIndex() + 1
    ensures var k := |LimitSize(size, l.Slice(lo, hi), max)|;
            1 <= k <= hi - lo && LimitSize(size, l.Slice(lo, hi), max) == l.Slice(lo, lo + k)
  {
    hide LimitSize;
    LimitSizeIsPrefix(size, l.Slice(lo, hi), max);
    PrefixOfSlice(l, lo, hi, |LimitSize(size, l.Slice(lo, hi), max)|);
  }

  lemma PrefixOfSlice(l: Log, lo: nat, hi: nat, k: nat)
    requires l.offset < lo <= hi <= l.LastIndex() + 1 && k <= hi - lo
    ensures l.Slice(lo, hi)[..k] == l.Slice(lo, lo + k)
  {
  }

  lemma NothingContinues(s: LogState)
    requires Sound(s)
    ensures Continues(s, [])
  {
  }

  /** The cursor of a Ready is the last position it hands out. */
  lemma CursorIsLast(s: LogState, rd: Ready)
    requires Sound(s) && Continues(s, rd.committedEntries)
    requires rd.snapshot.Some? == s.installing && (s.installing ==> rd.snapshot.value.index == s.view.offset)
    ensures Done(s) + |rd.committedEntries| == if rd.AppliedCursor() == 0 then s.applied else rd.AppliedCursor()
  {
    ContinuesContiguous(s, rd.committedEntries);
  }

  /** One Ready, saved and confirmed. */
  ghost predicate Cycled(s: LogState, rd: Ready, s': LogState) {
    s' == LogState(s.view, s.committed, Done(s) + |rd.committedEntries|, false)
  }

  /** Saving the unstable part makes storage alone stand for the whole log. */
  lemma SavedIsJoined(stable: Log, entries: seq<Entry>, offset: nat)
    requires stable.offset < offset <= stable.LastIndex() + 1 && Contiguous(entries, offset)
    ensures Follows(stable, entries)
    ensures entries != [] || offset == stable.LastIndex() + 1 ==>
              Saved(stable, entries) == Joined(stable, None, entries, offset)
  {
    if entries != [] { AboveIsSuffix(entries, offset, stable.offset); }
  }

  lemma JoinedAll(stable: Log)
    ensures Joined(stable, None, [], stable.LastIndex() + 1) == stable
  {
    assert stable.ents[..|stable.ents|] + [] == stable.ents;
  }

  // ---------------------------------------------------------------- the cycle

  class Node {
    const log: RaftLog
    var needAdvance: bool
    var prevSnapi: nat

    constructor (log: RaftLog)
      ensures this.log == log && !needAdvance
    {
      this.log := log;
      needAdvance, prevSnapi := false, 0;
    }

    /** `rd` was taken from the log as it still is. */
    ghost predicate Current(rd: Ready)
      reads this, log, log.storage, log.unstable
    {
      && log.Valid()
      && rd.entries == log.unstable.entries
      && rd.snapshot == log.unstable.snapshot
      && (rd.committedEntries == [] || rd.committedEntries == NextOf(log.storage.size, log.maxNextEntsSize, log.State()))
    }

    /** newReady: raft/node.go:769-796. */
    method NewReady(moreEntriesToApply: bool) returns (rd: Ready)
      requires log.Valid() && !needAdvance
      modifies this`needAdvance
      ensures Current(rd) && needAdvance
      ensures rd.committedEntries
              == if moreEntriesToApply then NextOf(log.storage.size, log.maxNextEntsSize, log.State()) else []
    {
      var committed := [];
      if moreEntriesToApply { committed := log.NextEnts(); }
      rd := Ready(log.unstable.entries, committed, log.unstable.snapshot);
      needAdvance := true;
    }

    /** What the application must do before Advance: node/raft.go:1039-1051. Afterwards storage
        alone stands for the whole log, and nothing else has changed. */
    method Save(rd: Ready)
      requires Current(rd)
      requires rd.snapshot.Some? ==> log.storage.snapshot.index < rd.snapshot.value.index
      modifies log.storage
      ensures Current(rd) && log.State() == old(log.State())
      ensures log.storage.View() == log.View()
    {
      hide NextOf, Contiguous, Saved, Follows;
      if rd.snapshot.Some? {
        var _ := log.storage.ApplySnapshot(rd.snapshot.value);
      }
      SavedIsJoined(log.storage.View(), log.unstable.entries, log.unstable.offset);
      log.storage.Append(rd.entries);
    }

    /** raft/node.go:477-508. */
    method Advance(rd: Ready)
      requires Current(rd) && log.storage.View() == log.View()
      modifies this`needAdvance, this`prevSnapi, log, log.unstable
      ensures log.Valid() && !needAdvance
      ensures log.unstable.entries == [] && Cycled(old(log.State()), rd, log.State())
      ensures log.storage.View() == log.View()
    {
      hide NextOf, Contiguous, Continues;
      if rd.snapshot.Some? { prevSnapi := rd.snapshot.value.index; }
      ValidIsSound(log);
      NextOfRange(log.storage.size, log.maxNextEntsSize, log.State());
      NothingContinues(log.State());
      CursorIsLast(log.State(), rd);
      var appliedI := rd.AppliedCursor();
      if appliedI != 0 { log.AppliedTo(appliedI); }
      Stabilise(rd);
      needAdvance := false;
    }

    /** The unstable part gives up what has been saved; the log it stands for does not change. */
    method Stabilise(rd: Ready)
      requires log.Fits() && log.storage.View() == log.View()
      requires rd.entries == log.unstable.entries
      requires log.unstable.snapshot.Some? ==> log.unstable.snapshot.value.index == prevSnapi
      modifies log.unstable
      ensures log.Fits() && log.View() == old(log.View())
      ensures log.unstable.entries == [] && log.unstable.snapshot == None
    {
      if |rd.entries| > 0 {
        var last := rd.entries[|rd.entries| - 1];
        log.unstable.StableTo(last.index, last.term);
      }
      log.unstable.StableSnapTo(prevSnapi);
      JoinedAll(log.storage.View());
    }
  }

  // ---------------------------------------------------------------- every run

  ghost function EntryAt(l: Log, p: nat): Entry
    requires l.offset < p <= l.LastIndex()
  {
    l.ents[p - l.offset - 1]
  }

  /** Both logs have the same entries up to position c, wherever both still have them. */
  ghost predicate SameUpTo(a: Log, b: Log, c: nat) {
    && c <= a.LastIndex() && c <= b.LastIndex()
    && forall p: nat | a.offset < p <= c && b.offset < p :: EntryAt(a, p) == EntryAt(b, p)
  }

  /** What raft itself does between two Readys: append above the commit index, and commit. */
  ghost predicate Grows(s: LogState, s': LogState) {
    && Sound(s')
    && s'.view.offset == s.view.offset && s'.applied == s.applied && s'.installing == s.installing
    && s.committed <= s'.committed && SameUpTo(s.view, s'.view, s.committed)
  }

  /** A newer snapshot replaces the log: raft/log.go:302-306 behind raft/raft.go:1387. */
  ghost predicate Restores(s: LogState, s': LogState) {
    && s.committed < s'.view.offset
    && s' == LogState(Log(s'.view.offset, s'.view.offsetTerm, []), s'.view.offset, s.applied, true)
  }

  /** The application compacts what it has applied. */
  ghost predicate Compacts(s: LogState, s': LogState) {
    && !s.installing
    && s.view.offset <= s'.view.offset <= s.applied <= s.view.LastIndex()
    && s' == s.(view := s.view.Dropped(s'.view.offset))
  }

  ghost predicate Hands(s: LogState, rd: Ready, s': LogState) {
    && Continues(s, rd.committedEntries) && Done(s) + |rd.committedEntries| <= s.committed
    && rd.snapshot.Some? == s.installing && (s.installing ==> rd.snapshot.value.index == s.view.offset)
    && Cycled(s, rd, s')
  }

  ghost predicate Step(s: LogState, out: seq<Item>, s': LogState) {
    || (out == [] && (Grows(s, s') || Restores(s, s') || Compacts(s, s')))
    || exists rd: Ready :: Hands(s, rd, s') && out == rd.Items()
  }

  ghost predicate Run(states: seq<LogState>, outs: seq<seq<Item>>) {
    && |states| == |outs| + 1 && Sound(states[0])
    && forall k | 0 <= k < |outs| :: Step(states[k], outs[k], states[k + 1])
  }

  function Handed(outs: seq<seq<Item>>): seq<Item> {
    if outs == [] then [] else Handed(outs[..|outs| - 1]) + outs[|outs| - 1]
  }

  /** Doing `items` in order takes the application from position `from` to `to`: entries come one
      by one without a gap, and a snapshot only ever jumps forward. */
  predicate InOrder(from: nat, items: seq<Item>, to: nat)
    decreases |items|
  {
    if items == [] then from == to
    else match items[0]
      case Install(i) => from < i && InOrder(i, items[1..], to)
      case Apply(e) => e.index == from + 1 && InOrder(e.index, items[1..], to)
  }

  function Position(item: Item): nat { if item.Install? then item.index else item.entry.index }

  /** What was handed out is what the log has, wherever it still has it. */
  ghost predicate FromLog(items: seq<Item>, s: LogState) {
    forall k | 0 <= k < |items| && items[k].Apply? ::
      && items[k].entry.index <= s.applied
      && (s.view.offset < items[k].entry.index <= s.view.LastIndex() ==>
            items[k].entry == EntryAt(s.view, items[k].entry.index))
  }

  lemma {:induction false} InOrderJoins(from: nat, xs: seq<Item>, mid: nat, ys: seq<Item>, to: nat)
    requires InOrder(from, xs, mid) && InOrder(mid, ys, to)
    ensures InOrder(from, xs + ys, to)
    decreases |xs|
  {
    if xs == [] {
      assert xs + ys == ys;
    } else {
      assert (xs + ys)[1..] == xs[1..] + ys;
      InOrderJoins(Position(xs[0]), xs[1..], mid, ys, to);
    }
  }

  lemma {:induction false} AppliesInOrder(es: seq<Entry>, from: nat)
    requires Contiguous(es, from + 1)
    ensures InOrder(from, Applies(es), from + |es|)
    decreases |es|
  {
    if es != [] {
      assert Applies(es)[1..] == Applies(es[1..]);
      AppliesInOrder(es[1..], from + 1);
    }
  }

  lemma ReadyInOrder(s: LogState, rd: Ready, s': LogState)
    requires Sound(s) && Hands(s, rd, s')
    ensures InOrder(s.applied, rd.Items(), s'.applied)
  {
    var es := rd.committedEntries;
    ContinuesContiguous(s, es);
    AppliesInOrder(es, Done(s));
    if s.installing {
      var first := [Install(s.view.offset)];
      assert InOrder(s.applied, first, Done(s));
      InOrderJoins(s.applied, first, Done(s), Applies(es), s'.applied);
    } else {
      assert rd.Items() == Applies(es);
    }
  }

  lemma StepKeeps(s: LogState, out: seq<Item>, s': LogState, before: seq<Item>)
    requires Sound(s) && Step(s, out, s') && FromLog(before, s)
    ensures Sound(s') && InOrder(s.applied, out, s'.applied) && FromLog(before + out, s')
  {
    if out == [] && (Grows(s, s') || Restores(s, s') || Compacts(s, s')) {
      assert before + out == before;
      QuietStepKeeps(s, s', before);
    } else {
      var rd: Ready :| Hands(s, rd, s') && out == rd.Items();
      ReadyInOrder(s, rd, s');
      HandedIsFromLog(s, rd, s', before);
    }
  }

  lemma QuietStepKeeps(s: LogState, s': LogState, before: seq<Item>)
    requires Sound(s) && FromLog(before, s)
    requires Grows(s, s') || Restores(s, s') || Compacts(s, s')
    ensures Sound(s') && s'.applied == s.applied && FromLog(before, s')
  {
    forall k | 0 <= k < |before| && before[k].Apply?
      && s'.view.offset < before[k].entry.index <= s'.view.LastIndex()
      ensures before[k].entry == EntryAt(s'.view, before[k].entry.index)
    {
      assert before[k].entry.index <= s.applied;
      assert EntryAt(s.view, before[k].entry.index) == before[k].entry;
    }
  }

  lemma HandedIsFromLog(s: LogState, rd: Ready, s': LogState, before: seq<Item>)
    requires Sound(s) && Hands(s, rd, s') && FromLog(before, s)
    ensures FromLog(before + rd.Items(), s')
  {
    ContinuesContiguous(s, rd.committedEntries);
  }

  /** Over every run, the items handed to the application take it step by step from where it
      started to the applied index, and each entry is the one the log holds. */
  lemma {:induction false} HandedOnceInOrder(states: seq<LogState>, outs: seq<seq<Item>>)
    requires Run(states, outs)
    ensures Sound(states[|outs|])
    ensures InOrder(states[0].applied, Handed(outs), states[|outs|].applied)
    ensures FromLog(Handed(outs), states[|outs|])
    decreases |outs|
  {
    if outs != [] {
      var n := |outs| - 1;
      assert Run(states[..n + 1], outs[..n]);
      HandedOnceInOrder(states[..n + 1], outs[..n]);
      var before := Handed(outs[..n]);
      StepKeeps(states[n], outs[n], states[n + 1], before);
      InOrderJoins(states[0].applied, before, states[n].applied, outs[n], states[n + 1].applied);
    }
  }

  /** So no position is handed out twice, and none goes backwards. */
  lemma {:induction false} NeverTwice(from: nat, items: seq<Item>, to: nat, j: nat, k: nat)
    requires InOrder(from, items, to) && j < k < |items|
    ensures from < Position(items[j]) < Position(items[k]) <= to
    decreases |items|
  {
    if j > 0 {
      NeverTwice(Position(items[0]), items[1..], to, j - 1, k - 1);
    } else {
      Ahead(Position(items[0]), items[1..], to, k - 1);
    }
  }

  lemma {:induction false} Ahead(from: nat, items: seq<Item>, to: nat, k: nat)
    requires InOrder(from, items, to) && k < |items|
    ensures from < Position(items[k]) <= to
    decreases |items|
  {
    if k > 0 { Ahead(Position(items[0]), items[1..], to, k - 1); }
    if |items| > 1 { Ahead(Position(items[0]), items[1..], to, |items| - 2); }
  }

  /** And none is left out: each is applied itself, or covered by a snapshot installed over it. */
  lemma {:induction false} NeverSkipped(from: nat, items: seq<Item>, to: nat, p: nat) returns (k: nat)
    requires InOrder(from, items, to) && from < p <= to
    ensures k < |items|
    ensures if items[k].Apply? then items[k].entry.index == p else p <= items[k].index
    ensures forall j | 0 <= j < k :: Position(items[j]) < p
    decreases |items|
  {
    if p <= Position(items[0]) {
      k := 0;
    } else {
      k := NeverSkipped(Position(items[0]), items[1..], to, p);
      k := k + 1;
    }
  }

  // The calls of RaftLog and Node are steps of such a run.

  lemma AppendGrows(s: LogState, es: seq<Entry>)
    requires Sound(s) && Follows(s.view, es) && (es != [] ==> s.committed < es[0].index)
    ensures Grows(s, s.(view := s.view.Appended(es)))
  {
    if es != [] {
      JoinContiguous(s.view.ents[..es[0].index - s.view.offset - 1], es, s.view.offset + 1);
    }
  }

  lemma CommitGrows(s: LogState, c: nat)
    requires Sound(s) && s.committed <= c <= s.view.LastIndex()
    ensures Grows(s, s.(committed := c))
  {
  }

  lemma MergedGrows(s: LogState, index: nat, es: seq<Entry>)
    requires Sound(s) && Contiguous(es, index + 1) && s.view.offset <= index <= s.view.LastIndex()
    requires FindConflict(s.view, es) == 0 || s.committed < FindConflict(s.view, es)
    ensures Grows(s, s.(view := Merged(s.view, index, es)))
  {
    hide SameUpTo;
    var ci := FindConflict(s.view, es);
    ConflictIsFirst(s.view, index, es);
    if ci == 0 { AppendGrows(s, []); } else { AppendGrows(s, es[ci - index - 1..]); }
  }

  lemma MergeGrows(s: LogState, index: nat, es: seq<Entry>, c: nat)
    requires Sound(s) && Contiguous(es, index + 1) && s.view.offset <= index <= s.view.LastIndex()
    requires FindConflict(s.view, es) == 0 || s.committed < FindConflict(s.view, es)
    requires c <= index + |es|
    ensures Grows(s, s.(view := Merged(s.view, index, es), committed := Max(s.committed, c)))
  {
    hide SameUpTo, Merged, FindConflict, Contiguous;
    MergedGrows(s, index, es);
    MergedReaches(s.view, index, es);
    var s1 := s.(view := Merged(s.view, index, es));
    CommitGrows(s1, Max(s.committed, c));
    GrowsTwice(s, s1, s1.(committed := Max(s.committed, c)));
  }

  lemma GrowsTwice(s: LogState, s1: LogState, s2: LogState)
    requires Grows(s, s1) && Grows(s1, s2)
    ensures Grows(s, s2)
  {
    forall p: nat | s.view.offset < p <= s.committed ensures EntryAt(s.view, p) == EntryAt(s2.view, p) {
      assert EntryAt(s.view, p) == EntryAt(s1.view, p);
    }
  }

  lemma AdvanceHands(size: Entry -> nat, max: nat, s: LogState, rd: Ready, s': LogState)
    requires Sound(s) && Cycled(s, rd, s')
    requires rd.committedEntries == [] || rd.committedEntries == NextOf(size, max, s)
    requires rd.snapshot.Some? == s.installing && (s.installing ==> rd.snapshot.value.index == s.view.offset)
    ensures Step(s, rd.Items(), s')
  {
    NextOfRange(size, max, s);
    NothingContinues(s);
    assert Hands(s, rd, s');
  }

  /** MaybeRestore either replaces the log or only grows what is known of it. */
  lemma MaybeRestoreSteps(s: LogState, snap: Snapshot, s': LogState)
    requires Sound(s) && snap.term >= 1
    requires s' == if s.committed < snap.index && !s.view.MatchTerm(snap.index, snap.term)
                     then LogState(Log(snap.index, snap.term, []), snap.index, s.applied, true)
                   else if s.committed < snap.index then s.(committed := snap.index) else s
    ensures Step(s, [], s')
    ensures Restores(s, s') <==> s.committed < snap.index && !s.view.MatchTerm(snap.index, snap.term)
  {
    if s.committed < snap.index && s.view.MatchTerm(snap.index, snap.term) { CommitGrows(s, snap.index); }
  }

  /** Compact is a compaction of what was applied, or changes nothing that can be observed. */
  lemma CompactSteps(s: LogState, i: nat, ok: bool, s': LogState)
    requires Sound(s) && i <= s.applied && (ok && !s.installing ==> s.view.offset < i)
    requires s' == if ok && !s.installing then s.(view := s.view.Dropped(i)) else s
    ensures Step(s, [], s')
    ensures ok && !s.installing ==> Compacts(s, s')
  {
  }

  // ---------------------------------------------------------------- node/node.go:1224-1276

  /** The part of a batch that is applied: nothing across a gap, and nothing a second time. */
  function Trimmed(applied: nat, es: seq<Entry>): seq<Entry> {
    if es == [] || es[0].index > applied + 1 then [] else Above(es, applied)
  }

  function LastOf(es: seq<Entry>): nat { if es == [] then 0 else es[|es| - 1].index }

  /** Where the application stands after a batch: at its last position, unless it is already further
      or the batch starts beyond the next one. */
  function After(applied: nat, es: seq<Entry>): nat {
    if es != [] && es[0].index <= applied + 1 then Max(applied, LastOf(es)) else applied
  }

  lemma TrimmedIs(applied: nat, es: seq<Entry>)
    requires es != [] ==> Contiguous(es, es[0].index)
    ensures Trimmed(applied, es) == if es == [] || es[0].index > applied + 1 || applied + 1 - es[0].index >= |es| then []
                                    else es[applied + 1 - es[0].index..]
  {
    if es != [] { AboveIsSuffix(es, es[0].index, applied); }
  }

  /** Exactly the entries beyond the applied position are applied, if the batch connects. */
  lemma TrimmedReaches(applied: nat, es: seq<Entry>)
    requires es != [] ==> Contiguous(es, es[0].index)
    ensures var done := Trimmed(applied, es);
            applied + |done| == After(applied, es) && |done| <= |es| && done == es[|es| - |done|..]
  {
    hide Trimmed;
    TrimmedIs(applied, es);
  }

  class Progress {
    var appliedi: nat
    var appliedt: nat

    /** `done` lists the entries given to the state machine, in order. */
    method ApplyEntries(es: seq<Entry>) returns (done: seq<Entry>)
      requires es != [] ==> Contiguous(es, es[0].index)
      modifies this
      ensures done == Trimmed(old(appliedi), es)
      ensures appliedi == After(old(appliedi), es) == old(appliedi) + |done|
      ensures |done| <= |es| && done == es[|es| - |done|..]
      ensures appliedt == if done == [] then old(appliedt) else done[|done| - 1].term
    {
      hide Trimmed, Above, After;
      TrimmedReaches(appliedi, es);
      TrimmedIs(appliedi, es);
      done := [];
      if |es| == 0 { return; }
      var firsti := es[0].index;
      if firsti > appliedi + 1 { return; }
      var ents: seq<Entry> := [];
      if appliedi + 1 - firsti < |es| { ents := es[appliedi + 1 - firsti..]; }
      if |ents| == 0 { return; }
      assert Contiguous(ents, appliedi + 1);
      for i := 0 to |ents|
        invariant done == ents[..i] && appliedi == old(appliedi) + i
        invariant appliedt == if i == 0 then old(appliedt) else ents[i - 1].term
      {
        done := done + [ents[i]];
        appliedi, appliedt := ents[i].index, ents[i].term;
      }
      assert done == ents;
    }

    /** The apply loop: one batch after the other. */
    method ApplyAll(batches: seq<seq<Entry>>) returns (done: seq<Entry>)
      requires forall b | 0 <= b < |batches| :: batches[b] != [] ==> Contiguous(batches[b], batches[b][0].index)
      modifies this
      ensures done == AppliedBy(old(appliedi), batches) && appliedi == AfterAll(old(appliedi), batches)
    {
      hide Trimmed, Contiguous, After;
      done := [];
      for b := 0 to |batches|
        invariant AppliedBy(old(appliedi), batches) == done + AppliedBy(appliedi, batches[b..])
        invariant AfterAll(old(appliedi), batches) == AfterAll(appliedi, batches[b..])
      {
        assert batches[b..][1..] == batches[b + 1..];
        var more := ApplyEntries(batches[b]);
        done := done + more;
      }
    }
  }

  /** Everything applied from a series of batches. */
  function AppliedBy(applied: nat, batches: seq<seq<Entry>>): seq<Entry>
    decreases |batches|
  {
    if batches == [] then []
    else
      var done := Trimmed(applied, batches[0]);
      done + AppliedBy(applied + |done|, batches[1..])
  }

  function AfterAll(applied: nat, batches: seq<seq<Entry>>): nat
    decreases |batches|
  {
    if batches == [] then applied else AfterAll(After(applied, batches[0]), batches[1..])
  }

  /** The batch is a stretch of the log. */
  ghost predicate Stretch(log: seq<Entry>, es: seq<Entry>) {
    es != [] ==> 1 <= es[0].index && es[0].index - 1 + |es| <= |log| && es == log[es[0].index - 1..es[0].index - 1 + |es|]
  }

  /** However the batches overlap, repeat or fail to connect, each entry of the log between the old
      and the new position is applied once, in order, and nothing else is. */
  lemma {:induction false} AppliedOnceInOrder(log: seq<Entry>, applied: nat, batches: seq<seq<Entry>>)
    requires Contiguous(log, 1) && applied <= |log|
    requires forall b | 0 <= b < |batches| :: Stretch(log, batches[b])
    ensures applied <= AfterAll(applied, batches) <= |log|
    ensures AppliedBy(applied, batches) == log[applied..AfterAll(applied, batches)]
    decreases |batches|
  {
    hide Contiguous, Stretch, Trimmed, After;
    if batches != [] {
      TrimmedStretch(log, applied, batches[0]);
      var next := After(applied, batches[0]);
      AppliedOnceInOrder(log, next, batches[1..]);
      var end := AfterAll(next, batches[1..]);
      assert log[applied..next] + log[next..end] == log[applied..end];
    }
  }

  lemma TrimmedStretch(log: seq<Entry>, applied: nat, es: seq<Entry>)
    requires Contiguous(log, 1) && applied <= |log| && Stretch(log, es)
    ensures applied <= After(applied, es) <= |log|
    ensures Trimmed(applied, es) == log[applied..After(applied, es)]
    ensures applied + |Trimmed(applied, es)| == After(applied, es)
  {
    hide Trimmed, After;
    assert es != [] ==> Contiguous(es, es[0].index);
    TrimmedIs(applied, es);
    TrimmedReaches(applied, es);
  }

  /** Each batch starts at most one past the position reached so far. */
  predicate Connects(applied: nat, batches: seq<seq<Entry>>)
    decreases |batches|
  {
    batches != [] ==>
      && (batches[0] != [] ==> batches[0][0].index <= applied + 1)
      && Connects(Max(applied, LastOf(batches[0])), batches[1..])
  }

  /** If the batches connect, the application gets to the end of the furthest one. */
  lemma {:induction false} ConnectedReachesAll(applied: nat, batches: seq<seq<Entry>>)
    requires Connects(applied, batches)
    ensures var end := AfterAll(applied, batches);
            && applied <= end && (forall b | 0 <= b < |batches| :: LastOf(batches[b]) <= end)
            && (end == applied || exists b :: 0 <= b < |batches| && LastOf(batches[b]) == end)
    decreases |batches|
  {
    if batches != [] {
      var next, rest := Max(applied, LastOf(batches[0])), batches[1..];
      ConnectedReachesAll(next, rest);
      var end := AfterAll(applied, batches);
      forall b | 0 <= b < |batches| ensures LastOf(batches[b]) <= end {
        if b > 0 { assert batches[b] == rest[b - 1]; }
      }
      if end != next {
        var b :| 0 <= b < |rest| && LastOf(rest[b]) == end;
        assert LastOf(batches[b + 1]) == end;
      }
    }
  }
}
