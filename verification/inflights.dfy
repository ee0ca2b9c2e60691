/** The sliding window of a replicating peer: raft/progress.go:197-289, a ring buffer that
    stands for a bounded first-in-first-out queue. */
module InflightWindow {
  import opened RaftNode

  class Inflights {
    var start: nat
    var count: nat
    const size: nat
    /** Grown on demand up to `size`. */
    var buffer: array<nat>

    ghost predicate Valid()
      reads this
    {
      && count <= size && buffer.Length <= size && (start == 0 || start < size)
      && (buffer.Length < size ==> start + count <= buffer.Length)
      && (count == 0 ==> start == 0)
    }

    /** Where the k-th element of the window lies. */
    function Slot(k: nat): nat
      reads this
    {
      if start + k >= size then start + k - size else start + k
    }

    ghost function Contents(): seq<nat>
      requires Valid()
      reads this, buffer
    {
      seq(count, k requires Valid() && 0 <= k < count reads this, buffer => buffer[Slot(k)])
    }

    constructor (size: nat)
      ensures Valid() && Contents() == [] && this.size == size && fresh(buffer)
    {
      this.size := size;
      start, count := 0, 0;
      buffer := new nat[0];
    }

    predicate Full()
      reads this
    {
      count == size
    }

    method Add(inflight: nat)
      requires Valid() && !Full()
      modifies this, buffer
      ensures Valid() && Contents() == old(Contents()) + [inflight]
      ensures buffer == old(buffer) || fresh(buffer)
    {
      var next := start + count;
      if next >= size { next := next - size; }
      if next >= buffer.Length { GrowBuf(); }
      buffer[next] := inflight;
      count := count + 1;
    }

    /** The window does not move, and there is room behind it. */
    method GrowBuf()
      requires Valid() && buffer.Length < size
      modifies this`buffer
      ensures Valid() && Contents() == old(Contents())
      ensures fresh(buffer) && buffer.Length > old(buffer.Length)
    {
      var newSize := buffer.Length * 2;
      if newSize == 0 {
        newSize := 1;
      } else if newSize > size {
        newSize := size;
      }
      var newBuffer := new nat[newSize];
      forall k | 0 <= k < buffer.Length { newBuffer[k] := buffer[k]; }
      buffer := newBuffer;
    }

    method FreeTo(to: nat)
      requires Valid()
      modifies this`start, this`count
      ensures Valid() && Contents() == RaftNode.FreeTo(old(Contents()), to)
    {
      if count == 0 || to < buffer[start] { return; }
      ghost var was := Contents();
      var i: nat, idx: nat := 0, start;
      while i < count
        invariant 0 <= i <= count && (i < count ==> idx == Slot(i))
        invariant RaftNode.FreeTo(was, to) == RaftNode.FreeTo(was[i..], to)
      {
        assert was[i..][0] == buffer[idx] && was[i..][1..] == was[i + 1..];
        if to < buffer[idx] { break; }
        idx := idx + 1;
        if idx >= size { idx := idx - size; }
        i := i + 1;
      }
      Drop(i, idx);
    }

    /** Frees the first i elements; `idx` is where the next one lies. */
    method Drop(i: nat, idx: nat)
      requires Valid() && i <= count && (i < count ==> idx == Slot(i))
      modifies this`start, this`count
      ensures Valid() && Contents() == old(Contents())[i..]
    {
      ghost var was := Contents();
      count := count - i;
      start := idx;
      if count == 0 { start := 0; }
      assert Contents() == was[i..];
    }

    method FreeFirstOne()
      requires Valid() && count > 0
      modifies this`start, this`count
      ensures Valid() && Contents() == RaftNode.FreeTo(old(Contents()), old(Contents())[0])
    {
      FreeTo(buffer[start]);
    }

    method Reset()
      requires Valid()
      modifies this`start, this`count
      ensures Valid() && Contents() == []
    {
      count, start := 0, 0;
    }
  }

  /** Freeing drops exactly the longest prefix at or below `to`. */
  lemma {:induction false} FreesLongestPrefix(ins: seq<nat>, to: nat) returns (k: nat)
    ensures k <= |ins| && RaftNode.FreeTo(ins, to) == ins[k..]
    ensures forall j | 0 <= j < k :: ins[j] <= to
    ensures k < |ins| ==> to < ins[k]
  {
    if ins == [] || to < ins[0] {
      k := 0;
    } else {
      k := FreesLongestPrefix(ins[1..], to);
      k := k + 1;
    }
  }
}
