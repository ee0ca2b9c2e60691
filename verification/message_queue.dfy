/** The double-buffered inbox of a node: raft/message_queue.go. */
module MessageQueues {
  import opened RaftTypes

  datatype Message = Message(header: string, entries: seq<Entry>)

  class MessageQueue {
    const size: nat
    const lazyFreeCycle: nat
    const left: array<Message>
    const right: array<Message>
    var snapshot: seq<Message>
    var leftInWrite: bool
    var stopped: bool
    var idx: nat
    var oldIdx: nat
    var cycle: nat

    // History: what was accepted and what was handed out since the start, and the part of the
    // last batch that lies in the buffer not written to.
    ghost var accepted: seq<Message>
    ghost var taken: seq<Message>
    ghost var acceptedSnaps: seq<Message>
    ghost var takenSnaps: seq<Message>
    ghost var lent: seq<Message>

    function Target(): array<Message>
      reads this
    {
      if leftInWrite then left else right
    }

    ghost function Idle(): array<Message>
      reads this
    {
      if leftInWrite then right else left
    }

    /** Nothing accepted is lost, repeated or reordered, and the batch handed out last is intact. */
    ghost predicate Valid()
      reads this, left, right
    {
      && left != right && left.Length == size && right.Length == size
      && idx <= size && oldIdx <= size
      && accepted == taken + Target()[..idx]
      && acceptedSnaps == takenSnaps + snapshot
      && Idle()[..oldIdx] == lent
    }

    constructor (size: nat, lazyFreeCycle: nat)
      ensures Valid() && fresh(left) && fresh(right) && this.size == size
      ensures accepted == [] && acceptedSnaps == [] && !stopped
    {
      this.size, this.lazyFreeCycle := size, lazyFreeCycle;
      left := new Message[size](_ => Message("", []));
      right := new Message[size](_ => Message("", []));
      snapshot, leftInWrite, stopped, idx, oldIdx, cycle := [], false, false, 0, 0, 0;
      accepted, taken, acceptedSnaps, takenSnaps, lent := [], [], [], [], [];
    }

    method Close()
      requires Valid()
      modifies this`stopped
      ensures Valid() && stopped
    {
      stopped := true;
    }

    /** Refuses when full or stopped; the second result says whether the queue is stopped. */
    method Add(msg: Message) returns (added: bool, stop: bool)
      requires Valid()
      modifies this`idx, this`accepted, left, right
      ensures Valid() && added == (old(idx) < size && !stopped) && stop == stopped
      ensures accepted == old(accepted) + if added then [msg] else []
    {
      if idx >= size { return false, stopped; }
      if stopped { return false, true; }
      var w := Target();
      w[idx] := msg;
      idx := idx + 1;
      accepted := accepted + [msg];
      assert w[..idx] == old(w[..idx]) + [msg];
      return true, false;
    }

    method AddSnapshot(msg: Message) returns (added: bool)
      requires Valid()
      modifies this`snapshot, this`acceptedSnaps
      ensures Valid() && added == !stopped
      ensures acceptedSnaps == old(acceptedSnaps) + if added then [msg] else []
    {
      if stopped { return false; }
      snapshot := snapshot + [msg];
      acceptedSnaps := acceptedSnaps + [msg];
      added := true;
    }

    /** Forgets old payloads in the buffer that is written next. */
    method Gc()
      requires left != right && left.Length == size && right.Length == size && oldIdx <= size
      modifies Target()
    {
      if lazyFreeCycle > 0 {
        var oldq := Target();
        if lazyFreeCycle == 1 {
          for i := 0 to oldIdx { oldq[i] := oldq[i].(entries := []); }
        } else if cycle % lazyFreeCycle == 0 {
          for i := 0 to size { oldq[i] := oldq[i].(entries := []); }
        }
      }
    }

    /** Hands out everything accepted and not yet taken: snapshots first, then the other
        messages, each in arrival order. */
    method Get() returns (batch: seq<Message>)
      requires Valid()
      modifies this, left, right
      ensures Valid() && accepted == old(accepted) && acceptedSnaps == old(acceptedSnaps) && stopped == old(stopped)
      ensures taken == accepted && takenSnaps == acceptedSnaps
      ensures batch == acceptedSnaps[|old(takenSnaps)|..] + accepted[|old(taken)|..]
      ensures lent == accepted[|old(taken)|..]
    {
      cycle := cycle + 1;
      var sz := idx;
      idx := 0;
      var t := Target();
      leftInWrite := !leftInWrite;
      Gc();
      oldIdx := sz;
      var ssm := snapshot;
      snapshot := [];
      batch := ssm + t[..sz];
      lent := t[..sz];
      taken, takenSnaps := accepted, acceptedSnaps;
    }
  }
}
