/** The ring of src/kernel/lfu_ring.c as its two ends use it: an array of slots, two free-running 64-bit counters and
    a mask.  What the producer publishes comes out in order, however often the counters wrap. */
module RingBuffer {
  import opened Bits
  import opened Records
  import opened Ring

  // ------------------------------------------------------------------
  // Slots

  lemma SlotsDiffer(c: Config, i: nat, j: nat)
    requires c.recs > 0 && i < j < i + c.recs
    ensures SlotIndex(c, i) != SlotIndex(c, j)
  {
    ModDistinct(i, j, c.recs);
  }

  /** Short of the wrap point, consecutive counters are consecutive slots. */
  lemma SlotsRun(c: Config, x: nat, k: nat)
    requires c.recs > 0 && SlotIndex(c, x) + k < c.recs
    ensures SlotIndex(c, x + k) == SlotIndex(c, x) + k
  {
    ModStep(x, k, c.recs);
  }

  /** The records between two counters. */
  function Live(c: Config, bs: seq<WireRec>, tail: nat, head: nat): (r: seq<WireRec>)
    requires |bs| == c.recs > 0 && tail <= head
    ensures |r| == head - tail
    decreases head
  {
    if tail == head then [] else Live(c, bs, tail, head - 1) + [bs[SlotIndex(c, head - 1)]]
  }

  lemma {:induction false} LiveAt(c: Config, bs: seq<WireRec>, tail: nat, head: nat, i: nat)
    requires |bs| == c.recs > 0 && tail <= head && i < head - tail
    ensures Live(c, bs, tail, head)[i] == bs[SlotIndex(c, tail + i)]
    decreases head
  {
    if i < head - 1 - tail {
      LiveAt(c, bs, tail, head - 1, i);
    }
  }

  /** Filling the slot at head, wrapped or not, touches no live record while the ring is not full. */
  lemma {:induction false} FillKeepsLive(c: Config, bs: seq<WireRec>, tail: nat, h: nat, head: nat, rec: WireRec)
    requires |bs| == c.recs > 0 && tail <= h <= head < tail + |bs|
    ensures Live(c, bs[SlotIndex(c, head) := rec], tail, h) == Live(c, bs, tail, h)
    decreases h
  {
    if tail < h {
      FillKeepsLive(c, bs, tail, h - 1, head, rec);
      SlotsDiffer(c, h - 1, head);
    }
  }

  lemma Published(c: Config, bs: seq<WireRec>, tail: nat, head: nat, rec: WireRec)
    requires |bs| == c.recs > 0 && tail <= head < tail + |bs|
    ensures Live(c, bs[SlotIndex(c, head) := rec], tail, head + 1) == Live(c, bs, tail, head) + [rec]
  {
    FillKeepsLive(c, bs, tail, head, head, rec);
  }

  /** Up to the wrap point the live records lie in the array one after the other. */
  lemma Contiguous(c: Config, bs: seq<WireRec>, tail: nat, head: nat, run: nat)
    requires |bs| == c.recs > 0 && tail <= head && run <= head - tail && SlotIndex(c, tail) + run <= |bs|
    ensures var idx := SlotIndex(c, tail); Live(c, bs, tail, head)[..run] == bs[idx..idx + run]
  {
    var idx := SlotIndex(c, tail);
    var live := Live(c, bs, tail, head);
    forall i | 0 <= i < run
      ensures live[i] == bs[idx + i]
    {
      LiveAt(c, bs, tail, head, i);
      SlotsRun(c, tail, i);
    }
  }

  lemma LiveSuffix(c: Config, bs: seq<WireRec>, tail: nat, head: nat, run: nat)
    requires |bs| == c.recs > 0 && tail <= head && run <= head - tail
    ensures Live(c, bs, tail + run, head) == Live(c, bs, tail, head)[run..]
  {
    var rest, cut := Live(c, bs, tail + run, head), Live(c, bs, tail, head)[run..];
    forall i | 0 <= i < |rest|
      ensures rest[i] == cut[i]
    {
      LiveAt(c, bs, tail + run, head, i);
      LiveAt(c, bs, tail, head, run + i);
    }
  }

  // ------------------------------------------------------------------
  // The two ends

  function Least(a: nat, b: nat, d: nat): (r: nat)
    ensures r <= a && r <= b && r <= d && (r == a || r == b || r == d)
  {
    if a <= b && a <= d then a else if b <= d then b else d
  }

  class Buffer {
    const c: Config
    const buf: array<WireRec>
    var head: nat
    var tail: nat
    var lastWake: nat

    ghost predicate Valid()
      reads this
    {
      && ValidConfig(c) && buf.Length == c.recs && c.recs > 0
      && tail <= head <= tail + c.recs && lastWake <= head < lastWake + c.batch
    }

    /** The records published and not yet read, oldest first. */
    ghost function Contents(): (s: seq<WireRec>)
      requires Valid()
      reads this, buf
      ensures |s| == head - tail
    {
      Live(c, buf[..], tail, head)
    }

    /** lfu_ring_open, once lfu_ring_init has accepted the parameters. */
    constructor (c: Config, blank: WireRec)
      requires ValidConfig(c)
      ensures Valid() && fresh(buf) && this.c == c && Contents() == []
    {
      this.c := c;
      buf := new WireRec[c.recs](_ => blank);
      head, tail, lastWake := 0, 0, 0;
    }

    /** lfu_ring_avail, in 64-bit arithmetic. */
    method Avail() returns (n: nat)
      requires Valid()
      ensures n == |Contents()|
    {
      WrapHarmless(c, tail, head);
      return (head % TWO64 - tail % TWO64) % TWO64;
    }

    /** lfu_ring_free. */
    method Free() returns (n: nat)
      requires Valid()
      ensures n == c.recs - |Contents()|
    {
      WrapHarmless(c, tail, head);
      return c.recs - (head % TWO64 - tail % TWO64) % TWO64;
    }

    /** x & (ring_recs - 1). */
    method Slot(x: nat) returns (i: nat)
      requires Valid()
      ensures i == SlotIndex(c, x)
    {
      MaskedCounter(x, c.recs);
      return And(x % TWO64, c.recs - 1);
    }

    /** The producer's side once there is room: fill the slot, publish, and say whether a batch is due. */
    method Publish(rec: WireRec) returns (wake: bool)
      requires Valid() && |Contents()| < c.recs
      modifies this`head, this`lastWake, buf
      ensures Valid() && Contents() == old(Contents()) + [rec]
      ensures head == old(head) + 1
      ensures wake <==> old(lastWake) + c.batch == head
      ensures lastWake == if wake then head else old(lastWake)
    {
      var i := Slot(head);
      Published(c, buf[..], tail, head, rec);
      buf[i] := rec;
      assert buf[..] == old(buf[..])[i := rec];
      head := head + 1;
      wake := head - lastWake >= c.batch;
      if wake {
        lastWake := head;
      }
    }

    /** read() once something is available: as much as is wanted, up to the wrap point, and whether the producer may
        be woken. */
    method Read(want: pos) returns (out: seq<WireRec>, wake: bool)
      requires Valid() && |Contents()| > 0
      modifies this`tail
      ensures Valid() && tail == old(tail) + |out|
      ensures out + Contents() == old(Contents())
      ensures |out| == Least(|old(Contents())|, want, c.recs - SlotIndex(c, old(tail))) && |out| > 0
      ensures wake <==> c.recs - |Contents()| >= c.batch
    {
      var avail := Avail();
      var idx := Slot(tail);
      var run := Least(avail, want, c.recs - idx);
      Contiguous(c, buf[..], tail, head, run);
      LiveSuffix(c, buf[..], tail, head, run);
      out := buf[idx..idx + run];
      tail := tail + run;
      var free := Free();
      wake := free >= c.batch;
    }

    /** Reading on until nothing is left gives everything that was there, in order. */
    method Drain(want: pos) returns (out: seq<WireRec>)
      requires Valid()
      modifies this`tail
      ensures Valid() && Contents() == [] && out == old(Contents())
    {
      out := [];
      while tail < head
        invariant Valid() && out + Contents() == old(Contents())
        decreases head - tail
      {
        var more, _ := Read(want);
        out := out + more;
      }
    }
  }
}
