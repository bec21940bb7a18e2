/**
 The ring buffer of src/fifobuf.h: as one context uses it, and as a producer and a consumer use it
 at the same time, their single reads and writes interleaved in any way.
 */
module Fifo {

  type Byte = bv8

  /** `head` and `tail` are offsets into `mem`; one slot always stays free. */
  datatype Ring = Ring(mem: seq<Byte>, head: nat, tail: nat)

  predicate Good(r: Ring) { |r.mem| >= 2 && r.head < |r.mem| && r.tail < |r.mem| }

  function Next(r: Ring, i: nat): nat { if i == |r.mem| - 1 then 0 else i + 1 }

  /** The bytes from head to tail, around the end of the buffer. */
  function Contents(r: Ring): seq<Byte>
    requires Good(r)
  {
    if r.head <= r.tail then r.mem[r.head..r.tail] else r.mem[r.head..] + r.mem[..r.tail]
  }

  predicate IsEmpty(r: Ring) { r.head == r.tail }

  predicate IsFull(r: Ring) { (r.head == 0 && r.tail == |r.mem| - 1) || r.tail == r.head - 1 }

  /** Full means that all slots but one are taken, and that is as many as ever are. */
  lemma FullIs(r: Ring)
    requires Good(r)
    ensures IsFull(r) <==> |Contents(r)| == |r.mem| - 1
    ensures IsFull(r) <==> Next(r, r.tail) == r.head
    ensures IsEmpty(r) <==> Contents(r) == []
    ensures |Contents(r)| <= |r.mem| - 1
  {
  }

  lemma PushContents(r: Ring, c: Byte)
    requires Good(r) && !IsFull(r)
    ensures var r' := Ring(r.mem[r.tail := c], r.head, Next(r, r.tail)); Good(r') && Contents(r') == Contents(r) + [c]
  {
    var r' := Ring(r.mem[r.tail := c], r.head, Next(r, r.tail));
    if r.head <= r.tail {
      assert r.mem[r.tail := c][r.head..r.tail + 1] == r.mem[r.head..r.tail] + [c];
    } else {
      assert r'.mem[r.head..] == r.mem[r.head..] && r'.mem[..r.tail + 1] == r.mem[..r.tail] + [c];
    }
  }

  lemma PopContents(r: Ring)
    requires Good(r) && !IsEmpty(r)
    ensures var r' := r.(head := Next(r, r.head)); Good(r') && Contents(r) == [r.mem[r.head]] + Contents(r')
  {
  }

  /** A write at the tail does not touch the contents. */
  lemma WriteContents(r: Ring, c: Byte)
    requires Good(r)
    ensures Contents(r.(mem := r.mem[r.tail := c])) == Contents(r)
  {
  }

  // ----- one context -----

  class Buffer {
    var head: nat
    var tail: nat
    const begin: nat := 0
    const end: nat
    const mem: array<Byte>

    ghost predicate Valid()
      reads this
    {
      mem.Length == end + 1 >= 2 && begin <= head <= end && begin <= tail <= end
    }

    ghost function Value(): (r: Ring)
      reads this, mem
      requires Valid()
      ensures Good(r)
    {
      Ring(mem[..], head, tail)
    }

    /** fifo_init, on a buffer of two bytes or more. */
    constructor (size: nat)
      requires size > 1
      ensures Valid() && Contents(Value()) == [] && mem.Length == size && fresh(mem)
    {
      mem := new Byte[size];
      head, tail, end := 0, 0, size - 1;
    }

    predicate Empty()
      reads this
    {
      head == tail
    }

    predicate Full()
      reads this
    {
      (head == begin && tail == end) || tail == head - 1
    }

    /** fifo_push */
    method Push(c: Byte)
      requires Valid() && !Full()
      modifies this`tail, mem
      ensures Valid() && Contents(Value()) == old(Contents(Value())) + [c]
    {
      PushContents(Value(), c);
      mem[tail] := c;
      if tail == end {
        tail := begin;
      } else {
        tail := tail + 1;
      }
    }

    /** fifo_pop */
    method Pop() returns (c: Byte)
      requires Valid() && !Empty()
      modifies this`head
      ensures Valid() && old(Contents(Value())) == [c] + Contents(Value())
    {
      PopContents(Value());
      if head == end {
        head := begin;
        return mem[end];
      } else {
        c := mem[head];
        head := head + 1;
      }
    }

    /** fifo_flush */
    method Flush()
      requires Valid()
      modifies this`head
      ensures Valid() && Contents(Value()) == []
    {
      head := tail;
    }

    /** fifo_len, which tells the capacity and not how many bytes are held. */
    method Len() returns (n: nat)
      requires Valid()
      ensures n == mem.Length - 1 && n >= |Contents(Value())| && (n == |Contents(Value())| <==> Full())
    {
      FullIs(Value());
      n := end - begin;
    }
  }

  // ----- a producer and a consumer -----

  /**
   Where the producer is: nowhere, half through fifo_isfull, told that there is room, or in
   fifo_push between the write of the byte and the move of the tail.
   */
  datatype Producer = Away | Halfway | Room | Written(c: Byte)

  /**
   Where the consumer is: nowhere, told that there is data, or in fifo_pop with the head moved and
   the slot not yet read, or with the slot read and the head not yet moved.
   */
  datatype Consumer = Off | Data | Moved(slot: nat) | Taken(c: Byte)

  /** `pushed` and `popped` are all bytes ever pushed, and all ever returned by a pop. */
  datatype Shared = Shared(ring: Ring, p: Producer, c: Consumer, pushed: seq<Byte>, popped: seq<Byte>)

  /** One read or write of one context; one that its context cannot take now does nothing. */
  datatype Step = CheckHead | CheckTail | Write(c: Byte) | MoveTail | CheckEmpty | MoveHead | ReadSlot

  function Advance(s: Shared, step: Step): Shared
    requires Good(s.ring)
  {
    var r := s.ring;
    match step
    // fifo_isfull, its first half: head read and compared with begin, and tail with end
    case CheckHead => if s.p.Away? && !(r.head == 0 && r.tail == |r.mem| - 1) then s.(p := Halfway) else s
    // its second half, with head read again
    case CheckTail => if s.p.Halfway? then s.(p := if r.tail == r.head - 1 then Away else Room) else s
    case Write(c) => if s.p.Room? then s.(ring := r.(mem := r.mem[r.tail := c]), p := Written(c)) else s
    case MoveTail =>
      if s.p.Written? then s.(ring := r.(tail := Next(r, r.tail)), p := Away, pushed := s.pushed + [s.p.c]) else s
    case CheckEmpty => if s.c.Off? && r.head != r.tail then s.(c := Data) else s
    // fifo_pop moves the head before or after it reads the slot
    case MoveHead =>
      if s.c.Data? then s.(ring := r.(head := Next(r, r.head)), c := Moved(r.head))
      else if s.c.Taken? then s.(ring := r.(head := Next(r, r.head)), c := Off, popped := s.popped + [s.c.c])
      else s
    case ReadSlot =>
      if s.c.Data? then s.(c := Taken(r.mem[r.head]))
      else if s.c.Moved? && s.c.slot < |r.mem| then s.(c := Off, popped := s.popped + [r.mem[s.c.slot]])
      else s
  }

  /** A byte whose slot the head has passed but which the consumer has not read yet. */
  function InFlight(s: Shared): seq<Byte> {
    if s.c.Moved? && s.c.slot < |s.ring.mem| then [s.ring.mem[s.c.slot]] else []
  }

  /**
   Every byte pushed has been popped, is in flight, or is in the ring, in that order; what each
   context has found out still holds; and a slot in flight is not the one being written.
   */
  predicate Inv(s: Shared) {
    && Good(s.ring) && s.pushed == s.popped + InFlight(s) + Contents(s.ring)
    && (s.p.Halfway? ==> !(s.ring.head == 0 && s.ring.tail == |s.ring.mem| - 1))
    && (s.p.Room? || s.p.Written? ==> !IsFull(s.ring))
    && (s.p.Written? ==> s.ring.mem[s.ring.tail] == s.p.c)
    && (s.c.Data? || s.c.Taken? ==> !IsEmpty(s.ring))
    && (s.c.Taken? ==> s.ring.mem[s.ring.head] == s.c.c)
    && (s.c.Moved? ==> s.c.slot < |s.ring.mem| && Next(s.ring, s.c.slot) == s.ring.head)
  }

  lemma AdvanceKeeps(s: Shared, step: Step)
    requires Inv(s)
    ensures Inv(Advance(s, step))
  {
    hide Contents;
    FullIs(s.ring);
    match step
    case Write(c) => WriteContents(s.ring, c);
    case MoveTail =>
      if s.p.Written? {
        PushContents(s.ring, s.p.c);
        assert s.ring.mem[s.ring.tail := s.p.c] == s.ring.mem;
      }
    case MoveHead =>
      if !IsEmpty(s.ring) {
        PopContents(s.ring);
        FullIs(s.ring.(head := Next(s.ring, s.ring.head)));
      }
    case _ =>
  }

  function Run(s: Shared, steps: seq<Step>): Shared
    requires Inv(s)
    decreases |steps|
  {
    if steps == [] then s
    else
      AdvanceKeeps(s, steps[0]);
      Run(Advance(s, steps[0]), steps[1..])
  }

  /** fifo_init */
  function Start(mem: seq<Byte>): Shared { Shared(Ring(mem, 0, 0), Away, Off, [], []) }

  /**
   However the two contexts interleave: the bytes popped are the oldest pushed, in order, none
   lost, repeated or overwritten before it is read; no more than size - 1 are held; and once
   fifo_isfull has told the producer "not full", that stays right until it has pushed.
   */
  lemma {:induction false} AnyInterleaving(mem: seq<Byte>, steps: seq<Step>)
    requires |mem| >= 2
    ensures var s := Run(Start(mem), steps);
            && Good(s.ring) && s.popped <= s.pushed && s.pushed == s.popped + InFlight(s) + Contents(s.ring)
            && |Contents(s.ring)| <= |mem| - 1
            && (s.p.Room? || s.p.Written? ==> !IsFull(s.ring))
            && (s.c.Moved? ==> s.c.slot != s.ring.tail || !s.p.Written?)
  {
    hide Contents, Run, InFlight;
    FreshGood(mem);
    RunKeeps(Start(mem), steps);
    var s := Run(Start(mem), steps);
    FullIs(s.ring);
    assert s.pushed == s.popped + (InFlight(s) + Contents(s.ring));
  }

  lemma FreshGood(mem: seq<Byte>)
    requires |mem| >= 2
    ensures Inv(Start(mem))
  {
  }

  lemma {:induction false} RunKeeps(s: Shared, steps: seq<Step>)
    requires Inv(s)
    ensures Inv(Run(s, steps)) && |Run(s, steps).ring.mem| == |s.ring.mem|
    decreases |steps|
  {
    hide Contents, Advance, InFlight;
    if steps != [] {
      AdvanceKeeps(s, steps[0]);
      SameSize(s, steps[0]);
      RunKeeps(Advance(s, steps[0]), steps[1..]);
    }
  }

  lemma SameSize(s: Shared, step: Step)
    requires Inv(s)
    ensures |Advance(s, step).ring.mem| == |s.ring.mem|
  {
  }

  // ----- what a context gets done -----

  predicate OfProducer(step: Step) { step.CheckHead? || step.CheckTail? || step.Write? || step.MoveTail? }

  /** The steps of the one context, or of the other. */
  function Of(producer: bool, steps: seq<Step>): seq<Step> {
    if steps == [] then []
    else (if OfProducer(steps[0]) == producer then [steps[0]] else []) + Of(producer, steps[1..])
  }

  /** What the producer still has to do to push `c`. */
  predicate Pushing(s: Shared, own: seq<Step>, c: Byte) {
    || (own == [CheckHead, CheckTail, Write(c), MoveTail] && s.p.Away? && !IsFull(s.ring))
    || (own == [CheckTail, Write(c), MoveTail] && s.p.Halfway? && !IsFull(s.ring))
    || (own == [Write(c), MoveTail] && s.p.Room?)
    || (own == [MoveTail] && s.p == Written(c))
  }

  lemma PushStep(s: Shared, step: Step, own: seq<Step>, c: Byte)
    requires Inv(s) && Pushing(s, own, c)
    ensures var t := Advance(s, step);
            if !OfProducer(step) then Pushing(t, own, c) && t.pushed == s.pushed
            else step == own[0] ==>
              if |own| > 1 then Pushing(t, own[1..], c) && t.pushed == s.pushed else t.p.Away? && t.pushed == s.pushed + [c]
  {
    hide Contents;
    FullIs(s.ring);
    if step.MoveHead? && !IsEmpty(s.ring) {
      PopContents(s.ring);
      FullIs(s.ring.(head := Next(s.ring, s.ring.head)));
    }
  }

  /** A push on a ring that is not full puts its byte behind the others, whatever the consumer does meanwhile. */
  lemma {:induction false} PushDone(s: Shared, steps: seq<Step>, c: Byte)
    requires Inv(s) && Pushing(s, Of(true, steps), c)
    ensures Run(s, steps).pushed == s.pushed + [c] && Run(s, steps).p.Away?
    decreases |steps|
  {
    hide Advance, Contents, Pushing, InFlight;
    var own := Of(true, steps);
    PushingSome(s, own, c);
    PushStep(s, steps[0], own, c);
    AdvanceKeeps(s, steps[0]);
    var t := Advance(s, steps[0]);
    if OfProducer(steps[0]) && |own| == 1 {
      assert Of(true, steps[1..]) == [];
      ConsumerOnly(t, steps[1..]);
    } else {
      assert Of(true, steps[1..]) == if OfProducer(steps[0]) then own[1..] else own;
      PushDone(t, steps[1..], c);
    }
  }

  lemma PushingSome(s: Shared, own: seq<Step>, c: Byte)
    requires Pushing(s, own, c)
    ensures own != []
  {
  }

  lemma {:induction false} ConsumerOnly(s: Shared, steps: seq<Step>)
    requires Inv(s) && Of(true, steps) == []
    ensures Run(s, steps).pushed == s.pushed && Run(s, steps).p == s.p
    decreases |steps|
  {
    hide Contents;
    if steps != [] {
      AdvanceKeeps(s, steps[0]);
      ConsumerOnly(Advance(s, steps[0]), steps[1..]);
    }
  }

  /** What the consumer still has to do to pop a byte. */
  predicate Popping(s: Shared, own: seq<Step>) {
    || ((own == [CheckEmpty, MoveHead, ReadSlot] || own == [CheckEmpty, ReadSlot, MoveHead]) && s.c.Off? && !IsEmpty(s.ring))
    || ((own == [MoveHead, ReadSlot] || own == [ReadSlot, MoveHead]) && s.c.Data?)
    || (own == [ReadSlot] && s.c.Moved?)
    || (own == [MoveHead] && s.c.Taken?)
  }

  lemma PopStep(s: Shared, step: Step, own: seq<Step>)
    requires Inv(s) && Popping(s, own)
    ensures var t := Advance(s, step);
            && s.pushed <= t.pushed
            && if OfProducer(step) then Popping(t, own) && t.popped == s.popped
               else step == own[0] ==>
                 if |own| > 1 then Popping(t, own[1..]) && t.popped == s.popped else t.c.Off? && |t.popped| == |s.popped| + 1
  {
    hide Contents;
    FullIs(s.ring);
    if step.MoveTail? && s.p.Written? {
      PushContents(s.ring, s.p.c);
      assert s.ring.mem[s.ring.tail := s.p.c] == s.ring.mem;
      FullIs(s.ring.(tail := Next(s.ring, s.ring.tail)));
    }
  }

  /** A pop on a ring that is not empty takes the oldest byte, whatever the producer does meanwhile. */
  lemma {:induction false} PopDone(s: Shared, steps: seq<Step>)
    requires Inv(s) && Popping(s, Of(false, steps))
    ensures |s.popped| < |s.pushed|
    ensures Run(s, steps).popped == s.pushed[..|s.popped| + 1] && Run(s, steps).c.Off?
  {
    hide Contents, Advance, Run;
    PopCounts(s, steps);
    RunKeeps(s, steps);
    FullIs(s.ring);
    var t := Run(s, steps);
    assert t.popped <= t.pushed && s.popped <= s.pushed && s.pushed <= t.pushed;
  }

  lemma {:induction false} PopCounts(s: Shared, steps: seq<Step>)
    requires Inv(s) && Popping(s, Of(false, steps))
    ensures |Run(s, steps).popped| == |s.popped| + 1 && Run(s, steps).c.Off? && s.pushed <= Run(s, steps).pushed
    decreases |steps|
  {
    hide Advance, Contents, Popping, InFlight;
    var own := Of(false, steps);
    PoppingSome(s, own);
    PopStep(s, steps[0], own);
    AdvanceKeeps(s, steps[0]);
    var t := Advance(s, steps[0]);
    if !OfProducer(steps[0]) && |own| == 1 {
      assert Of(false, steps[1..]) == [];
      ProducerOnly(t, steps[1..]);
    } else {
      assert Of(false, steps[1..]) == if OfProducer(steps[0]) then own else own[1..];
      PopCounts(t, steps[1..]);
    }
  }

  lemma PoppingSome(s: Shared, own: seq<Step>)
    requires Popping(s, own)
    ensures own != []
  {
  }

  lemma {:induction false} ProducerOnly(s: Shared, steps: seq<Step>)
    requires Inv(s) && Of(false, steps) == []
    ensures Run(s, steps).popped == s.popped && Run(s, steps).c == s.c && s.pushed <= Run(s, steps).pushed
    decreases |steps|
  {
    hide Contents;
    if steps != [] {
      AdvanceKeeps(s, steps[0]);
      ProducerOnly(Advance(s, steps[0]), steps[1..]);
    }
  }

  /** On a ring that nobody else touches, fifo_isfull and fifo_isempty tell what is so. */
  lemma TestsRight(s: Shared)
    requires Inv(s)
    ensures s.p.Away? ==> (Advance(Advance(s, CheckHead), CheckTail).p.Room? <==> !IsFull(s.ring))
    ensures s.c.Off? ==> (Advance(s, CheckEmpty).c.Data? <==> !IsEmpty(s.ring))
  {
  }
}
