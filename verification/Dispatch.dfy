/**
 The dispatching of descriptor events in src/libubox/uloop.c, on values. A callback may run the
 loop again, and may add and delete descriptors, its own among them; a stack of frames keeps
 track of the callbacks under way.
 */
module Dispatch {
  import opened Options

  datatype Events = Events(read: bool, write: bool)

  const NOTHING := Events(false, false)

  function Either(a: Events, b: Events): Events { Events(a.read || b.read, a.write || b.write) }

  datatype Flags = Flags(wants: Events, edge: bool, errorCb: bool)

  /** What the loop knows of a descriptor; `cb` says whether it has a callback. */
  datatype Sock = Sock(registered: bool, flags: Flags, cb: bool)

  /** One fetched event; `dropped` records that the fetch itself deleted the descriptor. */
  datatype Slot<Id> = Slot(fd: Option<Id>, events: Events, dropped: bool)

  /**
   A callback under way. `owner`, `edge` and `intact` are history: whose callback it is, whether
   the descriptor was edge-triggered when it was called, and not deleted since.
   */
  datatype Frame<Id> = Frame(fd: Option<Id>, events: Events, past: Past<Id>)

  datatype Past<Id> = Past(owner: Id, edge: bool, intact: bool)

  /** `queue` is what is left of the events last fetched; `stack` has the innermost callback first. */
  datatype Loop<Id(==)> = Loop(socks: map<Id, Sock>, queue: seq<Slot<Id>>, stack: seq<Frame<Id>>)

  function Get<Id(==)>(l: Loop<Id>, id: Id): Sock {
    if id in l.socks then l.socks[id] else Sock(false, Flags(NOTHING, false, false), true)
  }

  predicate Edge<Id(==)>(l: Loop<Id>, id: Id) { Get(l, id).flags.edge }

  /** uloop_fd_stack_event walks the stack for the first frame of a descriptor. */
  function Find<Id(==)>(stack: seq<Frame<Id>>, id: Id): (k: nat)
    ensures k <= |stack| && (k < |stack| ==> stack[k].fd == Some(id))
    ensures forall i :: 0 <= i < k ==> stack[i].fd != Some(id)
  {
    if stack == [] || stack[0].fd == Some(id) then 0 else 1 + Find(stack[1..], id)
  }

  /** uloop_fd_stack_event with events: they are kept for the frame found. */
  function Buffer<Id(==)>(l: Loop<Id>, id: Id, e: Events): (bool, Loop<Id>) {
    var k := Find(l.stack, id);
    if !Edge(l, id) || k == |l.stack| then (false, l)
    else (true, l.(stack := l.stack[k := l.stack[k].(events := Either(l.stack[k].events, e))]))
  }

  /** uloop_fd_stack_event with -1: the frame found is cut off from its descriptor. */
  function Detach<Id(==)>(l: Loop<Id>, id: Id): Loop<Id> {
    var k := Find(l.stack, id);
    if !Edge(l, id) || k == |l.stack| then l else l.(stack := l.stack[k := l.stack[k].(fd := None)])
  }

  function Cleared<Id(==)>(queue: seq<Slot<Id>>, id: Id): (q: seq<Slot<Id>>)
    ensures |q| == |queue|
    ensures forall i :: 0 <= i < |q| ==> q[i] == if queue[i].fd == Some(id) then queue[i].(fd := None) else queue[i]
  {
    if queue == [] then []
    else [if queue[0].fd == Some(id) then queue[0].(fd := None) else queue[0]] + Cleared(queue[1..], id)
  }

  /** History: every callback of the descriptor under way has seen its deletion. */
  function Broken<Id(==)>(stack: seq<Frame<Id>>, id: Id): (s: seq<Frame<Id>>)
    ensures |s| == |stack|
    ensures forall i :: 0 <= i < |s| ==>
              s[i] == if stack[i].past.owner == id then stack[i].(past := stack[i].past.(intact := false)) else stack[i]
  {
    if stack == [] then []
    else [if stack[0].past.owner == id then stack[0].(past := stack[0].past.(intact := false)) else stack[0]]
         + Broken(stack[1..], id)
  }

  /** uloop_fd_delete */
  function Delete<Id(==)>(l: Loop<Id>, id: Id): Loop<Id> {
    var l1 := l.(queue := Cleared(l.queue, id));
    if !Get(l1, id).registered then l1
    else
      var l2 := Detach(l1, id);
      l2.(socks := l2.socks[id := Sock(false, Flags(NOTHING, false, false), Get(l, id).cb)],
          stack := Broken(l2.stack, id))
  }

  /** uloop_fd_add, where registering with the kernel succeeds. */
  function Add<Id(==)>(l: Loop<Id>, id: Id, flags: Flags): Loop<Id> {
    if flags.wants == NOTHING then Delete(l, id)
    else l.(socks := l.socks[id := Sock(true, flags, Get(l, id).cb)])
  }

  /** What the kernel reports for one descriptor. */
  datatype Raw<Id> = Raw(id: Id, error: bool, hangup: bool, events: Events)

  /** uloop_fetch_events: on an error it deletes a descriptor that did not ask to be told. */
  function Fetch<Id(==)>(l: Loop<Id>, raws: seq<Raw<Id>>): Loop<Id>
    decreases |raws|
  {
    if raws == [] then l
    else
      var r := raws[0];
      var drop := r.error && !Get(l, r.id).flags.errorCb;
      var l1 := if drop then Delete(l.(queue := []), r.id).(queue := l.queue) else l;
      var said := r.error || r.hangup || r.events != NOTHING;
      Fetch(l1.(queue := l1.queue + [Slot(if said then Some(r.id) else None, r.events, drop)]), raws[1..])
  }

  /** A callback is called, for the first time or again. */
  datatype Call<Id> = Call(id: Id, events: Events, dropped: bool)

  /** The loop of uloop_run_events: events are kept or skipped until one is to be delivered. */
  function Deliver<Id(==)>(l: Loop<Id>): (Loop<Id>, Option<Call<Id>>)
    decreases |l.queue|
  {
    if l.queue == [] then (l, None)
    else
      var slot := l.queue[0];
      var l1 := l.(queue := l.queue[1..]);
      if slot.fd.None? || !Get(l1, slot.fd.value).cb then Deliver(l1)
      else
        var id := slot.fd.value;
        var (kept, l2) := Buffer(l1, id, slot.events);
        if kept then
          Deliver(l2)
        else
          (l1.(stack := [Frame(Some(id), NOTHING, Past(id, Edge(l1, id), true))] + l1.stack),
           Some(Call(id, slot.events, slot.dropped)))
  }

  datatype Step<Id> =
    | RunEvents(raws: seq<Raw<Id>>)  // uloop_run_events, with what a fetch would find
    | Return                         // the innermost callback returns
    | AddFd(id: Id, flags: Flags)
    | DeleteFd(id: Id)

  predicate Fetching<Id(==)>(l: Loop<Id>, step: Step<Id>) { step.RunEvents? && l.queue == [] }

  function Advance<Id(==)>(l: Loop<Id>, step: Step<Id>): (Loop<Id>, Option<Call<Id>>) {
    match step
    case RunEvents(raws) => Deliver(if l.queue == [] then Fetch(l, raws) else l)
    case Return =>
      if l.stack == [] then (l, None)
      else
        var f := l.stack[0];
        if f.fd.Some? && f.events != NOTHING then
          (l.(stack := l.stack[0 := f.(events := NOTHING)]), Some(Call(f.fd.value, f.events, false)))
        else (l.(stack := l.stack[1..]), None)
    case AddFd(id, flags) => (Add(l, id, flags), None)
    case DeleteFd(id) => (Delete(l, id), None)
  }

  /** The trigger mode stays as it is while a descriptor is registered; the kernel reports what is registered, once. */
  predicate GoodStep<Id(==)>(l: Loop<Id>, step: Step<Id>) {
    match step
    case AddFd(id, flags) => Get(l, id).registered && flags.wants != NOTHING ==> flags.edge == Edge(l, id)
    case RunEvents(raws) =>
      && (forall k :: 0 <= k < |raws| ==> Get(l, raws[k].id).registered)
      && (forall j, k :: 0 <= j < k < |raws| ==> raws[j].id != raws[k].id)
    case _ => true
  }

  // ----- what every step keeps -----

  /**
   The frame of an edge-triggered callback is cut off exactly when the descriptor is deleted;
   until then the descriptor is registered, edge-triggered, and has no other frame.
   */
  predicate Tracked<Id(==)>(l: Loop<Id>) {
    forall i :: 0 <= i < |l.stack| && l.stack[i].past.edge ==>
      var f := l.stack[i];
      && (f.past.intact <==> f.fd.Some?) && (f.fd.Some? ==> f.fd.value == f.past.owner)
      && (f.past.intact ==> Get(l, f.past.owner).registered && Edge(l, f.past.owner) && Alone(l.stack, i))
  }

  /** No frame but `i` belongs to the descriptor of frame `i`. */
  predicate Alone<Id(==)>(stack: seq<Frame<Id>>, i: nat)
    requires i < |stack|
  {
    forall j :: 0 <= j < |stack| && j != i ==> stack[j].fd != Some(stack[i].past.owner)
  }

  /** Only the innermost frame of a registered, edge-triggered descriptor holds kept events. */
  predicate Kept<Id(==)>(l: Loop<Id>) {
    forall i :: 0 <= i < |l.stack| && l.stack[i].fd.Some? && l.stack[i].events != NOTHING ==>
      var id := l.stack[i].fd.value;
      Get(l, id).registered && Edge(l, id) && Find(l.stack, id) == i
  }

  /** A fetched descriptor is registered, unless the fetch deleted it. */
  predicate Fetched<Id(==)>(l: Loop<Id>) {
    forall i :: 0 <= i < |l.queue| && l.queue[i].fd.Some? ==>
      l.queue[i].dropped || Get(l, l.queue[i].fd.value).registered
  }

  /** Only a registered descriptor is edge-triggered. */
  predicate Modes<Id(==)>(l: Loop<Id>) {
    forall id :: id in l.socks && l.socks[id].flags.edge ==> l.socks[id].registered
  }

  predicate Inv<Id(==)>(l: Loop<Id>) { Tracked(l) && Kept(l) && Fetched(l) && Modes(l) }

  /** Two stacks with the same frames for a descriptor are searched alike. */
  lemma {:induction false} FindSame<Id>(a: seq<Frame<Id>>, b: seq<Frame<Id>>, id: Id)
    requires |a| == |b| && (forall i :: 0 <= i < |a| ==> (a[i].fd == Some(id) <==> b[i].fd == Some(id)))
    ensures Find(a, id) == Find(b, id)
  {
    var i, j := Find(a, id), Find(b, id);
    assert i < |a| ==> b[i].fd == Some(id);
    assert j < |b| ==> a[j].fd == Some(id);
  }

  lemma {:induction false} FindAt<Id>(a: seq<Frame<Id>>, id: Id, i: nat)
    requires i < |a| && a[i].fd == Some(id) && (forall j :: 0 <= j < i ==> a[j].fd != Some(id))
    ensures Find(a, id) == i
  {
  }

  /** What deletion does to the stack, frame by frame. */
  lemma DeleteStack<Id>(l: Loop<Id>, id: Id)
    ensures var l' := Delete(l, id);
            && |l'.stack| == |l.stack| && l'.queue == Cleared(l.queue, id)
            && (forall i :: 0 <= i < |l.stack| ==>
                 && l'.stack[i].events == l.stack[i].events
                 && l'.stack[i].fd == (if Get(l, id).registered && Edge(l, id) && i == Find(l.stack, id) then None else l.stack[i].fd)
                 && l'.stack[i].past == if Get(l, id).registered && l.stack[i].past.owner == id
                                        then l.stack[i].past.(intact := false) else l.stack[i].past)
            && (forall o :: o != id ==> Get(l', o) == Get(l, o))
            && (Get(l, id).registered ==> !Get(l', id).registered && !Edge(l', id))
            && (!Get(l, id).registered ==> Get(l', id) == Get(l, id))
            && Get(l', id).cb == Get(l, id).cb
  {
  }

  lemma {:induction false} DeleteKeeps<Id>(l: Loop<Id>, id: Id)
    requires Inv(l)
    ensures Inv(Delete(l, id))
  {
    hide Delete, Find, Get;
    DeleteStack(l, id);
    var l' := Delete(l, id);
    DeleteTracked(l, id);
    DeleteKept(l, id);
    DeleteModes(l, id);
  }

  lemma DeleteTracked<Id>(l: Loop<Id>, id: Id)
    requires Inv(l)
    ensures Tracked(Delete(l, id))
  {
    hide Delete, Get, Kept, Fetched, Modes;
    DeleteStack(l, id);
    var l' := Delete(l, id);
    forall i | 0 <= i < |l'.stack| && l'.stack[i].past.edge
      ensures var f := l'.stack[i];
        && (f.past.intact <==> f.fd.Some?) && (f.fd.Some? ==> f.fd.value == f.past.owner)
        && (f.past.intact ==> Get(l', f.past.owner).registered && Edge(l', f.past.owner) && Alone(l'.stack, i))
    {
      var f := l.stack[i];
      if f.past.owner == id && f.past.intact {
        FindAt(l.stack, id, i);
      }
    }
  }

  lemma DeleteKept<Id>(l: Loop<Id>, id: Id)
    requires Inv(l)
    ensures Kept(Delete(l, id))
  {
    hide Delete, Get, Tracked, Fetched, Modes;
    DeleteStack(l, id);
    var l' := Delete(l, id);
    forall i | 0 <= i < |l'.stack| && l'.stack[i].fd.Some? && l'.stack[i].events != NOTHING
      ensures var o := l'.stack[i].fd.value; Get(l', o).registered && Edge(l', o) && Find(l'.stack, o) == i
    {
      var o := l'.stack[i].fd.value;
      if o != id {
        FindSame(l.stack, l'.stack, o);
      }
    }
  }

  lemma DeleteModes<Id>(l: Loop<Id>, id: Id)
    requires Modes(l)
    ensures Modes(Delete(l, id))
  {
  }

  lemma AddKeeps<Id>(l: Loop<Id>, id: Id, flags: Flags)
    requires Inv(l) && GoodStep(l, AddFd(id, flags))
    ensures Inv(Add(l, id, flags))
  {
    hide Delete, Find;
    if flags.wants == NOTHING {
      DeleteKeeps(l, id);
    }
  }

  predicate Distinct<Id(==)>(raws: seq<Raw<Id>>) { forall j, k :: 0 <= j < k < |raws| ==> raws[j].id != raws[k].id }

  lemma {:induction false} FetchKeeps<Id>(l: Loop<Id>, raws: seq<Raw<Id>>)
    requires Inv(l) && Distinct(raws) && (forall k :: 0 <= k < |raws| ==> Get(l, raws[k].id).registered)
    requires forall k :: 0 <= k < |raws| ==> forall i :: 0 <= i < |l.queue| ==> l.queue[i].fd != Some(raws[k].id)
    ensures Inv(Fetch(l, raws))
    decreases |raws|
  {
    hide Delete, Find, Get, Tracked, Kept;
    if raws != [] {
      var r := raws[0];
      var drop := r.error && !Get(l, r.id).flags.errorCb;
      QueueOnly(l, []);
      DeleteKeeps(l.(queue := []), r.id);
      DeleteStack(l.(queue := []), r.id);
      var l1 := if drop then Delete(l.(queue := []), r.id).(queue := l.queue) else l;
      QueueOnly(Delete(l.(queue := []), r.id), l.queue);
      var said := r.error || r.hangup || r.events != NOTHING;
      var l2 := l1.(queue := l1.queue + [Slot(if said then Some(r.id) else None, r.events, drop)]);
      QueueOnly(l1, l2.queue);
      forall k | 0 <= k < |raws| - 1
        ensures Get(l2, raws[1..][k].id).registered && (forall i :: 0 <= i < |l2.queue| ==> l2.queue[i].fd != Some(raws[1..][k].id))
      {
        assert raws[1..][k] == raws[k + 1];
      }
      FetchKeeps(l2, raws[1..]);
    }
  }

  /** The queue has no part in what is kept about stack and descriptors. */
  lemma QueueOnly<Id>(l: Loop<Id>, queue: seq<Slot<Id>>)
    ensures var l' := l.(queue := queue);
            && (forall o :: Get(l', o) == Get(l, o))
            && (Tracked(l') <==> Tracked(l)) && (Kept(l') <==> Kept(l)) && (Modes(l') <==> Modes(l))
  {
  }

  lemma EdgeRegistered<Id>(l: Loop<Id>, id: Id)
    requires Modes(l) && Edge(l, id)
    ensures Get(l, id).registered
  {
  }

  /** Keeping events changes one frame's events. */
  lemma BufferKeeps<Id>(l: Loop<Id>, id: Id, e: Events)
    requires Inv(l) && Buffer(l, id, e).0
    ensures var l' := Buffer(l, id, e).1;
            && Inv(l') && l'.socks == l.socks && l'.queue == l.queue && |l'.stack| == |l.stack|
            && (forall i :: 0 <= i < |l.stack| ==>
                  && l'.stack[i].fd == l.stack[i].fd && l'.stack[i].past == l.stack[i].past
                  && l'.stack[i].events == if i == Find(l.stack, id) then Either(l.stack[i].events, e) else l.stack[i].events)
  {
    hide Get;
    EdgeRegistered(l, id);
    var l' := Buffer(l, id, e).1;
    SameDescriptors(l, l');
    assert Edge(l', id);
    forall i | 0 <= i < |l'.stack| && l'.stack[i].fd.Some? && l'.stack[i].events != NOTHING
      ensures var o := l'.stack[i].fd.value; Get(l', o).registered && Edge(l', o) && Find(l'.stack, o) == i
    {
      FindSame(l.stack, l'.stack, l'.stack[i].fd.value);
    }
  }

  lemma SameDescriptors<Id>(l: Loop<Id>, l': Loop<Id>)
    requires l'.socks == l.socks
    ensures forall o :: Get(l', o) == Get(l, o)
  {
  }

  /** A new frame is put on the stack only for a descriptor with no live edge-triggered callback under way. */
  lemma PushKeeps<Id>(l: Loop<Id>, id: Id, e: Events)
    requires Inv(l) && !Buffer(l, id, e).0
    ensures Inv(l.(stack := [Frame(Some(id), NOTHING, Past(id, Edge(l, id), true))] + l.stack))
    ensures forall i :: 0 <= i < |l.stack| && l.stack[i].past.edge && l.stack[i].past.intact ==> l.stack[i].past.owner != id
  {
    hide Get, Fetched, Modes;
    var f := Frame(Some(id), NOTHING, Past(id, Edge(l, id), true));
    var l' := l.(stack := [f] + l.stack);
    SameDescriptors(l, l');
    assert Modes(l') && Fetched(l') by { PushRest(l, l'); }
    if Edge(l, id) {
      EdgeRegistered(l, id);
    }
    assert forall i :: 0 < i < |l'.stack| ==> l'.stack[i] == l.stack[i - 1];
    forall i | 0 <= i < |l'.stack| && l'.stack[i].fd.Some? && l'.stack[i].events != NOTHING
      ensures var o := l'.stack[i].fd.value; Get(l', o).registered && Edge(l', o) && Find(l'.stack, o) == i
    {
      FindAt(l'.stack, l'.stack[i].fd.value, i);
    }
  }

  lemma PushRest<Id>(l: Loop<Id>, l': Loop<Id>)
    requires Modes(l) && Fetched(l) && l'.socks == l.socks && l'.queue == l.queue
    ensures Modes(l') && Fetched(l')
  {
  }

  lemma QueueTail<Id>(l: Loop<Id>)
    requires Inv(l) && l.queue != []
    ensures Inv(l.(queue := l.queue[1..]))
  {
    hide Tracked, Kept, Get;
    QueueOnly(l, l.queue[1..]);
  }

  lemma {:induction false} DeliverKeeps<Id>(l: Loop<Id>)
    requires Inv(l)
    ensures Inv(Deliver(l).0)
    decreases |l.queue|
  {
    hide Inv, Buffer, Get;
    if l.queue != [] {
      QueueTail(l);
      var slot := l.queue[0];
      var l1 := l.(queue := l.queue[1..]);
      if slot.fd.None? || !Get(l1, slot.fd.value).cb {
        DeliverKeeps(l1);
      } else if Buffer(l1, slot.fd.value, slot.events).0 {
        BufferKeeps(l1, slot.fd.value, slot.events);
        DeliverKeeps(Buffer(l1, slot.fd.value, slot.events).1);
      } else {
        PushKeeps(l1, slot.fd.value, slot.events);
      }
    }
  }

  lemma ReturnKeeps<Id>(l: Loop<Id>)
    requires Inv(l)
    ensures Inv(Advance(l, Return).0)
  {
    hide Get;
    if l.stack != [] {
      var l' := Advance(l, Return).0;
      SameDescriptors(l, l');
      if |l'.stack| == |l.stack| {
        FirstRuled(l, l');
      } else {
        assert forall i :: 0 <= i < |l'.stack| ==> l'.stack[i] == l.stack[i + 1];
        forall i | 0 <= i < |l'.stack| && l'.stack[i].fd.Some? && l'.stack[i].events != NOTHING
          ensures var o := l'.stack[i].fd.value; Get(l', o).registered && Edge(l', o) && Find(l'.stack, o) == i
        {
          FindAt(l'.stack, l'.stack[i].fd.value, i);
        }
      }
    }
  }

  lemma FirstRuled<Id>(l: Loop<Id>, l': Loop<Id>)
    requires Inv(l) && l.stack != [] && l'.socks == l.socks && l'.queue == l.queue
    requires l'.stack == l.stack[0 := l.stack[0].(events := NOTHING)]
    ensures Inv(l')
  {
    hide Get;
    SameDescriptors(l, l');
    forall i | 0 <= i < |l'.stack| && l'.stack[i].fd.Some? && l'.stack[i].events != NOTHING
      ensures var o := l'.stack[i].fd.value; Get(l', o).registered && Edge(l', o) && Find(l'.stack, o) == i
    {
      FindSame(l.stack, l'.stack, l'.stack[i].fd.value);
    }
  }

  /** Every step keeps the book-keeping right. */
  lemma AdvanceKeeps<Id>(l: Loop<Id>, step: Step<Id>)
    requires Inv(l) && GoodStep(l, step)
    ensures Inv(Advance(l, step).0)
  {
    hide Inv, Deliver, Fetch, Delete, Add, Get;
    match step
    case RunEvents(raws) =>
      if l.queue == [] {
        FetchKeeps(l, raws);
        DeliverKeeps(Fetch(l, raws));
      } else {
        DeliverKeeps(l);
      }
    case Return => ReturnKeeps(l);
    case AddFd(id, flags) => AddKeeps(l, id, flags);
    case DeleteFd(id) => DeleteKeeps(l, id);
  }

  // ----- no re-entry -----

  /** The callback just called has no intact edge-triggered call of itself below it. */
  predicate Fresh<Id(==)>(l: Loop<Id>, c: Call<Id>) {
    && l.stack != [] && l.stack[0].fd == Some(c.id) && l.stack[0].past.owner == c.id && l.stack[0].past.intact
    && (forall i :: 0 < i < |l.stack| && l.stack[i].past.edge && l.stack[i].past.intact ==> l.stack[i].past.owner != c.id)
    && (Get(l, c.id).registered || c.dropped)
  }

  lemma {:induction false} DeliverFresh<Id>(l: Loop<Id>)
    requires Inv(l) && Deliver(l).1.Some?
    ensures Fresh(Deliver(l).0, Deliver(l).1.value)
    decreases |l.queue|
  {
    hide Buffer, Get, Tracked, Kept;
    if l.queue != [] {
      QueueTail(l);
      var slot := l.queue[0];
      var l1 := l.(queue := l.queue[1..]);
      QueueOnly(l, l.queue[1..]);
      if slot.fd.None? || !Get(l1, slot.fd.value).cb {
        DeliverFresh(l1);
      } else if Buffer(l1, slot.fd.value, slot.events).0 {
        BufferKeeps(l1, slot.fd.value, slot.events);
        DeliverFresh(Buffer(l1, slot.fd.value, slot.events).1);
      } else {
        PushKeeps(l1, slot.fd.value, slot.events);
        SameDescriptors(l, Deliver(l).0);
      }
    }
  }

  /**
   Running the loop, at any depth, never calls the callback of an edge-triggered descriptor while a
   call of it is under way, unless the descriptor was deleted meanwhile; and it calls a callback
   for a descriptor that is not registered only when the fetch itself has deleted it.
   */
  lemma NoReentry<Id>(l: Loop<Id>, raws: seq<Raw<Id>>)
    requires Inv(l) && GoodStep(l, RunEvents(raws)) && Advance(l, RunEvents(raws)).1.Some?
    ensures Fresh(Advance(l, RunEvents(raws)).0, Advance(l, RunEvents(raws)).1.value)
  {
    hide Inv, Deliver, Fetch, Fresh, Get;
    if l.queue == [] {
      FetchKeeps(l, raws);
      DeliverFresh(Fetch(l, raws));
    } else {
      DeliverFresh(l);
    }
  }

  /** The kernel reports something of the descriptor. */
  predicate Says<Id>(r: Raw<Id>) { r.error || r.hangup || r.events.read || r.events.write }

  /** The fetch deletes a descriptor that reports an error and has not asked to be told. */
  predicate Drops<Id(==)>(l: Loop<Id>, r: Raw<Id>) { r.error && !Get(l, r.id).flags.errorCb }

  predicate Dropped<Id(==)>(l: Loop<Id>, raws: seq<Raw<Id>>, id: Id) {
    exists k :: 0 <= k < |raws| && raws[k].id == id && Drops(l, raws[k])
  }

  /** What a fetch queues, and what it does to the descriptors: each is reported once. */
  lemma {:induction false} FetchIs<Id>(l: Loop<Id>, raws: seq<Raw<Id>>)
    requires Distinct(raws)
    ensures var l' := Fetch(l, raws);
            && |l'.queue| == |l.queue| + |raws| && l'.queue[..|l.queue|] == l.queue
            && (forall k :: 0 <= k < |raws| ==>
                  l'.queue[|l.queue| + k] == Slot(if Says(raws[k]) then Some(raws[k].id) else None, raws[k].events, Drops(l, raws[k])))
            && (forall o :: Get(l', o).cb == Get(l, o).cb)
            && (forall o :: Get(l', o).registered <==> Get(l, o).registered && !Dropped(l, raws, o))
    decreases |raws|
  {
    hide Delete, Get;
    if raws != [] {
      var r := raws[0];
      var l1 := if Drops(l, r) then Delete(l.(queue := []), r.id).(queue := l.queue) else l;
      var said := r.error || r.hangup || r.events != NOTHING;
      var l2 := l1.(queue := l1.queue + [Slot(if said then Some(r.id) else None, r.events, Drops(l, r))]);
      FetchIs(l2, raws[1..]);
      DropOne(l, r, l1, l2);
      var l' := Fetch(l2, raws[1..]);
      forall k | 0 <= k < |raws|
        ensures l'.queue[|l.queue| + k] == Slot(if Says(raws[k]) then Some(raws[k].id) else None, raws[k].events, Drops(l, raws[k]))
      {
        if k == 0 {
          assert l'.queue[|l.queue|] == l2.queue[|l.queue|];
        } else {
          assert raws[1..][k - 1] == raws[k] && raws[k].id != r.id;
          assert l'.queue[|l.queue| + k] == l'.queue[|l2.queue| + (k - 1)];
        }
      }
      forall o
        ensures Get(l', o).registered <==> Get(l, o).registered && !Dropped(l, raws, o)
      {
        DroppedRest(l, l2, raws, o);
      }
      assert l'.queue[..|l.queue|] == l'.queue[..|l2.queue|][..|l.queue|];
    }
  }

  lemma DropOne<Id>(l: Loop<Id>, r: Raw<Id>, l1: Loop<Id>, l2: Loop<Id>)
    requires l1 == if Drops(l, r) then Delete(l.(queue := []), r.id).(queue := l.queue) else l
    requires l2 == l1.(queue := l2.queue)
    ensures forall o :: o != r.id ==> Get(l2, o) == Get(l, o)
    ensures Get(l2, r.id).cb == Get(l, r.id).cb
    ensures Get(l2, r.id).registered <==> Get(l, r.id).registered && !Drops(l, r)
  {
    hide Delete;
    DeleteStack(l.(queue := []), r.id);
    QueueOnly(l, []);
    QueueOnly(l1, l2.queue);
    if Drops(l, r) {
      QueueOnly(Delete(l.(queue := []), r.id), l.queue);
    }
  }

  lemma DroppedRest<Id>(l: Loop<Id>, l2: Loop<Id>, raws: seq<Raw<Id>>, o: Id)
    requires raws != [] && Distinct(raws) && (forall i :: i != raws[0].id ==> Get(l2, i) == Get(l, i))
    ensures o == raws[0].id ==> (Dropped(l, raws, o) <==> Drops(l, raws[0])) && !Dropped(l2, raws[1..], o)
    ensures o != raws[0].id ==> (Dropped(l, raws, o) <==> Dropped(l2, raws[1..], o))
  {
    var rest := raws[1..];
    assert forall k :: 0 <= k < |rest| ==> rest[k] == raws[k + 1] && rest[k].id != raws[0].id;
    if Dropped(l, raws, o) && o != raws[0].id {
      var k :| 0 <= k < |raws| && raws[k].id == o && Drops(l, raws[k]);
      assert rest[k - 1] == raws[k] && Drops(l2, rest[k - 1]);
    }
    if Dropped(l2, rest, o) {
      var k :| 0 <= k < |rest| && rest[k].id == o && Drops(l2, rest[k]);
      assert raws[k + 1] == rest[k] && Drops(l, raws[k + 1]);
    }
  }

  /** A delivery calls what one of the queued events is for, and leaves the descriptors as they are. */
  lemma {:induction false} DeliverPicks<Id>(l: Loop<Id>)
    ensures var (l', c) := Deliver(l);
            && l'.socks == l.socks
            && (c.Some? ==> exists j :: 0 <= j < |l.queue| && l.queue[j] == Slot(Some(c.value.id), c.value.events, c.value.dropped))
    decreases |l.queue|
  {
    hide Get, Find;
    if l.queue != [] {
      var slot := l.queue[0];
      var l1 := l.(queue := l.queue[1..]);
      var next := if slot.fd.None? || !Get(l1, slot.fd.value).cb then l1 else Buffer(l1, slot.fd.value, slot.events).1;
      assert next.queue == l1.queue && next.socks == l.socks;
      DeliverPicks(next);
      var (l', c) := Deliver(l);
      if (l', c) == Deliver(next) && c.Some? {
        var j :| 0 <= j < |next.queue| && next.queue[j] == Slot(Some(c.value.id), c.value.events, c.value.dropped);
        assert l.queue[j + 1] == next.queue[j];
      } else if c.Some? {
        assert l.queue[0] == Slot(Some(c.value.id), c.value.events, c.value.dropped);
      }
    }
  }

  /**
   After a fetch the callback of a descriptor that is not registered is called exactly when the fetch has
   deleted it itself: it has reported an error, and had not asked to be told of errors.
   */
  lemma CalledDeletedIff<Id>(l: Loop<Id>, raws: seq<Raw<Id>>)
    requires GoodStep(l, RunEvents(raws)) && l.queue == [] && Advance(l, RunEvents(raws)).1.Some?
    ensures var (l', c) := Advance(l, RunEvents(raws));
            && (!Get(l', c.value.id).registered <==> Dropped(l, raws, c.value.id))
            && (c.value.dropped <==> Dropped(l, raws, c.value.id))
  {
    hide Fetch, Deliver, Get, Drops;
    var l1 := Fetch(l, raws);
    FetchIs(l, raws);
    DeliverPicks(l1);
    var (l', c) := Advance(l, RunEvents(raws));
    SameDescriptors(l1, l');
    var j :| 0 <= j < |l1.queue| && l1.queue[j] == Slot(Some(c.value.id), c.value.events, c.value.dropped);
    assert l1.queue[|l.queue| + j].fd == Some(raws[j].id);
    assert Dropped(l, raws, c.value.id) <==> Drops(l, raws[j]);
  }

  /** And such a report, when it is the first, is always delivered, if there is a callback. */
  lemma DroppedIsCalled<Id>(l: Loop<Id>, raws: seq<Raw<Id>>)
    requires Inv(l) && GoodStep(l, RunEvents(raws)) && l.queue == [] && raws != []
    requires Drops(l, raws[0]) && Get(l, raws[0].id).cb
    ensures var (l', c) := Advance(l, RunEvents(raws));
            c == Some(Call(raws[0].id, raws[0].events, true)) && !Get(l', raws[0].id).registered
  {
    hide Fetch, Get, Inv;
    FetchIs(l, raws);
    FetchKeeps(l, raws);
    FetchFirst(l, raws);
    var l1 := Fetch(l, raws);
    assert l1.queue[0] == Slot(Some(raws[0].id), raws[0].events, true);
    assert Dropped(l, raws, raws[0].id);
    UnregisteredPlain(l1, raws[0].id);
    QueueOnly(l1, l1.queue[1..]);
    SameDescriptors(l1, Deliver(l1).0);
  }

  /** One descriptor, watched for reading, that reports an error. */
  lemma FetchCallsDeleted(id: int, e: Events)
    ensures var l := Loop(map[id := Sock(true, Flags(Events(true, false), false, false), true)], [], []);
            var (l', c) := Advance(l, RunEvents([Raw(id, true, false, e)]));
            Inv(l) && c == Some(Call(id, e, true)) && !Get(l', id).registered
  {
    hide Fetch, Deliver;
    DroppedIsCalled(Loop(map[id := Sock(true, Flags(Events(true, false), false, false), true)], [], []), [Raw(id, true, false, e)]);
  }

  lemma UnregisteredPlain<Id>(l: Loop<Id>, id: Id)
    requires Inv(l) && !Get(l, id).registered
    ensures !Edge(l, id)
  {
    hide Tracked, Kept, Fetched;
  }

  lemma {:induction false} FetchFirst<Id>(l: Loop<Id>, raws: seq<Raw<Id>>)
    requires raws != [] && Distinct(raws) && l.queue == []
    ensures Fetch(l, raws).queue != []
    ensures Fetch(l, raws).queue[0].events == raws[0].events
    ensures raws[0].error ==> Fetch(l, raws).queue[0].fd == Some(raws[0].id)
  {
    hide Delete, Get;
    var r := raws[0];
    var drop := Drops(l, r);
    var l1 := if drop then Delete(l.(queue := []), r.id).(queue := l.queue) else l;
    var said := r.error || r.hangup || r.events != NOTHING;
    var l2 := l1.(queue := l1.queue + [Slot(if said then Some(r.id) else None, r.events, drop)]);
    assert forall j, k :: 0 <= j < k < |raws[1..]| ==> raws[1..][j].id != raws[1..][k].id;
    FetchIs(l2, raws[1..]);
    assert Fetch(l, raws) == Fetch(l2, raws[1..]);
    assert Fetch(l2, raws[1..]).queue[..1][0] == l2.queue[0];
  }

  // ----- silence after deletion -----

  /** Nothing is queued for the descriptor, nor kept for a frame of it. */
  predicate Silent<Id(==)>(l: Loop<Id>, id: Id) {
    && (forall i :: 0 <= i < |l.queue| ==> l.queue[i].fd != Some(id))
    && (forall i :: 0 <= i < |l.stack| && l.stack[i].fd == Some(id) ==> l.stack[i].events == NOTHING)
  }

  lemma DeleteSilences<Id>(l: Loop<Id>, id: Id)
    requires Inv(l)
    ensures Silent(Delete(l, id), id)
  {
    hide Delete, Find, Tracked, Modes, Fetched, Get;
    DeleteStack(l, id);
  }

  lemma DeleteOther<Id>(l: Loop<Id>, other: Id, id: Id)
    requires Silent(l, id)
    ensures Silent(Delete(l, other), id)
  {
    hide Delete, Find, Get;
    DeleteStack(l, other);
  }

  lemma {:induction false} FetchSilent<Id>(l: Loop<Id>, raws: seq<Raw<Id>>, id: Id)
    requires Silent(l, id) && (forall k :: 0 <= k < |raws| ==> raws[k].id != id)
    ensures Silent(Fetch(l, raws), id)
    decreases |raws|
  {
    hide Delete, Get;
    if raws != [] {
      var r := raws[0];
      var drop := r.error && !Get(l, r.id).flags.errorCb;
      DeleteOther(l.(queue := []), r.id, id);
      var l1 := if drop then Delete(l.(queue := []), r.id).(queue := l.queue) else l;
      var said := r.error || r.hangup || r.events != NOTHING;
      FetchSilent(l1.(queue := l1.queue + [Slot(if said then Some(r.id) else None, r.events, drop)]), raws[1..], id);
    }
  }

  lemma {:induction false} DeliverSilent<Id>(l: Loop<Id>, id: Id)
    requires Silent(l, id)
    ensures var (l', c) := Deliver(l); Silent(l', id) && (c.Some? ==> c.value.id != id)
    decreases |l.queue|
  {
    hide Get;
    if l.queue != [] {
      var slot := l.queue[0];
      var l1 := l.(queue := l.queue[1..]);
      if slot.fd.None? || !Get(l1, slot.fd.value).cb {
        DeliverSilent(l1, id);
      } else {
        var (kept, l2) := Buffer(l1, slot.fd.value, slot.events);
        if kept {
          DeliverSilent(l2, id);
        }
      }
    }
  }

  /** Silence lasts until events for the descriptor are fetched anew, and while it lasts it is not called. */
  lemma StaysSilent<Id>(l: Loop<Id>, step: Step<Id>, id: Id)
    requires Silent(l, id)
    requires Fetching(l, step) ==> forall k :: 0 <= k < |step.raws| ==> step.raws[k].id != id
    ensures var (l', c) := Advance(l, step); Silent(l', id) && (c.Some? ==> c.value.id != id)
  {
    hide Deliver, Fetch, Delete, Get;
    match step
    case RunEvents(raws) =>
      if l.queue == [] {
        FetchSilent(l, raws, id);
        DeliverSilent(Fetch(l, raws), id);
      } else {
        DeliverSilent(l, id);
      }
    case Return =>
    case AddFd(other, flags) => DeleteOther(l, other, id);
    case DeleteFd(other) => DeleteOther(l, other, id);
  }

  // ----- whole runs -----

  predicate GoodRun<Id(==)>(l: Loop<Id>, steps: seq<Step<Id>>)
    decreases |steps|
  {
    steps == [] || (GoodStep(l, steps[0]) && GoodRun(Advance(l, steps[0]).0, steps[1..]))
  }

  function Run<Id(==)>(l: Loop<Id>, steps: seq<Step<Id>>): Loop<Id>
    decreases |steps|
  {
    if steps == [] then l else Run(Advance(l, steps[0]).0, steps[1..])
  }

  function Calls<Id(==)>(l: Loop<Id>, steps: seq<Step<Id>>): seq<Call<Id>>
    decreases |steps|
  {
    if steps == [] then []
    else
      var (l1, c) := Advance(l, steps[0]);
      (if c.Some? then [c.value] else []) + Calls(l1, steps[1..])
  }

  /** No fetch of the run reports the descriptor. */
  predicate Unheard<Id(==)>(l: Loop<Id>, steps: seq<Step<Id>>, id: Id)
    decreases |steps|
  {
    steps == [] ||
    ((Fetching(l, steps[0]) ==> forall k :: 0 <= k < |steps[0].raws| ==> steps[0].raws[k].id != id)
     && Unheard(Advance(l, steps[0]).0, steps[1..], id))
  }

  lemma {:induction false} RunKeeps<Id>(l: Loop<Id>, steps: seq<Step<Id>>)
    requires Inv(l) && GoodRun(l, steps)
    ensures Inv(Run(l, steps))
    decreases |steps|
  {
    hide Inv, Advance, GoodStep;
    if steps != [] {
      AdvanceKeeps(l, steps[0]);
      RunKeeps(Advance(l, steps[0]).0, steps[1..]);
    }
  }

  lemma {:induction false} SilentRun<Id>(l: Loop<Id>, steps: seq<Step<Id>>, id: Id)
    requires Silent(l, id) && Unheard(l, steps, id)
    ensures forall k :: 0 <= k < |Calls(l, steps)| ==> Calls(l, steps)[k].id != id
    decreases |steps|
  {
    hide Advance, Silent;
    if steps != [] {
      StaysSilent(l, steps[0], id);
      SilentRun(Advance(l, steps[0]).0, steps[1..], id);
    }
  }

  /** After uloop_fd_delete, at whatever depth, the callback is not called until events are fetched anew for it. */
  lemma DeletedIsSilent<Id>(l: Loop<Id>, id: Id, steps: seq<Step<Id>>)
    requires Inv(l) && Unheard(Delete(l, id), steps, id)
    ensures forall k :: 0 <= k < |Calls(Delete(l, id), steps)| ==> Calls(Delete(l, id), steps)[k].id != id
  {
    DeleteSilences(l, id);
    SilentRun(Delete(l, id), steps, id);
  }

  // ----- no event lost -----

  predicate Covers(a: Events, b: Events) { (b.read ==> a.read) && (b.write ==> a.write) }

  /** The frame that lies `d` above the bottom of the stack. */
  function At<Id(==)>(l: Loop<Id>, d: nat): Frame<Id>
    requires d < |l.stack|
  {
    l.stack[|l.stack| - 1 - d]
  }

  /** How many events a delivery takes from the queue and keeps or skips. */
  function Passed<Id(==)>(l: Loop<Id>): nat
    decreases |l.queue|
  {
    if l.queue == [] then 0
    else
      var slot := l.queue[0];
      var l1 := l.(queue := l.queue[1..]);
      if slot.fd.None? || !Get(l1, slot.fd.value).cb then 1 + Passed(l1)
      else
        var (kept, l2) := Buffer(l1, slot.fd.value, slot.events);
        if kept then 1 + Passed(l2) else 0
  }

  /** An intact call of an edge-triggered descriptor that has a callback. */
  predicate UnderWay<Id(==)>(l: Loop<Id>, d: nat) {
    d < |l.stack| && At(l, d).past.edge && At(l, d).past.intact && Get(l, At(l, d).past.owner).cb
  }

  /** What a delivery does to a call under way: events passed over for its descriptor are kept for it. */
  lemma {:induction false} DeliverKeepsEvents<Id>(l: Loop<Id>, d: nat)
    requires Inv(l) && UnderWay(l, d)
    ensures var l' := Deliver(l).0;
            && Passed(l) <= |l.queue| && |l.stack| <= |l'.stack|
            && At(l', d).past == At(l, d).past && Covers(At(l', d).events, At(l, d).events)
            && (forall k :: 0 <= k < Passed(l) && l.queue[k].fd == Some(At(l, d).past.owner) ==>
                  Covers(At(l', d).events, l.queue[k].events))
    decreases |l.queue|
  {
    hide Get, Fetched, Modes;
    if l.queue != [] {
      QueueTail(l);
      QueueOnly(l, l.queue[1..]);
      var slot := l.queue[0];
      var l1 := l.(queue := l.queue[1..]);
      var l' := Deliver(l).0;
      if slot.fd.None? || !Get(l1, slot.fd.value).cb {
        DeliverKeepsEvents(l1, d);
        NextPassed(l, l', d);
      } else if Buffer(l1, slot.fd.value, slot.events).0 {
        BufferKeeps(l1, slot.fd.value, slot.events);
        var l2 := Buffer(l1, slot.fd.value, slot.events).1;
        SameDescriptors(l1, l2);
        UniqueFrame(l1, d, slot.fd.value);
        DeliverKeepsEvents(l2, d);
        NextPassed(l, l', d);
      }
    }
  }

  /** The call under way is the one its descriptor's events are kept for. */
  lemma UniqueFrame<Id>(l: Loop<Id>, d: nat, id: Id)
    requires Inv(l) && UnderWay(l, d)
    ensures At(l, d).past.owner == id ==> Find(l.stack, id) == |l.stack| - 1 - d
  {
    hide Get, Kept, Fetched, Modes;
    var i := |l.stack| - 1 - d;
    if At(l, d).past.owner == id {
      assert l.stack[i].past.edge;
      FindAt(l.stack, id, i);
    }
  }

  lemma NextPassed<Id>(l: Loop<Id>, l': Loop<Id>, d: nat)
    requires l.queue != [] && d < |l'.stack| && d < |l.stack|
    requires 1 <= Passed(l) <= |l.queue|
    requires l.queue[0].fd == Some(At(l, d).past.owner) ==> Covers(At(l', d).events, l.queue[0].events)
    requires forall k :: 0 <= k < Passed(l) - 1 && l.queue[1..][k].fd == Some(At(l, d).past.owner) ==>
               Covers(At(l', d).events, l.queue[1..][k].events)
    ensures forall k :: 0 <= k < Passed(l) && l.queue[k].fd == Some(At(l, d).past.owner) ==>
              Covers(At(l', d).events, l.queue[k].events)
  {
    hide Passed, Covers, At;
    forall k | 0 < k < Passed(l) && l.queue[k].fd == Some(At(l, d).past.owner)
      ensures Covers(At(l', d).events, l.queue[k].events)
    {
      assert l.queue[k] == l.queue[1..][k - 1];
    }
  }

  /** In every state of the run that has the frame, the descriptor has not been deleted since its call. */
  predicate IntactAll<Id(==)>(l: Loop<Id>, steps: seq<Step<Id>>, d: nat)
    decreases |steps|
  {
    (d < |l.stack| ==> At(l, d).past.intact) && (steps == [] || IntactAll(Advance(l, steps[0]).0, steps[1..], d))
  }

  /** One step leaves the frame and what is kept for it, or calls its callback with all of it. */
  lemma StepAnswers<Id>(l: Loop<Id>, step: Step<Id>, d: nat, want: Events)
    requires Inv(l) && GoodStep(l, step) && UnderWay(l, d) && want != NOTHING && Covers(At(l, d).events, want)
    requires d < |Advance(l, step).0.stack| ==> At(Advance(l, step).0, d).past.intact
    ensures var (l', c) := Advance(l, step);
            || (c.Some? && c.value.id == At(l, d).past.owner && Covers(c.value.events, want))
            || (UnderWay(l', d) && At(l', d).past.owner == At(l, d).past.owner && Covers(At(l', d).events, want))
  {
    hide Deliver, Fetch, Delete, Kept, Fetched, Modes;
    match step
    case RunEvents(raws) =>
      if l.queue == [] {
        FetchKeeps(l, raws);
        FetchFrames(l, raws, d);
        DeliverBreaksNothing(Fetch(l, raws), d);
        if At(Fetch(l, raws), d).past.intact {
          DeliverKeepsEvents(Fetch(l, raws), d);
        }
      } else {
        DeliverBreaksNothing(l, d);
        DeliverKeepsEvents(l, d);
      }
    case Return =>
      var i := |l.stack| - 1 - d;
      assert l.stack[i].past.edge;
    case AddFd(id, flags) => DeleteStack(l, id);
    case DeleteFd(id) => DeleteStack(l, id);
  }

  lemma DeleteAt<Id>(l: Loop<Id>, id: Id, d: nat)
    requires d < |l.stack|
    ensures var l' := Delete(l, id);
            && |l'.stack| == |l.stack| && At(l', d).events == At(l, d).events
            && At(l', d).past == At(l, d).past.(intact := At(l', d).past.intact)
            && (forall o :: Get(l', o).cb == Get(l, o).cb)
  {
    hide Delete, Get, Find;
    DeleteStack(l, id);
  }

  lemma {:induction false} FetchFrames<Id>(l: Loop<Id>, raws: seq<Raw<Id>>, d: nat)
    requires d < |l.stack|
    ensures var l' := Fetch(l, raws);
            && |l'.stack| == |l.stack| && At(l', d).events == At(l, d).events
            && At(l', d).past == At(l, d).past.(intact := At(l', d).past.intact)
            && (forall o :: Get(l', o).cb == Get(l, o).cb)
    decreases |raws|
  {
    hide Delete, Get, At;
    if raws != [] {
      var r := raws[0];
      var drop := r.error && !Get(l, r.id).flags.errorCb;
      QueueOnly(l, []);
      DeleteAt(l.(queue := []), r.id, d);
      SameAt(l, d);
      QueueOnly(Delete(l.(queue := []), r.id), l.queue);
      var l1 := if drop then Delete(l.(queue := []), r.id).(queue := l.queue) else l;
      var said := r.error || r.hangup || r.events != NOTHING;
      SameAt(Delete(l.(queue := []), r.id), d);
      SameAt(l1, d);
      var l2 := l1.(queue := l1.queue + [Slot(if said then Some(r.id) else None, r.events, drop)]);
      QueueOnly(l1, l2.queue);
      FetchFrames(l2, raws[1..], d);
    }
  }

  lemma SameAt<Id>(l: Loop<Id>, d: nat)
    requires d < |l.stack|
    ensures forall q :: At(l.(queue := q), d) == At(l, d)
  {
  }

  lemma {:induction false} DeliverBreaksNothing<Id>(l: Loop<Id>, d: nat)
    requires d < |l.stack|
    ensures d < |Deliver(l).0.stack| && At(Deliver(l).0, d).past == At(l, d).past
    ensures Deliver(l).0.socks == l.socks
    decreases |l.queue|
  {
    hide Get, Find;
    if l.queue != [] {
      var slot := l.queue[0];
      var l1 := l.(queue := l.queue[1..]);
      if slot.fd.None? || !Get(l1, slot.fd.value).cb {
        DeliverBreaksNothing(l1, d);
      } else if Buffer(l1, slot.fd.value, slot.events).0 {
        DeliverBreaksNothing(Buffer(l1, slot.fd.value, slot.events).1, d);
      }
    }
  }

  /**
   Events kept for a call under way are delivered before its frame is gone: if a run, however the
   loop is nested in it, takes the frame off the stack without the descriptor being deleted, then
   the callback has been called again with all of them.
   */
  lemma {:induction false} KeptIsDelivered<Id>(l: Loop<Id>, steps: seq<Step<Id>>, d: nat, want: Events)
    requires Inv(l) && GoodRun(l, steps) && UnderWay(l, d) && want != NOTHING && Covers(At(l, d).events, want)
    requires IntactAll(l, steps, d) && |Run(l, steps).stack| <= d
    ensures exists k :: 0 <= k < |Calls(l, steps)|
                        && Calls(l, steps)[k].id == At(l, d).past.owner && Covers(Calls(l, steps)[k].events, want)
    decreases |steps|
  {
    hide Inv, Advance, GoodStep, Covers;
    if steps != [] {
      StepAnswers(l, steps[0], d, want);
      var (l1, c) := Advance(l, steps[0]);
      var rest := Calls(l1, steps[1..]);
      if c.Some? && c.value.id == At(l, d).past.owner && Covers(c.value.events, want) {
        assert Calls(l, steps)[0] == c.value;
      } else {
        AdvanceKeeps(l, steps[0]);
        KeptIsDelivered(l1, steps[1..], d, want);
        var k :| 0 <= k < |rest| && rest[k].id == At(l1, d).past.owner && Covers(rest[k].events, want);
        var n := if c.Some? then 1 else 0;
        assert Calls(l, steps)[n + k] == rest[k];
      }
    }
  }

  // ----- what a fetch reports is answered -----

  /** Its callback is under way and edge-triggered: events are kept for it. */
  predicate Busy<Id(==)>(l: Loop<Id>, id: Id) {
    Edge(l, id) && exists i :: 0 <= i < |l.stack| && l.stack[i].fd == Some(id)
  }

  /** A queued event whose callback is to be called. */
  predicate Deliverable<Id(==)>(l: Loop<Id>, slot: Slot<Id>) {
    slot.fd.Some? && Get(l, slot.fd.value).cb && !Busy(l, slot.fd.value)
  }

  /** A frame of the descriptor holds these events. */
  predicate KeptFor<Id(==)>(l: Loop<Id>, id: Id, e: Events) {
    exists i :: 0 <= i < |l.stack| && l.stack[i].fd == Some(id) && Covers(l.stack[i].events, e)
  }

  /** The frames are still there, below new ones, and hold what they held. */
  predicate Rises<Id(==)>(stack: seq<Frame<Id>>, stack': seq<Frame<Id>>) {
    && |stack| <= |stack'|
    && forall i :: 0 <= i < |stack| ==>
         var f := stack'[|stack'| - |stack| + i]; f.fd == stack[i].fd && Covers(f.events, stack[i].events)
  }

  lemma RisesKept<Id>(l: Loop<Id>, l': Loop<Id>, id: Id, e: Events)
    requires Rises(l.stack, l'.stack) && KeptFor(l, id, e)
    ensures KeptFor(l', id, e)
  {
    var i :| 0 <= i < |l.stack| && l.stack[i].fd == Some(id) && Covers(l.stack[i].events, e);
    assert l'.stack[|l'.stack| - |l.stack| + i].fd == Some(id);
  }

  lemma RisesOn<Id>(a: seq<Frame<Id>>, b: seq<Frame<Id>>, c: seq<Frame<Id>>)
    requires Rises(a, b) && Rises(b, c)
    ensures Rises(a, c)
  {
    forall i | 0 <= i < |a|
      ensures var f := c[|c| - |a| + i]; f.fd == a[i].fd && Covers(f.events, a[i].events)
    {
      assert c[|c| - |b| + (|b| - |a| + i)].fd == b[|b| - |a| + i].fd;
    }
  }

  lemma {:induction false} FoundIff<Id>(stack: seq<Frame<Id>>, id: Id)
    ensures Find(stack, id) < |stack| <==> exists i :: 0 <= i < |stack| && stack[i].fd == Some(id)
  {
    var k := Find(stack, id);
    assert k < |stack| ==> stack[k].fd == Some(id);
  }

  lemma BufferIs<Id>(l: Loop<Id>, id: Id, e: Events)
    ensures var (kept, l') := Buffer(l, id, e);
            && (kept <==> Busy(l, id)) && l'.socks == l.socks && l'.queue == l.queue && |l'.stack| == |l.stack|
            && (forall i :: 0 <= i < |l.stack| ==> l'.stack[i].fd == l.stack[i].fd && Covers(l'.stack[i].events, l.stack[i].events))
            && (kept ==> KeptFor(l', id, e))
  {
    hide Get;
    FoundIff(l.stack, id);
    var (kept, l') := Buffer(l, id, e);
    if kept {
      assert l'.stack[Find(l.stack, id)].fd == Some(id);
    }
  }

  lemma SameBusy<Id>(l: Loop<Id>, l': Loop<Id>)
    requires l'.socks == l.socks && |l'.stack| == |l.stack|
    requires forall i :: 0 <= i < |l.stack| ==> l'.stack[i].fd == l.stack[i].fd
    ensures forall id :: Busy(l', id) <==> Busy(l, id)
  {
    forall id
      ensures Busy(l', id) <==> Busy(l, id)
    {
      if Busy(l, id) {
        var i :| 0 <= i < |l.stack| && l.stack[i].fd == Some(id);
        assert l'.stack[i].fd == Some(id);
      }
      if Busy(l', id) {
        var i :| 0 <= i < |l'.stack| && l'.stack[i].fd == Some(id);
        assert l.stack[i].fd == Some(id);
      }
    }
  }

  /** The first `n` of the queued events are gone; those that have a callback are kept for the call of it under way. */
  ghost predicate Gone<Id>(l: Loop<Id>, l': Loop<Id>, n: nat) {
    && n <= |l.queue| && l'.queue == l.queue[n..] && l'.socks == l.socks
    && (forall j :: 0 <= j < n ==> !Deliverable(l, l.queue[j]))
    && (forall j :: 0 <= j < n && l.queue[j].fd.Some? && Get(l, l.queue[j].fd.value).cb ==>
          KeptFor(l', l.queue[j].fd.value, l.queue[j].events))
    && Rises(l.stack, l'.stack)
  }

  /**
   A delivery calls for the first of the queued events that has a callback not to be kept for, with
   exactly its events; those before it are kept, or have no callback; with no such event it calls nobody.
   */
  lemma {:induction false} DeliverIs<Id>(l: Loop<Id>) returns (n: nat)
    ensures var (l', c) := Deliver(l);
            && n <= |l.queue| && (c.None? <==> n == |l.queue|)
            && (c.None? ==> Gone(l, l', n))
            && (c.Some? ==>
                  var slot := l.queue[n];
                  && Deliverable(l, slot) && c.value == Call(slot.fd.value, slot.events, slot.dropped)
                  && l'.stack != [] && l'.queue == l.queue[n + 1..]
                  && Gone(l, l'.(queue := l.queue[n..]), n))
    decreases |l.queue|
  {
    hide Get, Busy, KeptFor, Buffer;
    var (l', c) := Deliver(l);
    if l.queue == [] {
      n := 0;
    } else {
      var slot := l.queue[0];
      var l1 := l.(queue := l.queue[1..]);
      SameBusy(l, l1);
      SameDescriptors(l, l1);
      if slot.fd.None? || !Get(l1, slot.fd.value).cb {
        var m := DeliverIs(l1);
        n := m + 1;
        GoneNext(l, l1, if c.None? then l' else l'.(queue := l1.queue[m..]), m);
      } else {
        BufferIs(l1, slot.fd.value, slot.events);
        var (kept, l2) := Buffer(l1, slot.fd.value, slot.events);
        if kept {
          var m := DeliverIs(l2);
          n := m + 1;
          SameBusy(l1, l2);
          SameDescriptors(l1, l2);
          GoneNext(l, l2, if c.None? then l' else l'.(queue := l2.queue[m..]), m);
        } else {
          n := 0;
          PushKept(l, l'.(queue := l.queue[0..]));
        }
      }
    }
  }

  lemma PushKept<Id>(l: Loop<Id>, l': Loop<Id>)
    requires l'.queue == l.queue && l'.socks == l.socks && |l'.stack| == |l.stack| + 1 && l'.stack[1..] == l.stack
    ensures Gone(l, l', 0)
  {
    forall i | 0 <= i < |l.stack|
      ensures l'.stack[i + 1] == l.stack[i]
    {
      assert l'.stack[1..][i] == l'.stack[i + 1];
    }
  }

  /** One event more. */
  lemma GoneNext<Id>(l: Loop<Id>, next: Loop<Id>, l': Loop<Id>, n: nat)
    requires l.queue != [] && next.queue == l.queue[1..] && next.socks == l.socks && Gone(next, l', n)
    requires !Deliverable(l, l.queue[0])
    requires l.queue[0].fd.Some? && Get(l, l.queue[0].fd.value).cb ==> KeptFor(next, l.queue[0].fd.value, l.queue[0].events)
    requires forall id :: Busy(next, id) <==> Busy(l, id)
    requires Rises(l.stack, next.stack)
    ensures Gone(l, l', n + 1)
  {
    hide Busy, KeptFor, Get, Rises;
    RisesOn(l.stack, next.stack, l'.stack);
    if l.queue[0].fd.Some? && Get(l, l.queue[0].fd.value).cb {
      RisesKept(next, l', l.queue[0].fd.value, l.queue[0].events);
    }
    SameDescriptors(l, next);
    assert l.queue[n + 1..] == next.queue[n..];
    forall j | 0 <= j < n + 1
      ensures !Deliverable(l, l.queue[j])
      ensures l.queue[j].fd.Some? && Get(l, l.queue[j].fd.value).cb ==> KeptFor(l', l.queue[j].fd.value, l.queue[j].events)
    {
      if j > 0 {
        assert l.queue[j] == next.queue[j - 1];
      }
    }
  }

  lemma DeleteBusy<Id>(l: Loop<Id>, other: Id, id: Id)
    requires Get(l, other).registered
    ensures Busy(Delete(l, other), id) <==> Busy(l, id) && id != other
    ensures Get(Delete(l, other), id).cb == Get(l, id).cb
  {
    hide Delete, Get, Find;
    DeleteStack(l, other);
    var l' := Delete(l, other);
    if id != other && Busy(l, id) {
      var i :| 0 <= i < |l.stack| && l.stack[i].fd == Some(id);
      DeleteFrame(l, other, i);
      assert l'.stack[i].fd == Some(id);
    }
    if id != other && Busy(l', id) {
      var i :| 0 <= i < |l'.stack| && l'.stack[i].fd == Some(id);
      assert l.stack[i].fd == Some(id);
    }
  }

  /** Deleting a descriptor cuts off its own frame only. */
  lemma DeleteFrame<Id>(l: Loop<Id>, other: Id, i: nat)
    requires i < |l.stack| && l.stack[i].fd != Some(other)
    ensures Delete(l, other).stack[i].fd == l.stack[i].fd
  {
    hide Delete, Get;
    DeleteStack(l, other);
  }

  lemma QueueBusy<Id>(l: Loop<Id>, q: seq<Slot<Id>>, id: Id)
    ensures Busy(l.(queue := q), id) <==> Busy(l, id)
    ensures Get(l.(queue := q), id) == Get(l, id)
  {
  }

  /** A fetch takes the descriptors it deletes from the calls under way, and leaves the others. */
  lemma {:induction false} FetchBusy<Id>(l: Loop<Id>, raws: seq<Raw<Id>>, id: Id)
    requires Distinct(raws) && (forall k :: 0 <= k < |raws| ==> Get(l, raws[k].id).registered)
    ensures Busy(Fetch(l, raws), id) <==> Busy(l, id) && !Dropped(l, raws, id)
    decreases |raws|
  {
    hide Delete, Get, Busy, Drops;
    if raws != [] {
      var r := raws[0];
      var l1 := if Drops(l, r) then Delete(l.(queue := []), r.id).(queue := l.queue) else l;
      var said := r.error || r.hangup || r.events != NOTHING;
      var l2 := l1.(queue := l1.queue + [Slot(if said then Some(r.id) else None, r.events, Drops(l, r))]);
      assert Fetch(l, raws) == Fetch(l2, raws[1..]) by { FetchOnce(l, raws); }
      QueueBusy(l, [], id);
      QueueBusy(l, [], r.id);
      DeleteBusy(l.(queue := []), r.id, id);
      QueueBusy(Delete(l.(queue := []), r.id), l.queue, id);
      QueueBusy(l1, l2.queue, id);
      DropOne(l, r, l1, l2);
      assert forall k :: 0 <= k < |raws| - 1 ==> raws[1..][k] == raws[k + 1] && raws[k + 1].id != r.id;
      DroppedRest(l, l2, raws, id);
      FetchBusy(l2, raws[1..], id);
    }
  }

  lemma FetchOnce<Id>(l: Loop<Id>, raws: seq<Raw<Id>>)
    requires raws != []
    ensures var r := raws[0];
            var l1 := if Drops(l, r) then Delete(l.(queue := []), r.id).(queue := l.queue) else l;
            var said := r.error || r.hangup || r.events != NOTHING;
            Fetch(l, raws) == Fetch(l1.(queue := l1.queue + [Slot(if said then Some(r.id) else None, r.events, Drops(l, r))]), raws[1..])
  {
    hide Delete, Get;
  }

  /** A report for which a callback is to be called at once. */
  predicate Calling<Id(==)>(l: Loop<Id>, r: Raw<Id>) {
    Says(r) && Get(l, r.id).cb && (Drops(l, r) || !Busy(l, r.id))
  }

  /** What the fetch has queued for a report. */
  lemma FetchedSlot<Id>(l: Loop<Id>, raws: seq<Raw<Id>>, k: nat)
    requires GoodStep(l, RunEvents(raws)) && l.queue == [] && k < |raws|
    ensures var l1 := Fetch(l, raws);
            && |l1.queue| == |raws| && l1.queue[k] == Slot(if Says(raws[k]) then Some(raws[k].id) else None, raws[k].events, Drops(l, raws[k]))
            && (Deliverable(l1, l1.queue[k]) <==> Calling(l, raws[k])) && Get(l1, raws[k].id).cb == Get(l, raws[k].id).cb
  {
    hide Fetch, Get, Busy, Drops;
    FetchIs(l, raws);
    FetchBusy(l, raws, raws[k].id);
    assert Fetch(l, raws).queue[|l.queue| + k] == Fetch(l, raws).queue[k];
    assert Dropped(l, raws, raws[k].id) <==> Drops(l, raws[k]);
  }

  /**
   The callback that a fetch leads to is that of the first report for which one is to be called at once, with
   exactly the events reported; nobody is called only if there is no such report.
   */
  lemma FirstReport<Id>(l: Loop<Id>, raws: seq<Raw<Id>>)
    requires GoodStep(l, RunEvents(raws)) && l.queue == []
    ensures var (l', c) := Advance(l, RunEvents(raws));
            && (c.None? <==> forall k :: 0 <= k < |raws| ==> !Calling(l, raws[k]))
            && (c.Some? ==> exists k :: 0 <= k < |raws| && Calling(l, raws[k]) && c.value == Call(raws[k].id, raws[k].events, Drops(l, raws[k]))
                                     && forall j :: 0 <= j < k ==> !Calling(l, raws[j]))
  {
    hide Fetch, Deliver, Calling, Deliverable, Drops, Says, Get, Gone;
    var l1 := Fetch(l, raws);
    var n := FirstDeliverable(l1);
    FetchIs(l, raws);
    forall k | 0 <= k < |raws|
      ensures Deliverable(l1, l1.queue[k]) <==> Calling(l, raws[k])
    {
      FetchedSlot(l, raws, k);
    }
    if n < |raws| {
      FetchedSlot(l, raws, n);
    }
  }

  lemma FirstDeliverable<Id>(l: Loop<Id>) returns (n: nat)
    ensures var c := Deliver(l).1;
            && n <= |l.queue| && (c.None? <==> n == |l.queue|) && (forall j :: 0 <= j < n ==> !Deliverable(l, l.queue[j]))
            && (n < |l.queue| ==>
                  var slot := l.queue[n]; slot.fd.Some? && Deliverable(l, slot) && c == Some(Call(slot.fd.value, slot.events, slot.dropped)))
  {
    hide Deliver, Rises, Get, Busy, KeptFor;
    n := DeliverIs(l);
  }

  // ----- over whole runs -----

  /** Events of the descriptor have been fetched and are still to be looked at. */
  predicate Waiting<Id(==)>(l: Loop<Id>, id: Id, e: Events) {
    exists j :: 0 <= j < |l.queue| && l.queue[j].fd == Some(id) && l.queue[j].events == e
  }

  /** The step calls the callback with exactly these events, or leaves them kept for a call of it under way. */
  predicate AnsweredBy<Id(==)>(l: Loop<Id>, step: Step<Id>, id: Id, e: Events) {
    var (l', c) := Advance(l, step);
    (c.Some? && c.value.id == id && c.value.events == e) || KeptFor(l', id, e)
  }

  predicate Answered<Id(==)>(l: Loop<Id>, steps: seq<Step<Id>>, id: Id, e: Events)
    decreases |steps|
  {
    steps != [] && (AnsweredBy(l, steps[0], id, e) || Answered(Advance(l, steps[0]).0, steps[1..], id, e))
  }

  /** The step does not delete the descriptor. */
  predicate Spares<Id(==)>(step: Step<Id>, id: Id) {
    step != DeleteFd(id) && !(step.AddFd? && step.id == id && step.flags.wants == NOTHING)
  }

  lemma DeleteWaits<Id>(l: Loop<Id>, other: Id, id: Id, e: Events)
    requires Waiting(l, id, e) && other != id
    ensures Waiting(Delete(l, other), id, e) && Get(Delete(l, other), id).cb == Get(l, id).cb
  {
    hide Delete, Get, Find;
    DeleteStack(l, other);
    var j :| 0 <= j < |l.queue| && l.queue[j].fd == Some(id) && l.queue[j].events == e;
    assert Delete(l, other).queue[j].fd == Some(id);
  }

  lemma DeliverAnswers<Id>(l: Loop<Id>, id: Id, e: Events)
    requires Waiting(l, id, e) && Get(l, id).cb
    ensures var (l', c) := Deliver(l);
            && (Waiting(l', id, e) || (c.Some? && c.value.id == id && c.value.events == e) || KeptFor(l', id, e))
            && Get(l', id).cb
  {
    hide Deliver, Deliverable, Rises, Get, KeptFor;
    var n := DeliverIs(l);
    var (l', c) := Deliver(l);
    SameDescriptors(l, l');
    var j :| 0 <= j < |l.queue| && l.queue[j].fd == Some(id) && l.queue[j].events == e;
    if j < n && c.Some? {
      SameFor(l', l'.(queue := l.queue[n..]), id, e);
    } else if j > n && c.Some? {
      assert l'.queue[j - n - 1] == l.queue[j];
    }
  }

  lemma SameFor<Id>(l: Loop<Id>, l': Loop<Id>, id: Id, e: Events)
    requires l'.stack == l.stack
    ensures KeptFor(l', id, e) <==> KeptFor(l, id, e)
  {
  }

  /** Events that wait go on doing so until they are answered, unless the descriptor is deleted. */
  lemma StillWaits<Id>(l: Loop<Id>, step: Step<Id>, id: Id, e: Events)
    requires Waiting(l, id, e) && Get(l, id).cb && Spares(step, id)
    ensures Waiting(Advance(l, step).0, id, e) || AnsweredBy(l, step, id, e)
    ensures Get(Advance(l, step).0, id).cb
  {
    hide Deliver, Delete, KeptFor;
    match step
    case RunEvents(_) => DeliverAnswers(l, id, e);
    case Return =>
    case AddFd(other, flags) =>
      if flags.wants == NOTHING {
        DeleteWaits(l, other, id, e);
      }
    case DeleteFd(other) => DeleteWaits(l, other, id, e);
  }

  lemma {:induction false} WaitingIsAnswered<Id>(l: Loop<Id>, steps: seq<Step<Id>>, id: Id, e: Events)
    requires Waiting(l, id, e) && Get(l, id).cb && (forall k :: 0 <= k < |steps| ==> Spares(steps[k], id))
    ensures Answered(l, steps, id, e) || Waiting(Run(l, steps), id, e)
    decreases |steps|
  {
    hide Waiting, Get, Advance, AnsweredBy, Spares;
    if steps != [] {
      StillWaits(l, steps[0], id, e);
      if !AnsweredBy(l, steps[0], id, e) {
        assert forall k :: 0 <= k < |steps| - 1 ==> steps[1..][k] == steps[k + 1];
        WaitingIsAnswered(Advance(l, steps[0]).0, steps[1..], id, e);
      }
    }
  }

  /**
   No report is lost. What a fetch reports of a descriptor that has a callback is, by the time the events
   fetched are used up, answered: the callback has been called with exactly these events, or they
   have been kept for a call of it under way; unless the descriptor has been deleted meanwhile.
   */
  lemma ReportIsAnswered<Id>(l: Loop<Id>, raws: seq<Raw<Id>>, k: nat, steps: seq<Step<Id>>)
    requires GoodStep(l, RunEvents(raws)) && l.queue == [] && k < |raws| && Says(raws[k]) && Get(l, raws[k].id).cb
    requires forall i :: 0 <= i < |steps| ==> Spares(steps[i], raws[k].id)
    requires Run(Advance(l, RunEvents(raws)).0, steps).queue == []
    ensures Answered(l, [RunEvents(raws)] + steps, raws[k].id, raws[k].events)
  {
    hide Fetch, Deliver, Get, Says, KeptFor, Spares, Answered;
    var l1, step, id, e := Fetch(l, raws), RunEvents(raws), raws[k].id, raws[k].events;
    FetchedSlot(l, raws, k);
    assert Waiting(l1, id, e);
    DeliverAnswers(l1, id, e);
    var l' := Advance(l, step).0;
    if !AnsweredBy(l, step, id, e) {
      WaitingIsAnswered(l', steps, id, e);
    }
    AnsweredFirst(l, step, steps, id, e);
  }

  lemma AnsweredFirst<Id>(l: Loop<Id>, step: Step<Id>, steps: seq<Step<Id>>, id: Id, e: Events)
    ensures Answered(l, [step] + steps, id, e) <==> AnsweredBy(l, step, id, e) || Answered(Advance(l, step).0, steps, id, e)
  {
    hide Advance, AnsweredBy;
    assert ([step] + steps)[1..] == steps;
  }

  // ----- who is registered -----

  /** A descriptor is registered exactly if it has been added and, since then, not deleted, nor dropped by a fetch. */
  lemma StepRegisters<Id>(l: Loop<Id>, step: Step<Id>, id: Id)
    requires GoodStep(l, step)
    ensures var s, s' := Get(l, id), Get(Advance(l, step).0, id);
            && s'.cb == s.cb
            && (if step.AddFd? && step.id == id && step.flags.wants != NOTHING then s'.registered && s'.flags == step.flags
                else if !Spares(step, id) || (Fetching(l, step) && Dropped(l, step.raws, id)) then !s'.registered
                else s' == s)
  {
    hide Fetch, Deliver, Delete, Drops;
    match step
    case RunEvents(raws) =>
      var l1 := if l.queue == [] then Fetch(l, raws) else l;
      if l.queue == [] {
        FetchIs(l, raws);
        if !Dropped(l, raws, id) {
          FetchSock(l, raws, id);
        }
      }
      DeliverPicks(l1);
      SameDescriptors(l1, Deliver(l1).0);
    case Return =>
    case AddFd(other, flags) => DeleteStack(l, other);
    case DeleteFd(other) => DeleteStack(l, other);
  }

  /** A fetch leaves a descriptor that it does not drop as it was. */
  lemma {:induction false} FetchSock<Id>(l: Loop<Id>, raws: seq<Raw<Id>>, id: Id)
    requires Distinct(raws) && !Dropped(l, raws, id)
    ensures Get(Fetch(l, raws), id) == Get(l, id)
    decreases |raws|
  {
    hide Delete, Get, Drops;
    if raws != [] {
      var r := raws[0];
      var l1 := if Drops(l, r) then Delete(l.(queue := []), r.id).(queue := l.queue) else l;
      var said := r.error || r.hangup || r.events != NOTHING;
      var l2 := l1.(queue := l1.queue + [Slot(if said then Some(r.id) else None, r.events, Drops(l, r))]);
      FetchOnce(l, raws);
      DropOne(l, r, l1, l2);
      QueueOnly(l1, l2.queue);
      assert Drops(l, r) ==> id != r.id;
      assert forall k :: 0 <= k < |raws| - 1 ==> raws[1..][k] == raws[k + 1] && raws[k + 1].id != r.id;
      DroppedRest(l, l2, raws, id);
      FetchSock(l2, raws[1..], id);
    }
  }
}
