/**
 The descriptor side of src/libubox/uloop.c as it is in memory: the array of fetched events with
 its two counters, and the stack of frames linked through `next`. Each method is tied to the
 function of Dispatch that says what it does to the loop as a value.
 */
module EventLoop {
  import opened Options
  import opened Dispatch

  /** The size of `cur_fds`. */
  const MAX_EVENTS: nat := 10

  /** A struct uloop_fd. */
  class Fd {
    var registered: bool
    var flags: Flags
    const cb: bool

    constructor (cb: bool)
      ensures !registered && flags == Flags(NOTHING, false, false) && this.cb == cb
    {
      registered, flags, this.cb := false, Flags(NOTHING, false, false), cb;
    }

    ghost function Value(): Sock
      reads this
    {
      Sock(registered, flags, cb)
    }
  }

  /** A struct uloop_fd_stack. */
  class StackFrame {
    const next: StackFrame?
    var fd: Option<Fd>
    var events: Events

    constructor (fd: Fd, next: StackFrame?)
      ensures this.next == next && this.fd == Some(fd) && events == NOTHING
    {
      this.next, this.fd, events := next, Some(fd), NOTHING;
    }

    ghost predicate Shows(f: Frame<Fd>)
      reads this
    {
      fd == f.fd && events == f.events
    }
  }

  ghost predicate NoTwice(s: seq<StackFrame>) { forall i, j :: 0 <= i < j < |s| ==> s[i] != s[j] }

  class FdLoop {
    const curFds: array<Slot<Fd>>
    var curFd: nat
    var curNfds: nat
    var fdStack: StackFrame?
    ghost var frames: seq<StackFrame>
    ghost var fds: set<Fd>
    ghost var socks: map<Fd, Sock>
    ghost var queue: seq<Slot<Fd>>
    ghost var stack: seq<Frame<Fd>>

    ghost function Model(): Dispatch.Loop<Fd>
      reads this`socks, this`queue, this`stack
    {
      Loop(socks, queue, stack)
    }

    ghost predicate Stacked()
      reads this`stack, this`fdStack, this`frames, this`fds, frames
    {
      && |stack| == |frames| && NoTwice(frames)
      && fdStack == (if frames == [] then null else frames[0])
      && (forall i {:trigger frames[i].next} :: 0 <= i < |frames| ==>
            frames[i].next == if i + 1 < |frames| then frames[i + 1] else null)
      && (forall i :: 0 <= i < |frames| ==> frames[i].Shows(stack[i]))
      && (forall i :: 0 <= i < |frames| ==> stack[i].past.owner in fds
                                            && (stack[i].fd.Some? ==> stack[i].fd.value in fds))
    }

    ghost predicate Queued()
      reads this`queue, this`curFd, this`curNfds, this`fds, curFds
    {
      && curFds.Length == MAX_EVENTS && curFd + curNfds <= MAX_EVENTS
      && |queue| == curNfds
      && (forall j {:trigger curFds[j]} :: curFd <= j < curFd + curNfds ==> curFds[j] == queue[j - curFd])
      && (forall i :: 0 <= i < |queue| ==> queue[i].fd.Some? ==> queue[i].fd.value in fds)
    }

    ghost predicate Known()
      reads this`socks, this`fds, fds
    {
      socks.Keys == fds && (forall f :: f in fds ==> socks[f] == f.Value())
    }

    ghost predicate Valid()
      reads this, frames, fds, curFds
    {
      Stacked() && Queued() && Known()
    }

    constructor ()
      ensures Valid() && Model() == Loop(map[], [], []) && fresh(curFds) && fds == {}
    {
      curFds := new Slot<Fd>[MAX_EVENTS](_ => Slot(None, NOTHING, false));
      curFd, curNfds, fdStack := 0, 0, null;
      frames, fds, socks, queue, stack := [], {}, map[], [], [];
    }

    /** A descriptor the loop has not seen is as good as one it has deleted. */
    ghost method Meet(fd: Fd)
      requires Valid() && fd !in fds && fd.Value() == Get(Model(), fd)
      modifies this`fds, this`socks
      ensures Valid() && fds == old(fds) + {fd} && Model() == old(Model()).(socks := old(socks)[fd := fd.Value()])
    {
      fds, socks := fds + {fd}, socks[fd := fd.Value()];
    }

    lemma Parts(fd: Fd)
      requires Valid() && fd in fds
      ensures fd in socks && Get(Model(), fd) == fd.Value()
    {
    }

    /** The walk of uloop_fd_stack_event over the stack. */
    method FindFrame(fd: Fd) returns (cur: StackFrame?, ghost k: nat)
      requires Valid()
      ensures k == Find(stack, fd)
      ensures cur == if k < |frames| then frames[k] else null
    {
      cur, k := fdStack, 0;
      while cur != null
        invariant k <= |frames| && cur == (if k < |frames| then frames[k] else null)
        invariant k + Find(stack[k..], fd) == Find(stack, fd)
        decreases |frames| - k
      {
        assert cur.Shows(stack[k]) && stack[k..][1..] == stack[k + 1..];
        if cur.fd == Some(fd) {
          return;
        }
        assert frames[k].next == cur.next;
        cur := cur.next;
        k := k + 1;
      }
    }

    /** uloop_fd_stack_event; -1 for `events` is None. */
    method StackEvent(fd: Fd, events: Option<Events>) returns (found: bool)
      requires Valid() && fd in fds
      modifies this`stack, frames
      ensures Valid()
      ensures match events
              case Some(e) => (found, Model()) == Buffer(old(Model()), fd, e)
              case None => Model() == Detach(old(Model()), fd)
      ensures !found ==> Model() == old(Model())
    {
      hide NoTwice, Queued, Known, Get;
      Parts(fd);
      if !fd.flags.edge {
        return false;
      }
      var cur, k := FindFrame(fd);
      if cur == null {
        return false;
      }
      assert cur.Shows(stack[k]);
      match events {
        case None => SetFrame(cur, None, cur.events, k);
        case Some(e) => SetFrame(cur, cur.fd, Either(cur.events, e), k);
      }
      return true;
    }

    /** New contents for frame `k`. */
    method SetFrame(cur: StackFrame, fd: Option<Fd>, events: Events, ghost k: nat)
      requires Valid() && k < |frames| && cur == frames[k] && (fd.Some? ==> fd == cur.fd)
      modifies this`stack, cur`fd, cur`events
      ensures Valid() && Model() == old(Model()).(stack := old(stack)[k := Frame(fd, events, old(stack)[k].past)])
    {
      hide NoTwice, Queued, Known;
      FramesApart(frames, k);
      assert cur.Shows(stack[k]);
      cur.fd, cur.events := fd, events;
      stack := stack[k := Frame(fd, events, stack[k].past)];
    }

    /** The loop of uloop_fd_delete over the events not yet delivered. */
    method ClearQueue(fd: Fd)
      requires Valid()
      modifies this`queue, curFds
      ensures Valid() && Model() == old(Model()).(queue := Cleared(old(queue), fd))
      ensures curNfds == 0 ==> unchanged(curFds)
    {
      hide Stacked, Known, Cleared;
      var i := 0;
      ghost var before, after := queue, Cleared(queue, fd);
      while i < curNfds
        modifies curFds
        invariant i <= curNfds && (curNfds == 0 ==> unchanged(curFds))
        invariant forall j {:trigger curFds[j]} :: curFd <= j < curFd + i ==> curFds[j] == after[j - curFd]
        invariant forall j {:trigger curFds[j]} :: curFd + i <= j < curFd + curNfds ==> curFds[j] == before[j - curFd]
      {
        assert curFds[curFd + i] == before[i];
        if curFds[curFd + i].fd == Some(fd) {
          curFds[curFd + i] := curFds[curFd + i].(fd := None);
        }
        i := i + 1;
      }
      queue := after;
    }

    /** What the loop knows of a descriptor follows the descriptor. */
    ghost method Learn(fd: Fd)
      requires Stacked() && Queued() && fd in fds && socks.Keys == fds
      requires forall f :: f in fds && f != fd ==> socks[f] == f.Value()
      modifies this`socks
      ensures Valid() && Model() == old(Model()).(socks := old(socks)[fd := fd.Value()])
    {
      socks := socks[fd := fd.Value()];
    }

    /** History: the calls of a deleted descriptor are no longer intact. */
    ghost method BreakPast(fd: Fd)
      requires Valid()
      modifies this`stack
      ensures Valid() && Model() == old(Model()).(stack := Broken(old(stack), fd))
    {
      hide NoTwice, Queued, Known, Broken;
      stack := Broken(stack, fd);
    }

    /** uloop_fd_delete */
    method FdDelete(fd: Fd)
      requires Valid() && fd in fds
      modifies this`socks, this`queue, this`stack, frames, curFds, fd`registered, fd`flags
      ensures Valid() && Model() == Delete(old(Model()), fd)
      ensures curNfds == 0 ==> unchanged(curFds)
    {
      hide Stacked, Queued, Detach, Broken, Cleared;
      Parts(fd);
      DeleteInSteps(Model(), fd);
      ClearQueue(fd);
      if !fd.registered {
        return;
      }
      fd.registered := false;
      Learn(fd);
      var _ := StackEvent(fd, None);
      fd.flags := Flags(NOTHING, false, false);
      Learn(fd);
      BreakPast(fd);
    }

    /** uloop_fd_add, where registering with the kernel succeeds. */
    method FdAdd(fd: Fd, flags: Flags)
      requires Valid() && fd in fds
      modifies this`socks, this`queue, this`stack, frames, curFds, fd`registered, fd`flags
      ensures Valid() && Model() == Add(old(Model()), fd, flags)
    {
      hide Stacked, Queued, Delete;
      Parts(fd);
      if flags.wants == NOTHING {
        FdDelete(fd);
        return;
      }
      fd.flags := flags;
      fd.registered := true;
      Learn(fd);
    }

    /** uloop_fetch_events; `raws` is what the kernel reports. */
    method FetchEvents(raws: seq<Raw<Fd>>)
      requires Valid() && curNfds == 0 && |raws| <= MAX_EVENTS && (forall k :: 0 <= k < |raws| ==> raws[k].id in fds)
      modifies this`socks, this`queue, this`stack, this`curFd, this`curNfds, frames, curFds, fds`registered, fds`flags
      ensures Valid() && Model() == Fetch(old(Model()), raws)
    {
      hide Stacked, Known, Delete, Fetch, Get;
      curFd := 0;
      var n := 0;
      ghost var l := Model();
      while n < |raws|
        invariant n <= |raws| && Valid() && curNfds == 0 && curFd == 0
        invariant |l.queue| == n && (forall j {:trigger curFds[j]} :: 0 <= j < n ==> curFds[j] == l.queue[j])
        invariant Model() == l.(queue := [])
        invariant forall j :: 0 <= j < n ==> l.queue[j].fd.Some? ==> l.queue[j].fd.value in fds
        invariant Fetch(l, raws[n..]) == Fetch(old(Model()), raws)
      {
        assert raws[n..] == [raws[n]] + raws[n + 1..];
        var slot := FetchOne(raws[n], l.queue, raws[n + 1..]);
        curFds[n] := slot;
        l := Model().(queue := l.queue + [slot]);
        n := n + 1;
      }
      FetchNone(l);
      assert raws[n..] == [];
      curNfds := n;
      queue := l.queue;
    }

    /** A round of the loop of uloop_fetch_events; `had` are the events fetched before, `rest` those to come. */
    method FetchOne(r: Raw<Fd>, ghost had: seq<Slot<Fd>>, ghost rest: seq<Raw<Fd>>) returns (slot: Slot<Fd>)
      requires Valid() && curNfds == 0 && r.id in fds
      modifies this`socks, this`queue, this`stack, frames, curFds, r.id`registered, r.id`flags
      ensures Valid() && unchanged(curFds) && (slot.fd.Some? ==> slot.fd.value in fds) && queue == []
      ensures Fetch(old(Model()).(queue := had), [r] + rest) == Fetch(Model().(queue := had + [slot]), rest)
    {
      hide Stacked, Known, Delete;
      Parts(r.id);
      NoneLeft();
      var drop := r.error && !r.id.flags.errorCb;
      if drop {
        FdDelete(r.id);
        NoneLeft();
      }
      var said := r.error || r.hangup || r.events != NOTHING;
      slot := Slot(if said then Some(r.id) else None, r.events, drop);
      assert ([r] + rest)[1..] == rest;
    }

    lemma FetchNone(l: Dispatch.Loop<Fd>)
      ensures Fetch(l, []) == l
    {
    }

    lemma NoneLeft()
      requires Valid() && curNfds == 0
      ensures queue == []
    {
    }

    /** The first of the events not yet delivered is taken. */
    method Take() returns (cur: Slot<Fd>)
      requires Valid() && curNfds > 0
      modifies this`curFd, this`curNfds, this`queue
      ensures Valid() && old(queue) != [] && cur == old(queue)[0] && (cur.fd.Some? ==> cur.fd.value in fds)
      ensures Model() == old(Model()).(queue := old(queue)[1..])
    {
      hide Stacked, Known;
      cur := curFds[curFd];
      curFd := curFd + 1;
      curNfds := curNfds - 1;
      queue := queue[1..];
    }

    /** A new frame for the callback about to be called. */
    method Push(fd: Fd)
      requires Valid() && fd in fds
      modifies this`fdStack, this`frames, this`stack
      ensures Valid() && frames != [] && fresh(frames[0]) && frames == [frames[0]] + old(frames)
      ensures Model() == old(Model()).(stack := [Frame(Some(fd), NOTHING, Past(fd, Edge(old(Model()), fd), true))] + old(stack))
    {
      hide Queued, Known;
      var cur := new StackFrame(fd, fdStack);
      fdStack := cur;
      frames := [cur] + frames;
      stack := [Frame(Some(fd), NOTHING, Past(fd, Edge(Model(), fd), true))] + stack;
      assert forall i :: 0 < i < |frames| ==> frames[i] == old(frames)[i - 1];
    }

    /** uloop_run_events, up to the first call of a callback. */
    method RunEvents(raws: seq<Raw<Fd>>) returns (call: Option<Call<Fd>>)
      requires Valid() && |raws| <= MAX_EVENTS && (forall k :: 0 <= k < |raws| ==> raws[k].id in fds)
      modifies this, frames, curFds, fds`registered, fds`flags
      ensures Valid() && fds == old(fds)
      ensures (Model(), call) == Advance(old(Model()), Step.RunEvents(raws))
    {
      hide Stacked, Known, Queued, Fetch, Buffer;
      Counted();
      if curNfds == 0 {
        FetchEvents(raws);
      }
      ghost var want := Deliver(Model());
      Counted();
      while curNfds > 0
        invariant Valid() && fds == old(fds) && frames == old(frames) && curNfds == |queue|
        invariant Deliver(Model()) == want
      {
        var cur := Take();
        Counted();
        if cur.fd.None? {
          continue;
        }
        var fd := cur.fd.value;
        Parts(fd);
        if !fd.cb {
          continue;
        }
        var kept := StackEvent(fd, Some(cur.events));
        Counted();
        if kept {
          continue;
        }
        Push(fd);
        return Some(Call(fd, cur.events, cur.dropped));
      }
      return None;
    }

    /** The end of uloop_run_events, when the innermost callback has returned: called again, or its frame taken off. */
    method CallbackReturned() returns (call: Option<Call<Fd>>)
      requires Valid() && fdStack != null
      modifies this`fdStack, this`frames, this`stack, frames
      ensures Valid() && (Model(), call) == Advance(old(Model()), Return)
    {
      hide Queued, Known;
      var cur := fdStack;
      FramesApart(frames, 0);
      assert cur.Shows(stack[0]) && frames[0].next == cur.next;
      var events := cur.events;
      if cur.fd.Some? && events != NOTHING {
        cur.events := NOTHING;
        stack := stack[0 := stack[0].(events := NOTHING)];
        return Some(Call(cur.fd.value, events, false));
      }
      fdStack := cur.next;
      frames := frames[1..];
      stack := stack[1..];
      return None;
    }

    lemma Counted()
      requires Valid()
      ensures curNfds == |queue|
    {
    }
  }

  /** Deletion as the source does it, one assignment after the other. */
  lemma DeleteInSteps(l: Dispatch.Loop<Fd>, id: Fd)
    requires id in l.socks
    ensures var l1 := l.(queue := Cleared(l.queue, id));
            var l2 := l1.(socks := l1.socks[id := l.socks[id].(registered := false)]);
            var l3 := Detach(l2, id);
            var l4 := l3.(socks := l3.socks[id := Sock(false, Flags(NOTHING, false, false), l.socks[id].cb)]);
            Delete(l, id) == if !l.socks[id].registered then l1 else l4.(stack := Broken(l4.stack, id))
  {
    hide Cleared, Broken, Find;
  }

  lemma FramesApart(s: seq<StackFrame>, k: nat)
    requires NoTwice(s) && k < |s|
    ensures forall i :: 0 <= i < |s| && i != k ==> s[i] != s[k]
  {
  }
}
