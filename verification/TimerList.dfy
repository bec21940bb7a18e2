/**
 The timer list of src/libubox/uloop.c as it is in memory: timers in a ring of next and prev
 pointers (src/libubox/list.h) around a list head. Each method is tied to the function of Timers
 that says what it does to the list as a value.
 */
module TimerList {
  import opened Timers

  /** A struct uloop_timeout, or the list head. */
  class Timer {
    var next: Timer?
    var prev: Timer?
    var pending: bool
    var time: Tv

    constructor ()
      ensures !pending
    {
      next, prev, pending, time := null, null, false, Tv(0, 0);
    }
  }

  ghost predicate Distinct(s: seq<Timer>) { forall i, j :: 0 <= i < j < |s| ==> s[i] != s[j] }

  /** The head, the timers in order, and the head again. */
  ghost function Nodes(head: Timer, ring: seq<Timer>): seq<Timer> { [head] + ring + [head] }

  class Loop {
    const head: Timer
    ghost var ring: seq<Timer>
    ghost var list: seq<Item<Timer>>
    /** Every timer ever given to the loop. */
    ghost var all: set<Timer>

    ghost predicate Linked()
      reads this`ring, this`all, all`next, all`prev, head`next, head`prev
    {
      var nodes := Nodes(head, ring);
      && head !in all && (forall i :: 0 <= i < |ring| ==> ring[i] in all) && Distinct(ring)
      && (forall i {:trigger nodes[i].next} :: 0 <= i <= |ring| ==> nodes[i].next == nodes[i + 1])
      && (forall i {:trigger nodes[i].prev} :: 0 < i <= |ring| + 1 ==> nodes[i].prev == nodes[i - 1])
    }

    /** A timer is pending iff it is in the list, and there only once; the list shows its time. */
    ghost predicate Shown()
      reads this, all
    {
      && |list| == |ring|
      && (forall i :: 0 <= i < |ring| ==> ring[i] in all && list[i] == Item(ring[i], ring[i].time))
      && (forall t :: t in all ==> (t.pending <==> t in ring))
    }

    ghost predicate Valid()
      reads this, all, head
    {
      Linked() && Shown()
    }

    /** LIST_HEAD_INIT */
    constructor ()
      ensures Valid() && list == [] && fresh(head) && all == {}
    {
      var h := new Timer();
      head := h;
      ring, list, all := [], [], {};
      new;
      head.next := head;
      head.prev := head;
    }

    /** list_add_tail of `t` before entry `k` of the ring, or before the head. */
    method Insert(t: Timer, before: Timer, ghost k: nat)
      requires Linked() && t in all && t !in ring && k <= |ring| && before == Nodes(head, ring)[k + 1]
      modifies this`ring, all`next, all`prev, head`next, head`prev
      ensures Linked() && ring == old(ring[..k] + [t] + ring[k..]) && t in ring
    {
      hide Distinct, Nodes;
      ghost var nodes := Nodes(head, ring);
      NodesInsert(head, ring, k, t);
      DistinctInsert(ring, k, t);
      NodesApart(head, ring, k);
      var prev := before.prev;
      assert nodes[k + 1].prev == nodes[k] && nodes[k].next == before;
      before.prev := t;
      t.next := before;
      t.prev := prev;
      prev.next := t;
      ring := ring[..k] + [t] + ring[k..];
      assert ring[k] == t;
    }

    lemma NodesIn(head: Timer, s: seq<Timer>)
      ensures forall i {:trigger Nodes(head, s)[i]} :: 0 <= i < |s| + 2 ==> Nodes(head, s)[i] == head || Nodes(head, s)[i] in s
      ensures |Nodes(head, s)| == |s| + 2
    {
    }

    /** _list_del of entry `k` of the ring. */
    method Remove(t: Timer, ghost k: nat)
      requires Linked() && k < |ring| && ring[k] == t
      modifies this`ring, all`next, all`prev, head`next, head`prev
      ensures Linked() && ring == old(ring[..k] + ring[k + 1..]) && t !in ring
    {
      hide Distinct;
      ghost var nodes := Nodes(head, ring);
      DistinctRemove(ring, k);
      NodesApart(head, ring, k);
      NodesApart(head, ring, k + 1);
      assert t == nodes[k + 1] && nodes[k + 1].next == nodes[k + 2] && nodes[k + 1].prev == nodes[k];
      t.next.prev := t.prev;
      t.prev.next := t.next;
      t.next, t.prev := null, null;
      ring := ring[..k] + ring[k + 1..];
      assert Nodes(head, ring) == nodes[..k + 1] + nodes[k + 2..];
    }

    /** uloop_timeout_add: 0, or -1 for a timer that is pending already. */
    method Add(t: Timer) returns (r: int)
      requires Valid() && t != head && (t !in all ==> !t.pending)
      modifies this, all, head, t
      ensures Valid() && all == old(all) + {t}
      ensures forall u :: u in all ==> u.time == old(u.time)
      ensures r == if old(t.pending) then -1 else 0
      ensures list == if old(t.pending) then old(list) else Timers.Add(old(list), Item(t, t.time))
    {
      if t.pending {
        return -1;
      }
      Adopt(t);
      var h, k := FindPlace(t);
      Enter(t, h, k);
      return 0;
    }

    ghost method Adopt(t: Timer)
      requires Valid() && t != head && !t.pending
      modifies this`all
      ensures Valid() && all == old(all) + {t}
    {
      hide Distinct, Nodes;
      NodesIn(head, ring);
      all := all + {t};
    }

    /** The end of uloop_timeout_add. */
    method Enter(t: Timer, h: Timer, ghost k: nat)
      requires Valid() && t in all && !t.pending && k <= |ring| && h == Nodes(head, ring)[k + 1]
      modifies this, all`next, all`prev, head`next, head`prev, t`pending
      ensures Valid() && all == old(all)
      ensures list == old(list[..k]) + [Item(t, t.time)] + old(list[k..])
    {
      hide Linked;
      Insert(t, h, k);
      t.pending := true;
      list := list[..k] + [Item(t, t.time)] + list[k..];
    }

    /** The search of uloop_timeout_add: the first entry that is later, or the head. */
    method FindPlace(t: Timer) returns (h: Timer, ghost k: nat)
      requires Valid()
      ensures k == Place(list, t.time) && k <= |ring| && h == Nodes(head, ring)[k + 1]
    {
      ghost var nodes := Nodes(head, ring);
      assert nodes[0] == head && nodes[0].next == nodes[1];
      var tmp := head.next;
      h, k := head, 0;
      while tmp != head
        invariant k <= |ring| && tmp == nodes[k + 1]
        invariant k + Place(list[k..], t.time) == Place(list, t.time)
        decreases |ring| - k
      {
        assert tmp == ring[k] && list[k].time == tmp.time && list[k..][1..] == list[k + 1..];
        if TvDiff(tmp.time, t.time) > 0 {
          return tmp, k;
        }
        assert nodes[k + 1].next == nodes[k + 2];
        tmp := tmp.next;
        k := k + 1;
      }
    }

    /** uloop_timeout_cancel: 0, or -1 for a timer that is not pending. */
    method Cancel(t: Timer) returns (r: int)
      requires Valid() && t != head && (t !in all ==> !t.pending)
      modifies this, all, head, t
      ensures Valid() && all == old(all) && !t.pending
      ensures forall u :: u in all ==> u.time == old(u.time)
      ensures t !in all ==> t.time == old(t.time)
      ensures r == (if old(t.pending) then 0 else -1)
      ensures list == Timers.Cancel(old(list), t)
    {
      hide Linked, Timers.Cancel;
      if !t.pending {
        NotListed(t);
        return -1;
      }
      ghost var k :| 0 <= k < |ring| && ring[k] == t;
      Unlisted(k);
      Leave(t, k);
      return 0;
    }

    /** The rest of uloop_timeout_cancel. */
    method Leave(t: Timer, ghost k: nat)
      requires Valid() && t in all && k < |ring| && ring[k] == t
      modifies this, all`next, all`prev, head`next, head`prev, t`pending
      ensures Valid() && all == old(all) && !t.pending
      ensures list == old(list[..k]) + old(list[k + 1..])
    {
      hide Linked;
      Remove(t, k);
      t.pending := false;
      list := list[..k] + list[k + 1..];
    }

    /** uloop_timeout_set; `now` is what the clock says. */
    method Set(t: Timer, msecs: int, now: Tv) returns (r: int)
      requires Valid() && t != head && (t !in all ==> !t.pending)
      modifies this, all, head, t
      ensures Valid() && all == old(all) + {t} && r == 0
      ensures list == Timers.Set(old(list), t, msecs, now)
    {
      hide Linked, Shown, Place, Timers.Cancel;
      if t.pending {
        var _ := Cancel(t);
      } else {
        NotPending(t);
      }
      SetTime(t, now);
      var usec := t.time.usec + Rest(msecs, 1000) * 1000;
      SetTime(t, Tv(t.time.sec + Trunc(msecs, 1000), usec));
      if t.time.usec > 1000000 {
        SetTime(t, Tv(t.time.sec + 1, t.time.usec - 1000000));
      }
      r := Add(t);
    }

    /** A timer that is not pending may take any time. */
    method SetTime(t: Timer, time: Tv)
      requires Valid() && t != head && !t.pending
      modifies t`time
      ensures Valid() && t.time == time
    {
      hide Linked;
      t.time := time;
    }

    lemma NotPending(t: Timer)
      requires Valid() && !t.pending
      ensures Timers.Cancel(list, t) == list
    {
      NotListed(t);
    }

    /** uloop_get_next_timeout */
    method NextTimeout(now: Tv) returns (r: int)
      requires Valid()
      ensures r == Timers.NextTimeout(list, now)
    {
      var first := First();
      if first == null {
        return -1;
      }
      var diff := TvDiff(first.time, now);
      if diff < 0 {
        return 0;
      }
      return diff;
    }

    /** list_first_entry, or null for an empty list. */
    method First() returns (t: Timer?)
      requires Valid()
      ensures t == null <==> list == []
      ensures t != null ==> t in all && t != head && t.pending && list[0] == Item(t as Timer, t.time)
    {
      ghost var nodes := Nodes(head, ring);
      assert nodes[0] == head && nodes[0].next == nodes[1];
      if head.next == head {
        return null;
      }
      assert nodes[1] == ring[0];
      t := head.next;
    }

    /** What a callback does. */
    method Act(ops: seq<Op<Timer>>)
      requires Valid() && forall k :: 0 <= k < |ops| ==> ops[k].id in all
      modifies this, all, head
      ensures Valid() && all == old(all) && list == ApplyAll(old(list), ops)
    {
      hide Linked, Shown, Timers.Set, Timers.Cancel, Valid;
      ghost var was := list;
      var i := 0;
      while i < |ops|
        invariant i <= |ops| && Valid() && all == old(all) && ApplyAll(list, ops[i..]) == ApplyAll(was, ops)
      {
        assert ops[i..][1..] == ops[i + 1..];
        HeadApart();
        match ops[i] {
          case OpSet(id, msecs, now) =>
            var _ := Set(id, msecs, now);
          case OpCancel(id) =>
            var _ := Cancel(id);
        }
        i := i + 1;
      }
    }

    lemma HeadApart()
      requires Valid()
      ensures head !in all
    {
    }

    /** uloop_process_timeouts; `fired` are the timers whose callbacks ran, with their deadlines. */
    method Process(now: Tv, script: Script<Timer>, ghost from: int) returns (ghost fired: seq<Item<Timer>>)
      requires Valid() && Good(list, from) && Clock(now, from) && GoodScript(script, now, from)
      requires forall k :: 0 <= k < |script| ==> forall j :: 0 <= j < |script[k]| ==> script[k][j].id in all
      modifies this, all, head
      ensures Valid() && all == old(all) && (list, fired) == Timers.Process(old(list), now, script, from)
    {
      hide Linked, Shown, Timers.Cancel, Timers.Process, Good, GoodScript, Valid, TvDiff, DueCount, ApplyAll, FiredThen;
      fired := [];
      ghost var want := FiredThen(fired, Timers.Process(list, now, script, from));
      NoneFired(Timers.Process(list, now, script, from));
      var k, go := 0, true;
      while go
        invariant Valid() && all == old(all) && k <= |script| && Good(list, from)
        invariant GoodScript(script[k..], now, from)
        invariant if go then FiredThen(fired, Timers.Process(list, now, script[k..], from)) == want else (list, fired) == want
        decreases go, |script| - k, DueCount(list, now)
      {
        var t := First();
        if t == null || TvDiff(t.time, now) > 0 {
          ProcessStops(list, now, script[k..], from, fired);
          go := false;
        } else {
          HeadApart();
          ProcessFires(list, now, script[k..], from, fired);
          fired := fired + [list[0]];
          var ops := if k < |script| then script[k] else [];
          assert script[k..] != [] ==> script[k..][1..] == script[k + 1..];
          var _ := Cancel(t);
          Act(ops);
          k := if k < |script| then k + 1 else k;
        }
      }
    }

    lemma NoneFired(r: (seq<Item<Timer>>, seq<Item<Timer>>))
      ensures FiredThen([], r) == r
    {
      assert [] + r.1 == r.1;
    }

    lemma NotListed(t: Timer)
      requires Valid() && t !in ring
      ensures Timers.Cancel(list, t) == list
    {
      CancelAt(list, t);
    }

    lemma Unlisted(k: nat)
      requires Valid() && k < |ring|
      ensures Timers.Cancel(list, ring[k]) == list[..k] + list[k + 1..] && Unique(list)
    {
      CancelIs(list, ring[k], k);
    }
  }

  lemma DistinctInsert(s: seq<Timer>, k: nat, t: Timer)
    requires Distinct(s) && k <= |s| && t !in s
    ensures Distinct(s[..k] + [t] + s[k..])
  {
    var s' := s[..k] + [t] + s[k..];
    assert forall i :: 0 <= i < |s'| && i != k ==> s'[i] == s[if i < k then i else i - 1];
  }

  lemma NodesInsert(head: Timer, s: seq<Timer>, k: nat, t: Timer)
    requires k <= |s| && t != head && t !in s
    ensures var nodes := Nodes(head, s);
            var now := Nodes(head, s[..k] + [t] + s[k..]);
            && |now| == |s| + 3 && |nodes| == |s| + 2 && now[k + 1] == t
            && (forall i {:trigger now[i]} :: 0 <= i <= k ==> now[i] == nodes[i])
            && (forall i {:trigger now[i]} :: k + 1 < i < |s| + 3 ==> now[i] == nodes[i - 1])
            && (forall i {:trigger nodes[i]} :: 0 <= i < |nodes| ==> nodes[i] != t && (nodes[i] == head || nodes[i] in s))
  {
  }

  lemma DistinctRemove(s: seq<Timer>, k: nat)
    requires Distinct(s) && k < |s|
    ensures Distinct(s[..k] + s[k + 1..]) && s[k] !in s[..k] + s[k + 1..]
  {
    var s' := s[..k] + s[k + 1..];
    assert forall i :: 0 <= i < |s'| ==> s'[i] == s[if i < k then i else i + 1];
  }

  /** Among the nodes only the two ends are the same object. */
  lemma NodesApart(head: Timer, s: seq<Timer>, k: nat)
    requires Distinct(s) && head !in s && k <= |s|
    ensures forall i :: 0 <= i <= |s| && i != k ==> Nodes(head, s)[i] != Nodes(head, s)[k]
    ensures forall i :: 0 < i <= |s| + 1 && i != k + 1 ==> Nodes(head, s)[i] != Nodes(head, s)[k + 1]
  {
  }
}
