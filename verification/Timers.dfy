/**
 The timers of src/libubox/uloop.c on values. They are kept in an order decided by a difference in
 milliseconds that truncates, and so is not an order at all; it still bounds how early or late a
 timer may fire.
 */
module Timers {

  /** A struct timeval; uloop_timeout_set can leave 1000000 in `usec`, and less than nothing. */
  datatype Tv = Tv(sec: int, usec: int)

  const MILLION := 1000000

  predicate GoodTv(t: Tv) { -MILLION < t.usec <= MILLION }

  /** The moment meant, in microseconds. */
  function Micros(t: Tv): int { t.sec * MILLION + t.usec }

  /** Division that truncates toward zero. */
  function Trunc(a: int, b: int): int
    requires b > 0
  {
    if a >= 0 then a / b else -((-a) / b)
  }

  /** What such a division leaves, with the sign of `a`. */
  function Rest(a: int, b: int): (r: int)
    requires b > 0
    ensures -b < r < b && (a >= 0 ==> r >= 0) && (a <= 0 ==> r <= 0)
  {
    a - b * Trunc(a, b)
  }

  /** Conversion to a 32-bit int. */
  function Int32(x: int): int { (x + 0x8000_0000) % 0x1_0000_0000 - 0x8000_0000 }

  function TvDiff(a: Tv, b: Tv): int { Int32((a.sec - b.sec) * 1000 + Trunc(a.usec - b.usec, 1000)) }

  /** Moments close enough for the difference to fit an int: about 24 days. */
  const SPAN := 2147483000000

  /** What the sign of the truncated difference tells, and how far the difference is off. */
  lemma DiffBounds(a: Tv, b: Tv)
    requires GoodTv(a) && GoodTv(b) && -SPAN < Micros(a) - Micros(b) < SPAN
    ensures -1000 < Micros(a) - Micros(b) - 1000 * TvDiff(a, b) < 1000
    ensures TvDiff(a, b) > 0 ==> Micros(a) > Micros(b)
    ensures TvDiff(a, b) <= 0 ==> Micros(a) - Micros(b) < 1000
    ensures Micros(a) - Micros(b) >= 1000 ==> TvDiff(a, b) > 0
  {
    var u := a.usec - b.usec;
    var q := Trunc(u, 1000);
    assert -1000 < u - 1000 * q < 1000;
    var d := (a.sec - b.sec) * 1000 + q;
    assert 1000 * d == Micros(a) - Micros(b) - (u - 1000 * q);
    assert -0x8000_0000 <= d < 0x8000_0000;
    assert Int32(d) == d;
  }

  /** The difference does not order moments: two can be a millisecond apart, and each as good as a third. */
  lemma DiffNotOrder()
    ensures TvDiff(Tv(0, 1200), Tv(0, 600)) == 0 && TvDiff(Tv(0, 600), Tv(0, 0)) == 0
    ensures TvDiff(Tv(0, 1200), Tv(0, 0)) == 1
  {
    DiffBounds(Tv(0, 1200), Tv(0, 600));
    DiffBounds(Tv(0, 600), Tv(0, 0));
    DiffBounds(Tv(0, 1200), Tv(0, 0));
  }

  // ----- the list -----

  datatype Item<T> = Item(id: T, time: Tv)

  /** The place before the first entry that is later, by the truncated difference. */
  function Place<T>(l: seq<Item<T>>, time: Tv): (k: nat)
    ensures k <= |l|
  {
    if l == [] || TvDiff(l[0].time, time) > 0 then 0 else 1 + Place(l[1..], time)
  }

  /** uloop_timeout_add, of a timer that is not pending. */
  function Add<T>(l: seq<Item<T>>, x: Item<T>): seq<Item<T>> {
    var k := Place(l, x.time);
    l[..k] + [x] + l[k..]
  }

  predicate Pending<T(==)>(l: seq<Item<T>>, id: T) { exists i :: 0 <= i < |l| && l[i].id == id }

  /** uloop_timeout_cancel */
  function Cancel<T(==)>(l: seq<Item<T>>, id: T): seq<Item<T>> {
    if l == [] then [] else if l[0].id == id then l[1..] else [l[0]] + Cancel(l[1..], id)
  }

  /** The time uloop_timeout_set computes from the clock. */
  function Deadline(now: Tv, msecs: int): Tv {
    var sec := now.sec + Trunc(msecs, 1000);
    var usec := now.usec + Rest(msecs, 1000) * 1000;
    if usec > MILLION then Tv(sec + 1, usec - MILLION) else Tv(sec, usec)
  }

  function Set<T(==)>(l: seq<Item<T>>, id: T, msecs: int, now: Tv): seq<Item<T>> {
    Add(Cancel(l, id), Item(id, Deadline(now, msecs)))
  }

  /** No timer is in the list twice. */
  predicate Unique<T(==)>(l: seq<Item<T>>) { forall i, j :: 0 <= i < j < |l| ==> l[i].id != l[j].id }

  /** An earlier entry's deadline exceeds a later one's by less than a millisecond. */
  predicate Ordered<T>(l: seq<Item<T>>) {
    forall i, j :: 0 <= i < j < |l| ==> Micros(l[i].time) - Micros(l[j].time) < 1000
  }

  /** All deadlines lie within one span from `from` on. */
  predicate Within<T>(l: seq<Item<T>>, from: int) {
    forall i :: 0 <= i < |l| ==> GoodTv(l[i].time) && from <= Micros(l[i].time) < from + SPAN
  }

  predicate Good<T(==)>(l: seq<Item<T>>, from: int) { Unique(l) && Ordered(l) && Within(l, from) }

  /** A clock reading: normal, and within the span. */
  predicate Clock(now: Tv, from: int) { 0 <= now.usec < MILLION && from <= Micros(now) < from + SPAN }

  lemma DeadlineExact(now: Tv, msecs: int)
    requires 0 <= now.usec < MILLION
    ensures GoodTv(Deadline(now, msecs)) && Micros(Deadline(now, msecs)) == Micros(now) + msecs * 1000
  {
  }

  lemma {:induction false} PlaceBounds<T>(l: seq<Item<T>>, time: Tv, from: int)
    requires Within(l, from) && GoodTv(time) && from <= Micros(time) < from + SPAN
    ensures var k := Place(l, time);
            && (forall i :: 0 <= i < k ==> Micros(l[i].time) - Micros(time) < 1000)
            && (k < |l| ==> Micros(l[k].time) > Micros(time))
  {
    if l != [] {
      DiffBounds(l[0].time, time);
      if TvDiff(l[0].time, time) <= 0 {
        PlaceBounds(l[1..], time, from);
        assert forall i :: 0 < i < |l| ==> l[i] == l[1..][i - 1];
      }
    }
  }

  /** Adding a timer keeps the order, and puts in that timer and nothing else. */
  lemma AddKeeps<T>(l: seq<Item<T>>, x: Item<T>, from: int)
    requires Good(l, from) && !Pending(l, x.id) && GoodTv(x.time) && from <= Micros(x.time) < from + SPAN
    ensures Good(Add(l, x), from) && multiset(Add(l, x)) == multiset(l) + multiset{x}
  {
    hide TvDiff, Micros, Place, Ordered, Unique;
    PlaceBounds(l, x.time, from);
    var k := Place(l, x.time);
    assert l == l[..k] + l[k..];
    Inserted(l, k, x);
  }

  lemma Inserted<T>(l: seq<Item<T>>, k: nat, x: Item<T>)
    requires k <= |l| && Ordered(l) && Unique(l) && !Pending(l, x.id)
    requires forall i :: 0 <= i < k ==> Micros(l[i].time) - Micros(x.time) < 1000
    requires k < |l| ==> Micros(l[k].time) > Micros(x.time)
    ensures var l' := l[..k] + [x] + l[k..]; Ordered(l') && Unique(l')
  {
    hide Micros;
    var l' := l[..k] + [x] + l[k..];
    forall i, j | 0 <= i < j < |l'| ensures Micros(l'[i].time) - Micros(l'[j].time) < 1000 && l'[i].id != l'[j].id {
      var a, b := if i < k then i else i - 1, if j < k then j else j - 1;
      if i == k {
        assert l'[j] == l[b] && Micros(l[k].time) - Micros(l[b].time) < 1000;
      } else if j == k {
        assert l'[i] == l[a];
      } else {
        assert l'[i] == l[a] && l'[j] == l[b];
      }
    }
  }

  /** Cancelling takes that timer out and nothing else. */
  lemma CancelKeeps<T>(l: seq<Item<T>>, id: T, from: int)
    requires Good(l, from)
    ensures Good(Cancel(l, id), from) && !Pending(Cancel(l, id), id)
    ensures forall x :: x in Cancel(l, id) <==> x in l && x.id != id
    ensures |Cancel(l, id)| == if Pending(l, id) then |l| - 1 else |l|
  {
    hide Micros, Cancel, Within, Ordered;
    CancelAt(l, id);
    if Pending(l, id) {
      var k :| 0 <= k < |l| && l[k].id == id;
      var l' := l[..k] + l[k + 1..];
      CancelIs(l, id, k);
      Without(l, k, from);
      forall x ensures x in l' <==> x in l && x.id != id {
        if x in l && x.id != id {
          var i :| 0 <= i < |l| && l[i] == x;
          assert x == l'[if i < k then i else i - 1];
        }
        if x in l' {
          var i :| 0 <= i < |l'| && l'[i] == x;
          assert x == l[if i < k then i else i + 1];
        }
      }
    }
  }

  lemma {:induction false} CancelAt<T>(l: seq<Item<T>>, id: T)
    ensures !Pending(l, id) ==> Cancel(l, id) == l
    decreases |l|
  {
    if l != [] {
      assert Pending(l, id) <== l[0].id == id;
      assert Pending(l[1..], id) ==> Pending(l, id) by {
        if Pending(l[1..], id) {
          var i :| 0 <= i < |l| - 1 && l[1..][i].id == id;
          assert l[i + 1].id == id;
        }
      }
      CancelAt(l[1..], id);
      assert l == [l[0]] + l[1..];
    }
  }

  lemma {:induction false} CancelIs<T>(l: seq<Item<T>>, id: T, k: nat)
    requires Unique(l) && k < |l| && l[k].id == id
    ensures Cancel(l, id) == l[..k] + l[k + 1..]
    decreases |l|
  {
    if k > 0 {
      CancelIs(l[1..], id, k - 1);
      assert l[..k] == [l[0]] + l[1..][..k - 1] && l[1..][k..] == l[k + 1..];
    }
  }

  lemma Without<T>(l: seq<Item<T>>, k: nat, from: int)
    requires Good(l, from) && k < |l|
    ensures var l' := l[..k] + l[k + 1..]; Good(l', from) && (forall i :: 0 <= i < |l'| ==> l'[i].id != l[k].id)
  {
    hide Micros;
    var l' := l[..k] + l[k + 1..];
    assert forall i :: 0 <= i < |l'| ==> l'[i] == l[if i < k then i else i + 1];
  }

  lemma SetKeeps<T>(l: seq<Item<T>>, id: T, msecs: int, now: Tv, from: int)
    requires Good(l, from) && Clock(now, from) && from <= Micros(now) + msecs * 1000 < from + SPAN
    ensures Good(Set(l, id, msecs, now), from)
    ensures multiset(Set(l, id, msecs, now)) == multiset(Cancel(l, id)) + multiset{Item(id, Deadline(now, msecs))}
  {
    hide Micros, Cancel, Add;
    CancelKeeps(l, id, from);
    DeadlineExact(now, msecs);
    AddKeeps(Cancel(l, id), Item(id, Deadline(now, msecs)), from);
  }

  // ----- firing -----

  /** What a callback, or anything else, does to the timers. */
  datatype Op<T> = OpSet(id: T, msecs: int, now: Tv) | OpCancel(id: T)

  function Apply<T(==)>(l: seq<Item<T>>, op: Op<T>): seq<Item<T>> {
    match op
    case OpSet(id, msecs, now) => Set(l, id, msecs, now)
    case OpCancel(id) => Cancel(l, id)
  }

  function ApplyAll<T(==)>(l: seq<Item<T>>, ops: seq<Op<T>>): seq<Item<T>>
    decreases |ops|
  {
    if ops == [] then l else ApplyAll(Apply(l, ops[0]), ops[1..])
  }

  /** Within the span, and not before `now`. */
  predicate GoodOp<T>(op: Op<T>, now: Tv, from: int) {
    op.OpSet? ==>
      && Clock(op.now, from) && Micros(now) <= Micros(op.now)
      && from <= Micros(op.now) + op.msecs * 1000 < from + SPAN
  }

  predicate GoodOps<T>(ops: seq<Op<T>>, now: Tv, from: int) {
    forall k :: 0 <= k < |ops| ==> GoodOp(ops[k], now, from)
  }

  /** Armed only for a millisecond or more from now. */
  predicate Later<T>(ops: seq<Op<T>>) { forall k :: 0 <= k < |ops| ==> ops[k].OpSet? ==> ops[k].msecs >= 1 }

  lemma ApplyKeeps<T>(l: seq<Item<T>>, op: Op<T>, now: Tv, from: int)
    requires Good(l, from) && GoodOp(op, now, from)
    ensures Good(Apply(l, op), from)
  {
    hide Set, Cancel, Good;
    match op
    case OpSet(id, msecs, clock) => SetKeeps(l, id, msecs, clock, from);
    case OpCancel(id) => CancelKeeps(l, id, from);
  }

  lemma {:induction false} ApplyAllKeeps<T>(l: seq<Item<T>>, ops: seq<Op<T>>, now: Tv, from: int)
    requires Good(l, from) && GoodOps(ops, now, from)
    ensures Good(ApplyAll(l, ops), from)
    decreases |ops|
  {
    hide Apply, Good, GoodOp;
    if ops != [] {
      ApplyKeeps(l, ops[0], now, from);
      ApplyAllKeeps(Apply(l, ops[0]), ops[1..], now, from);
    }
  }

  predicate Due<T>(x: Item<T>, now: Tv) { TvDiff(x.time, now) <= 0 }

  /** How many entries the loop would still fire. */
  function DueCount<T>(l: seq<Item<T>>, now: Tv): nat {
    if l == [] then 0 else (if Due(l[0], now) then 1 else 0) + DueCount(l[1..], now)
  }

  lemma {:induction false} DueCountAppend<T>(a: seq<Item<T>>, b: seq<Item<T>>, now: Tv)
    ensures DueCount(a + b, now) == DueCount(a, now) + DueCount(b, now)
    decreases |a|
  {
    if a == [] {
      assert a + b == b;
    } else {
      assert (a + b)[1..] == a[1..] + b;
      DueCountAppend(a[1..], b, now);
    }
  }

  lemma {:induction false} CancelCount<T>(l: seq<Item<T>>, id: T, now: Tv)
    ensures DueCount(Cancel(l, id), now) <= DueCount(l, now)
    ensures l != [] && l[0].id == id && Due(l[0], now) ==> DueCount(Cancel(l, id), now) < DueCount(l, now)
    decreases |l|
  {
    hide Due;
    if l != [] && l[0].id != id {
      CancelCount(l[1..], id, now);
      assert ([l[0]] + Cancel(l[1..], id))[1..] == Cancel(l[1..], id);
    }
  }

  /** Arming for a millisecond or more never adds to what is due. */
  lemma SetCount<T>(l: seq<Item<T>>, op: Op<T>, now: Tv, from: int)
    requires Clock(now, from) && GoodOp(op, now, from) && (op.OpSet? ==> op.msecs >= 1)
    ensures DueCount(Apply(l, op), now) <= DueCount(l, now)
  {
    hide TvDiff, Micros;
    match op
    case OpCancel(id) => CancelCount(l, id, now);
    case OpSet(id, msecs, clock) =>
      CancelCount(l, id, now);
      DeadlineExact(clock, msecs);
      var x := Item(id, Deadline(clock, msecs));
      DiffBounds(x.time, now);
      var rest := Cancel(l, id);
      var k := Place(rest, x.time);
      DueCountAppend(rest[..k], rest[k..], now);
      assert rest == rest[..k] + rest[k..];
      DueCountAppend(rest[..k] + [x], rest[k..], now);
      DueCountAppend(rest[..k], [x], now);
      assert [x][1..] == [];
  }

  lemma {:induction false} ApplyAllCount<T>(l: seq<Item<T>>, ops: seq<Op<T>>, now: Tv, from: int)
    requires Clock(now, from) && GoodOps(ops, now, from) && Later(ops)
    ensures DueCount(ApplyAll(l, ops), now) <= DueCount(l, now)
    decreases |ops|
  {
    hide Apply, GoodOp;
    if ops != [] {
      SetCount(l, ops[0], now, from);
      ApplyAllCount(Apply(l, ops[0]), ops[1..], now, from);
    }
  }

  /** What each callback does in turn; when the script runs out, nothing. */
  type Script<T> = seq<seq<Op<T>>>

  predicate GoodScript<T>(script: Script<T>, now: Tv, from: int) {
    forall k :: 0 <= k < |script| ==> GoodOps(script[k], now, from)
  }

  /**
   uloop_process_timeouts: the timers left, and those fired, in order, for as many callbacks as the
   script has something to do for, and those after them.
   */
  function Process<T(==)>(l: seq<Item<T>>, now: Tv, script: Script<T>, from: int): (seq<Item<T>>, seq<Item<T>>)
    requires Good(l, from) && Clock(now, from) && GoodScript(script, now, from)
    decreases |script|, DueCount(l, now)
  {
    if l == [] || !Due(l[0], now) then (l, [])
    else
      var ops := if script == [] then [] else script[0];
      FireKeeps(l, now, ops, from);
      var (l', fired) := Process(ApplyAll(Cancel(l, l[0].id), ops), now, if script == [] then [] else script[1..], from);
      (l', [l[0]] + fired)
  }

  /** One timer more, fired with what its callback does, and then the rest. */
  lemma ProcessFires<T>(l: seq<Item<T>>, now: Tv, script: Script<T>, from: int, fired: seq<Item<T>>)
    requires Good(l, from) && Clock(now, from) && GoodScript(script, now, from) && l != [] && Due(l[0], now)
    ensures var ops, rest := if script == [] then [] else script[0], if script == [] then [] else script[1..];
            var l' := ApplyAll(Cancel(l, l[0].id), ops);
            && Good(l', from) && GoodScript(rest, now, from)
            && (script == [] ==> DueCount(l', now) < DueCount(l, now))
            && FiredThen(fired, Process(l, now, script, from)) == FiredThen(fired + [l[0]], Process(l', now, rest, from))
  {
    hide Good, Due, Cancel;
    var ops, rest := if script == [] then [] else script[0], if script == [] then [] else script[1..];
    FireKeeps(l, now, ops, from);
    var later := Process(ApplyAll(Cancel(l, l[0].id), ops), now, rest, from).1;
    assert fired + ([l[0]] + later) == (fired + [l[0]]) + later;
  }

  /** What a loop comes to that has fired these timers before. */
  function FiredThen<T>(fired: seq<Item<T>>, r: (seq<Item<T>>, seq<Item<T>>)): (seq<Item<T>>, seq<Item<T>>) {
    (r.0, fired + r.1)
  }

  lemma ProcessStops<T>(l: seq<Item<T>>, now: Tv, script: Script<T>, from: int, fired: seq<Item<T>>)
    requires Good(l, from) && Clock(now, from) && GoodScript(script, now, from) && (l == [] || !Due(l[0], now))
    ensures FiredThen(fired, Process(l, now, script, from)) == (l, fired)
  {
    assert fired + [] == fired;
  }

  lemma FireKeeps<T>(l: seq<Item<T>>, now: Tv, ops: seq<Op<T>>, from: int)
    requires Good(l, from) && Clock(now, from) && l != [] && Due(l[0], now)
    requires GoodOps(ops, now, from)
    ensures Good(ApplyAll(Cancel(l, l[0].id), ops), from)
    ensures Later(ops) ==> DueCount(ApplyAll(Cancel(l, l[0].id), ops), now) < DueCount(l, now)
  {
    hide Good, Cancel, Due;
    CancelKeeps(l, l[0].id, from);
    CancelCount(l, l[0].id, now);
    ApplyAllKeeps(Cancel(l, l[0].id), ops, now, from);
    if Later(ops) {
      ApplyAllCount(Cancel(l, l[0].id), ops, now, from);
    }
  }

  predicate AllLater<T>(script: Script<T>) { forall k :: 0 <= k < |script| ==> Later(script[k]) }

  /**
   If the callbacks arm timers for a millisecond or more only, the loop ends: however much there is for them
   to do, no more timers fire than were due.
   */
  lemma {:induction false} ProcessEnds<T>(l: seq<Item<T>>, now: Tv, script: Script<T>, from: int)
    requires Good(l, from) && Clock(now, from) && GoodScript(script, now, from) && AllLater(script)
    ensures |Process(l, now, script, from).1| <= DueCount(l, now)
    decreases |script|, DueCount(l, now)
  {
    hide TvDiff, Micros, Cancel, Good;
    if l != [] && Due(l[0], now) {
      var ops := if script == [] then [] else script[0];
      FireKeeps(l, now, ops, from);
      ProcessEnds(ApplyAll(Cancel(l, l[0].id), ops), now, if script == [] then [] else script[1..], from);
    }
  }

  /** A callback that arms its own timer again for no time at all, while the clock stands still. */
  function Again<T>(id: T, now: Tv, n: nat): Script<T> {
    if n == 0 then [] else [[OpSet(id, 0, now)]] + Again(id, now, n - 1)
  }

  /** Such a callback leaves the list as it was. */
  lemma AgainSame<T>(id: T, now: Tv)
    requires 0 <= now.usec < MILLION
    ensures var l, ops, from := [Item(id, now)], [OpSet(id, 0, now)], Micros(now);
            && Good(l, from) && Clock(now, from) && GoodOps(ops, now, from)
            && Due(l[0], now) && ApplyAll(Cancel(l, id), ops) == l
  {
    hide TvDiff, Deadline;
    var l, op := [Item(id, now)], OpSet(id, 0, now);
    Itself(now);
    assert Cancel(l, id) == [] && Apply([], op) == l;
    assert [op][1..] == [];
  }

  /** Then the loop goes on for as long as the callback does so. */
  lemma {:induction false} AgainAndAgain<T>(id: T, now: Tv, n: nat)
    requires 0 <= now.usec < MILLION
    ensures var l, from := [Item(id, now)], Micros(now);
            && Good(l, from) && Clock(now, from) && GoodScript(Again(id, now, n), now, from)
            && |Process(l, now, Again(id, now, n), from).1| == n + 1
    decreases n
  {
    hide Good, GoodOps, Clock, Due, Cancel, ApplyAll, Micros;
    AgainSame(id, now);
    if n > 0 {
      AgainAndAgain(id, now, n - 1);
      assert Again(id, now, n)[1..] == Again(id, now, n - 1);
    } else {
      LeavesNone(id, now);
    }
  }

  lemma LeavesNone<T>(id: T, now: Tv)
    ensures ApplyAll(Cancel([Item(id, now)], id), []) == []
  {
  }

  lemma Itself(now: Tv)
    requires 0 <= now.usec < MILLION
    ensures TvDiff(now, now) == 0 && Deadline(now, 0) == now
  {
    hide Trunc;
    NothingLeft(now);
  }

  lemma NothingLeft(now: Tv)
    ensures Trunc(now.usec - now.usec, 1000) == 0 && Trunc(0, 1000) == 0 && Rest(0, 1000) == 0
  {
  }

  /** No timer fires a millisecond or more before its deadline, and none a millisecond or more overdue is left. */
  lemma {:induction false} ProcessBounds<T>(l: seq<Item<T>>, now: Tv, script: Script<T>, from: int)
    requires Good(l, from) && Clock(now, from) && GoodScript(script, now, from)
    ensures var (l', fired) := Process(l, now, script, from);
            && Good(l', from)
            && (forall i :: 0 <= i < |fired| ==> Micros(fired[i].time) - Micros(now) < 1000)
            && (forall i :: 0 <= i < |l'| ==> Micros(now) - Micros(l'[i].time) < 1000)
    decreases |script|, DueCount(l, now)
  {
    hide TvDiff, Micros, Cancel;
    if l != [] {
      DiffBounds(l[0].time, now);
      if Due(l[0], now) {
        var ops := if script == [] then [] else script[0];
        FireKeeps(l, now, ops, from);
        ProcessBounds(ApplyAll(Cancel(l, l[0].id), ops), now, if script == [] then [] else script[1..], from);
      }
    }
  }

  /** Something that is done in the script is done to this timer. */
  predicate Names<T(==)>(script: Script<T>, id: T) {
    exists k, j :: 0 <= k < |script| && 0 <= j < |script[k]| && script[k][j].id == id
  }

  /** Arming or cancelling one timer does nothing to the others. */
  lemma ApplyOthers<T>(l: seq<Item<T>>, op: Op<T>, x: Item<T>, now: Tv, from: int)
    requires Good(l, from) && GoodOp(op, now, from) && op.id != x.id
    ensures x in Apply(l, op) <==> x in l
  {
    hide Set, Cancel, Good, Clock;
    CancelKeeps(l, op.id, from);
    match op
    case OpSet(id, msecs, clock) =>
      SetKeeps(l, id, msecs, clock, from);
      assert x in Set(l, id, msecs, clock) <==> x in multiset(Set(l, id, msecs, clock));
    case OpCancel(id) =>
  }

  lemma {:induction false} ApplyAllOthers<T>(l: seq<Item<T>>, ops: seq<Op<T>>, x: Item<T>, now: Tv, from: int)
    requires Good(l, from) && GoodOps(ops, now, from) && forall j :: 0 <= j < |ops| ==> ops[j].id != x.id
    ensures x in ApplyAll(l, ops) <==> x in l
    decreases |ops|
  {
    hide Apply, Good, GoodOp;
    if ops != [] {
      ApplyOthers(l, ops[0], x, now, from);
      ApplyKeeps(l, ops[0], now, from);
      ApplyAllOthers(Apply(l, ops[0]), ops[1..], x, now, from);
    }
  }

  /** A pending timer to which no callback does anything is either fired or left, and nothing else of its name is. */
  lemma {:induction false} FiredOrLeft<T>(l: seq<Item<T>>, now: Tv, script: Script<T>, from: int, x: Item<T>)
    requires Good(l, from) && Clock(now, from) && GoodScript(script, now, from) && !Names(script, x.id)
    ensures var (l', fired) := Process(l, now, script, from);
            if x in l then x in fired <==> x !in l' else x !in fired && x !in l'
    decreases |script|, DueCount(l, now)
  {
    hide Cancel, Good, Due, Clock, GoodOp;
    if l != [] && Due(l[0], now) {
      var ops, rest := if script == [] then [] else script[0], if script == [] then [] else script[1..];
      FireKeeps(l, now, ops, from);
      var l1 := Cancel(l, l[0].id);
      CancelKeeps(l, l[0].id, from);
      assert forall j :: 0 <= j < |ops| ==> ops[j].id != x.id by {
        if script != [] { assert ops == script[0]; }
      }
      assert !Names(rest, x.id) by { assert forall k :: 0 <= k < |rest| ==> rest[k] == script[k + 1]; }
      ApplyAllOthers(l1, ops, x, now, from);
      FiredOrLeft(ApplyAll(l1, ops), now, rest, from, x);
      OneOfAName(l, x, from);
    }
  }

  lemma OneOfAName<T>(l: seq<Item<T>>, x: Item<T>, from: int)
    requires Good(l, from) && l != []
    ensures x in l && x.id == l[0].id ==> x == l[0]
  {
  }

  /** So one that is overdue by a millisecond is fired, and one that is not due for a millisecond yet is left. */
  lemma OverdueFires<T>(l: seq<Item<T>>, now: Tv, script: Script<T>, from: int, x: Item<T>)
    requires Good(l, from) && Clock(now, from) && GoodScript(script, now, from) && x in l && !Names(script, x.id)
    ensures var (l', fired) := Process(l, now, script, from);
            && (Micros(now) - Micros(x.time) >= 1000 ==> x in fired)
            && (Micros(x.time) - Micros(now) >= 1000 ==> x in l')
  {
    hide Process, Good, Clock, GoodScript, Names;
    FiredOrLeft(l, now, script, from, x);
    ProcessBounds(l, now, script, from);
  }

  /** Of all pending timers the one that fires next is the earliest, to within a millisecond. */
  lemma FirstEarliest<T>(l: seq<Item<T>>, x: Item<T>, from: int)
    requires Good(l, from) && x in l
    ensures Micros(l[0].time) - Micros(x.time) < 1000
  {
  }

  /** uloop_get_next_timeout: how many milliseconds to sleep, -1 without a timer. */
  function NextTimeout<T>(l: seq<Item<T>>, now: Tv): int {
    if l == [] then -1 else if TvDiff(l[0].time, now) < 0 then 0 else TvDiff(l[0].time, now)
  }

  /** The loop waits without end exactly if no timer is pending. */
  lemma WaitsIff<T>(l: seq<Item<T>>, now: Tv)
    ensures NextTimeout(l, now) == -1 <==> l == []
  {
    hide TvDiff;
  }

  /** Sleeping that long ends less than two milliseconds past the earliest deadline, unless it does not sleep at all. */
  lemma WakeBounds<T>(l: seq<Item<T>>, now: Tv, x: Item<T>, from: int)
    requires Good(l, from) && Clock(now, from) && x in l
    ensures var r := NextTimeout(l, now);
            && r >= 0 && (r == 0 || Micros(now) + 1000 * r <= Micros(x.time) + 1998)
            && (Micros(now) < Micros(l[0].time) ==> Micros(now) + 1000 * r > Micros(l[0].time) - 1000)
  {
    hide TvDiff, Micros;
    DiffBounds(l[0].time, now);
    FirstEarliest(l, x, from);
  }

  // ----- whole runs -----

  /** The program goes on: it arms and cancels timers, and from time to time fires what is due. */
  datatype Event<T> = Act(op: Op<T>) | Fire(now: Tv, script: Script<T>)

  predicate GoodEvent<T>(e: Event<T>, from: int) {
    match e
    case Act(op) => GoodOp(op, Tv(0, from), from)
    case Fire(now, script) => Clock(now, from) && GoodScript(script, now, from)
  }

  function Happen<T(==)>(l: seq<Item<T>>, e: Event<T>, from: int): seq<Item<T>>
    requires Good(l, from) && GoodEvent(e, from)
  {
    match e
    case Act(op) => Apply(l, op)
    case Fire(now, script) => Process(l, now, script, from).0
  }

  lemma EventKeeps<T>(l: seq<Item<T>>, e: Event<T>, from: int)
    requires Good(l, from) && GoodEvent(e, from)
    ensures Good(Happen(l, e, from), from)
  {
    hide Good, Process, Apply;
    match e
    case Act(op) => ApplyKeeps(l, op, Tv(0, from), from);
    case Fire(now, script) => ProcessBounds(l, now, script, from);
  }

  /** An event, and a span it lies in; the span may move as the program goes on. */
  datatype Moment<T> = Moment(event: Event<T>, from: int)

  predicate Tidy<T(==)>(l: seq<Item<T>>) { Unique(l) && Ordered(l) }

  lemma Apart<T>(l: seq<Item<T>>, from: int)
    ensures Good(l, from) <==> Tidy(l) && Within(l, from)
  {
  }

  /** At each event all pending deadlines lie in its span. */
  predicate GoodRun<T(==)>(l: seq<Item<T>>, ms: seq<Moment<T>>)
    requires Tidy(l)
    decreases |ms|
  {
    ms != [] ==>
      var m := ms[0];
      Apart(l, m.from);
      && Within(l, m.from) && GoodEvent(m.event, m.from)
      && (EventKeeps(l, m.event, m.from); GoodRun(Happen(l, m.event, m.from), ms[1..]))
  }

  function RunAll<T(==)>(l: seq<Item<T>>, ms: seq<Moment<T>>): seq<Item<T>>
    requires Tidy(l) && GoodRun(l, ms)
    decreases |ms|
  {
    if ms == [] then l
    else
      EventKeeps(l, ms[0].event, ms[0].from);
      RunAll(Happen(l, ms[0].event, ms[0].from), ms[1..])
  }

  /** After any run, however long, every timer is in the list at most once, and the list is in order to a millisecond. */
  lemma {:induction false} AlwaysTidy<T>(l: seq<Item<T>>, ms: seq<Moment<T>>)
    requires Tidy(l) && GoodRun(l, ms)
    ensures Unique(RunAll(l, ms)) && Ordered(RunAll(l, ms))
    decreases |ms|
  {
    hide Happen, GoodEvent;
    if ms != [] {
      EventKeeps(l, ms[0].event, ms[0].from);
      AlwaysTidy(Happen(l, ms[0].event, ms[0].from), ms[1..]);
    }
  }
}
