/**
 The APRS-IS session of src/tier2_client.c: connecting, logging in after the server's greeting,
 waiting for its verdict, keeping alive, publishing, and starting over after silence or an error.
 */
module Tier2Client {

  datatype State = Disconnected | Connected | Prompt | Unverified | Verified

  const RECONNECT_WAITTIME := 15
  const KEEPALIVE_TIMEOUT := 120
  const IDLE_TIMEOUT := 90

  datatype What = Login | Keepalive | Packet

  /** What happens on a connection: a line is heard, which may be a verified logresp, or something is sent. */
  datatype Event = Heard(verified: bool, at: int) | Sent(what: What, at: int)

  datatype Times = Times(recv: int, keepalive: int, reconnect: int)

  /**
   `log` is the history of the connection, `past` that of all connections before it; `closed` is how many
   sockets have been closed.
   */
  datatype Client = Client(state: State, sockfd: int, times: Times, wait: int, history: History)

  datatype History = History(log: seq<Event>, past: seq<seq<Event>>, since: int, closed: nat)

  /** How an attempt to connect ends; `fd` is the socket, if one was made. */
  datatype Attempt = Unresolved | NoSocket | Refused(fd: nat) | Accepted(fd: nat)

  datatype Op =
    | Run(now: int, attempt: Attempt)
    | Receive(now: int, empty: bool, verified: bool)
    | StreamError
    | Publish(now: int)

  // ----- the functions of the source -----

  function Note(c: Client, e: Event): Client { c.(history := c.history.(log := c.history.log + [e])) }

  /** tier2_client_send */
  function Send(c: Client, what: What, now: int): Client {
    if c.sockfd < 0 then c else Note(c, Sent(what, now))
  }

  /** tier2_client_open. A refused connection leaves its socket behind: closing does nothing while disconnected. */
  function Open(c: Client, now: int, a: Attempt): Client {
    var c1 := c.(times := c.times.(reconnect := now, keepalive := now));
    if c.state != Disconnected || a.Unresolved? then c1
    else
      var c2 := c1.(times := c1.times.(recv := now), sockfd := if a.NoSocket? then -1 else a.fd);
      if !a.Accepted? then c2
      else c2.(state := Connected, history := History([], c.history.past + [c.history.log], now, c.history.closed))
  }

  /** tier2_client_close */
  function Close(c: Client): Client {
    if c.state == Disconnected then c
    else
      var closed := c.history.closed + if c.sockfd >= 0 then 1 else 0;
      c.(state := Disconnected, sockfd := -1, history := c.history.(closed := closed))
  }

  /** tier2_client_keepalive */
  function KeepAlive(c: Client, now: int): Client {
    var c1 := Send(c, Keepalive, now);
    c1.(times := c1.times.(keepalive := now))
  }

  /** tier2_client_run */
  function RunOnce(c: Client, now: int, a: Attempt): Client {
    if c.state == Disconnected then
      if now - c.times.reconnect > c.wait then Open(c.(wait := c.wait + 15), now, a) else c
    else
      var c1 := if now - c.times.recv > IDLE_TIMEOUT then Open(Close(c), now, a) else c;
      var c2 := if c1.state == Connected && c1.wait != RECONNECT_WAITTIME then c1.(wait := RECONNECT_WAITTIME) else c1;
      if (c2.state == Verified || c2.state == Unverified) && now - c2.times.keepalive > KEEPALIVE_TIMEOUT
      then KeepAlive(c2, now) else c2
  }

  /** tier2_client_receive, called for every line that is not blank. */
  function ReceiveLine(c: Client, now: int, verified: bool): Client {
    var c0 := c.(times := c.times.(recv := now));
    var c1 := Note(c0, Heard(verified, now));
    match c.state
    case Disconnected => c0
    case Connected => Send(c1.(state := Prompt), Login, now)
    case Prompt => c1.(state := if verified then Verified else Unverified)
    case _ => c1
  }

  function Step(c: Client, op: Op): Client {
    match op
    case Run(now, a) => RunOnce(c, now, a)
    case Receive(now, empty, verified) => if empty then c else ReceiveLine(c, now, verified)
    case StreamError => Close(c)
    case Publish(now) => if c.state != Verified then c else Send(c, Packet, now)
  }

  // ----- what is sent on a connection -----

  /** Events of a session once the server has answered the login. */
  predicate Later(e: Event, verified: bool) {
    e.Heard? || e.what == Keepalive || (verified && e.what == Packet)
  }

  /**
   Nothing; or, after the server's greeting, one login; and after the answer to it only
   keepalives, and packets if that answer was a verified logresp.
   */
  predicate Proper(log: seq<Event>) {
    || log == []
    || (|log| >= 2 && log[0].Heard? && log[1].Sent? && log[1].what == Login
        && (|log| > 2 ==> log[2].Heard? && forall k :: 2 < k < |log| ==> Later(log[k], log[2].verified)))
  }

  /** Keepalives keep their distance from one another and from the start of the connection. */
  predicate Spaced(log: seq<Event>, since: int) {
    && (forall k :: 0 <= k < |log| && log[k].Sent? && log[k].what == Keepalive ==> log[k].at - since > KEEPALIVE_TIMEOUT)
    && (forall j, k :: 0 <= j < k < |log| && log[j].Sent? && log[j].what == Keepalive && log[k].Sent? && log[k].what == Keepalive ==>
          log[k].at - log[j].at > KEEPALIVE_TIMEOUT)
  }

  /** What the log of the connection says in each state. */
  predicate Stage(state: State, log: seq<Event>) {
    match state
    case Disconnected => Proper(log)
    case Connected => log == []
    case Prompt => Proper(log) && |log| == 2
    case Unverified => Proper(log) && |log| > 2 && log[2].Heard? && !log[2].verified
    case Verified => Proper(log) && |log| > 2 && log[2].Heard? && log[2].verified
  }

  /** No keepalive of this connection is later than the time remembered for the last one. */
  predicate Remembered(c: Client) {
    && c.history.since <= c.times.keepalive
    && forall k :: 0 <= k < |c.history.log| && c.history.log[k].Sent? && c.history.log[k].what == Keepalive ==>
         c.history.log[k].at <= c.times.keepalive
  }

  predicate Inv(c: Client) {
    && Stage(c.state, c.history.log) && Spaced(c.history.log, c.history.since)
    && (forall i :: 0 <= i < |c.history.past| ==> Proper(c.history.past[i]))
    && (c.state != Disconnected ==> c.sockfd >= 0 && Remembered(c))
  }

  lemma NoteLater(c: Client, e: Event, verified: bool)
    requires Inv(c) && c.state == (if verified then Verified else Unverified) && Later(e, verified)
    requires e.Sent? && e.what == Keepalive ==> e.at - c.times.keepalive > KEEPALIVE_TIMEOUT
    ensures var log := c.history.log + [e]; Stage(c.state, log) && Spaced(log, c.history.since)
  {
    var log := c.history.log + [e];
    assert forall k :: 0 <= k < |c.history.log| ==> log[k] == c.history.log[k];
  }

  lemma RunOnceKeeps(c: Client, now: int, a: Attempt)
    requires Inv(c)
    ensures Inv(RunOnce(c, now, a))
  {
    hide Spaced, Proper;
    NothingLogged(now);
    if c.state != Disconnected {
      StageProper(c.state, c.history.log);
      var c1 := if now - c.times.recv > IDLE_TIMEOUT then Open(Close(c), now, a) else c;
      assert Inv(c1);
      var c2 := if c1.state == Connected && c1.wait != RECONNECT_WAITTIME then c1.(wait := RECONNECT_WAITTIME) else c1;
      if (c2.state == Verified || c2.state == Unverified) && now - c2.times.keepalive > KEEPALIVE_TIMEOUT {
        NoteLater(c2, Sent(Keepalive, now), c2.state == Verified);
      }
    }
  }

  lemma NothingLogged(since: int)
    ensures Spaced([], since) && Proper([])
  {
  }

  lemma StageProper(state: State, log: seq<Event>)
    requires Stage(state, log)
    ensures Proper(log)
  {
  }

  lemma ReceiveKeeps(c: Client, now: int, verified: bool)
    requires Inv(c)
    ensures Inv(ReceiveLine(c, now, verified))
  {
    var c' := ReceiveLine(c, now, verified);
    match c.state
    case Disconnected =>
    case Connected => assert c'.history.log == [Heard(verified, now), Sent(Login, now)];
    case Prompt => assert c'.history.log == c.history.log + [Heard(verified, now)];
    case Unverified => NoteLater(c, Heard(verified, now), false);
    case Verified => NoteLater(c, Heard(verified, now), true);
  }

  lemma StepKeeps(c: Client, op: Op)
    requires Inv(c)
    ensures Inv(Step(c, op))
  {
    match op
    case Run(now, a) => RunOnceKeeps(c, now, a);
    case Receive(now, empty, verified) =>
      if !empty {
        ReceiveKeeps(c, now, verified);
      }
    case StreamError => StageProper(c.state, c.history.log);
    case Publish(now) =>
      if c.state == Verified {
        NoteLater(c, Sent(Packet, now), true);
      }
  }

  // ----- whole runs -----

  function RunAll(c: Client, ops: seq<Op>): Client
    decreases |ops|
  {
    if ops == [] then c else RunAll(Step(c, ops[0]), ops[1..])
  }

  /** tier2_client_init */
  function Start(now: int, a: Attempt): Client {
    Open(Client(Disconnected, -1, Times(0, 0, 0), RECONNECT_WAITTIME, History([], [], 0, 0)), now, a)
  }

  lemma {:induction false} RunAllKeeps(c: Client, ops: seq<Op>)
    requires Inv(c)
    ensures Inv(RunAll(c, ops))
    decreases |ops|
  {
    hide Inv, Step;
    if ops != [] {
      StepKeeps(c, ops[0]);
      RunAllKeeps(Step(c, ops[0]), ops[1..]);
    }
  }

  /** Every packet on a connection comes after its login and after a verified logresp heard on it. */
  lemma PacketsVerified(log: seq<Event>, k: nat)
    requires Proper(log) && k < |log| && log[k].Sent? && log[k].what == Packet
    ensures k > 2 && log[1].Sent? && log[1].what == Login && log[2].Heard? && log[2].verified
  {
  }

  /** At most one login is sent on a connection. */
  lemma OneLogin(log: seq<Event>, j: nat, k: nat)
    requires Proper(log) && j < |log| && k < |log|
    requires log[j].Sent? && log[j].what == Login && log[k].Sent? && log[k].what == Login
    ensures j == k == 1
  {
  }

  /**
   On every run, what is sent on each connection, past or present, is nothing, or one login after
   the greeting and then only keepalives and packets, packets only after a verified logresp on
   that connection; and a client that is not disconnected has a socket.
   */
  lemma EverySession(now: int, a: Attempt, ops: seq<Op>)
    ensures var c := RunAll(Start(now, a), ops);
            && Proper(c.history.log) && Spaced(c.history.log, c.history.since)
            && (forall i :: 0 <= i < |c.history.past| ==> Proper(c.history.past[i]))
            && (c.state != Disconnected ==> c.sockfd >= 0)
  {
    hide RunAll;
    RunAllKeeps(Start(now, a), ops);
    var c := RunAll(Start(now, a), ops);
    StageProper(c.state, c.history.log);
  }

  /** The converse fails: a refused connection leaves a disconnected client with a socket. */
  lemma RefusedKeepsSocket(now: int, fd: nat)
    ensures var c := Start(now, Refused(fd)); c.state == Disconnected && c.sockfd == fd >= 0
  {
  }

  // ----- what becomes of the sockets -----

  /** The attempt that a step makes, if it comes as far as asking for a socket. */
  function Try(c: Client, op: Op): seq<Attempt> {
    if op.Run? && !op.attempt.Unresolved?
       && (if c.state == Disconnected then op.now - c.times.reconnect > c.wait else op.now - c.times.recv > IDLE_TIMEOUT)
    then [op.attempt] else []
  }

  function Tries(c: Client, ops: seq<Op>): seq<Attempt>
    decreases |ops|
  {
    if ops == [] then [] else Try(c, ops[0]) + Tries(Step(c, ops[0]), ops[1..])
  }

  /** How many attempts were refused, and how many sockets were made. */
  function Refusals(ts: seq<Attempt>): nat {
    if ts == [] then 0 else Refusals(ts[..|ts| - 1]) + if ts[|ts| - 1].Refused? then 1 else 0
  }

  function Made(ts: seq<Attempt>): nat {
    if ts == [] then 0 else Made(ts[..|ts| - 1]) + if ts[|ts| - 1].NoSocket? || ts[|ts| - 1].Unresolved? then 0 else 1
  }

  /** What the attempts made so far say of the client: the last one of it, and all of them of the sockets still open. */
  predicate Accounts(c: Client, ts: seq<Attempt>) {
    && (c.state != Disconnected ==> ts != [] && ts[|ts| - 1].Accepted?)
    && (c.state == Disconnected ==> (c.sockfd >= 0 <==> ts != [] && ts[|ts| - 1].Refused?))
    && Made(ts) == c.history.closed + Refusals(ts) + if c.state != Disconnected then 1 else 0
  }

  lemma OpenAccounts(c: Client, now: int, a: Attempt, ts: seq<Attempt>)
    requires Accounts(c, ts) && c.state == Disconnected
    ensures Accounts(Open(c, now, a), ts + if a.Unresolved? then [] else [a])
  {
    if a.Unresolved? {
      assert ts + [] == ts;
    } else {
      assert (ts + [a])[..|ts + [a]| - 1] == ts;
    }
  }

  lemma CloseAccounts(c: Client, ts: seq<Attempt>)
    requires Accounts(c, ts) && (c.state != Disconnected ==> c.sockfd >= 0)
    ensures Accounts(Close(c), ts)
  {
  }

  /** Nothing but opening and closing touches the sockets. */
  lemma SameAccounts(c: Client, c': Client, ts: seq<Attempt>)
    requires Accounts(c, ts) && c'.sockfd == c.sockfd && c'.history.closed == c.history.closed
    requires c'.state == Disconnected <==> c.state == Disconnected
    ensures Accounts(c', ts)
  {
  }

  lemma StepAccounts(c: Client, op: Op, ts: seq<Attempt>)
    requires Inv(c) && Accounts(c, ts)
    ensures Accounts(Step(c, op), ts + Try(c, op))
  {
    hide Accounts, Stage, Spaced, Proper, Remembered;
    assert ts + [] == ts;
    match op
    case Run(now, a) =>
      if c.state == Disconnected {
        if now - c.times.reconnect > c.wait {
          SameAccounts(c, c.(wait := c.wait + 15), ts);
          OpenAccounts(c.(wait := c.wait + 15), now, a, ts);
        }
      } else {
        CloseAccounts(c, ts);
        OpenAccounts(Close(c), now, a, ts);
        var c1 := if now - c.times.recv > IDLE_TIMEOUT then Open(Close(c), now, a) else c;
        SameAccounts(c1, RunOnce(c, now, a), ts + Try(c, op));
      }
    case StreamError => CloseAccounts(c, ts);
    case _ => SameAccounts(c, Step(c, op), ts);
  }

  lemma {:induction false} RunAccounts(c: Client, ops: seq<Op>, ts: seq<Attempt>)
    requires Inv(c) && Accounts(c, ts)
    ensures Accounts(RunAll(c, ops), ts + Tries(c, ops))
    decreases |ops|
  {
    hide Inv, Step, Accounts, Try;
    if ops == [] {
      assert ts + [] == ts;
    } else {
      StepKeeps(c, ops[0]);
      StepAccounts(c, ops[0], ts);
      RunAccounts(Step(c, ops[0]), ops[1..], ts + Try(c, ops[0]));
      assert (ts + Try(c, ops[0])) + Tries(Step(c, ops[0]), ops[1..]) == ts + Tries(c, ops);
    }
  }

  /** All attempts of a run that asked for a socket. */
  function AllTries(now: int, a: Attempt, ops: seq<Op>): seq<Attempt> {
    (if a.Unresolved? then [] else [a]) + Tries(Start(now, a), ops)
  }

  /**
   After any run a client that is disconnected has a socket exactly if the last attempt that asked for one was
   refused; and besides the socket of the connection one is still open for every refusal.
   */
  lemma OpenSockets(now: int, a: Attempt, ops: seq<Op>)
    ensures var c, ts := RunAll(Start(now, a), ops), AllTries(now, a, ops);
            && (c.state == Disconnected && c.sockfd >= 0 <==> ts != [] && ts[|ts| - 1].Refused?)
            && Made(ts) - c.history.closed == Refusals(ts) + if c.state != Disconnected then 1 else 0
  {
    hide Inv, Step, RunAll, Tries, Open;
    var c0 := Client(Disconnected, -1, Times(0, 0, 0), RECONNECT_WAITTIME, History([], [], 0, 0));
    NothingYet(now, a);
    OpenAccounts(c0, now, a, []);
    assert [] + (if a.Unresolved? then [] else [a]) == if a.Unresolved? then [] else [a];
    RunAccounts(Start(now, a), ops, if a.Unresolved? then [] else [a]);
  }

  // ----- what is sent, and when -----

  /** When the connection, begun at `since`, was last heard from. */
  function LastHeard(log: seq<Event>, since: int): int {
    if log == [] then since
    else
      var e := log[|log| - 1];
      if e.Heard? then e.at else LastHeard(log[..|log| - 1], since)
  }

  /** When it last sent a keepalive. */
  function LastKeepalive(log: seq<Event>, since: int): int {
    if log == [] then since
    else
      var e := log[|log| - 1];
      if e.Sent? && e.what == Keepalive then e.at else LastKeepalive(log[..|log| - 1], since)
  }

  /** The times that a connected client remembers are those of its connection. */
  predicate Timed(c: Client) {
    c.state != Disconnected ==>
      && c.times.recv == LastHeard(c.history.log, c.history.since)
      && c.times.keepalive == LastKeepalive(c.history.log, c.history.since)
  }

  predicate Idle(c: Client, now: int) {
    c.state != Disconnected && now - LastHeard(c.history.log, c.history.since) > 90
  }

  /**
   What is to be sent, by the history of the connection alone: a login at the greeting, a packet when one is published in
   a verified session, and a keepalive when a session has sent none for more than 120 seconds and is not given up.
   */
  function Due(c: Client, op: Op): seq<Event> {
    match op
    case Publish(now) => if c.state == Verified then [Sent(Packet, now)] else []
    case Receive(now, empty, _) => if !empty && c.state == Connected then [Sent(Login, now)] else []
    case Run(now, _) =>
      if (c.state == Verified || c.state == Unverified) && !Idle(c, now)
         && now - LastKeepalive(c.history.log, c.history.since) > 120
      then [Sent(Keepalive, now)] else []
    case StreamError => []
  }

  function Flat(logs: seq<seq<Event>>): seq<Event> {
    if logs == [] then [] else Flat(logs[..|logs| - 1]) + logs[|logs| - 1]
  }

  /** Everything heard and sent, on all connections. */
  function Everything(c: Client): seq<Event> { Flat(c.history.past) + c.history.log }

  function Sends(es: seq<Event>): seq<Event> {
    if es == [] then [] else Sends(es[..|es| - 1]) + if es[|es| - 1].Sent? then [es[|es| - 1]] else []
  }

  lemma SendsOne(es: seq<Event>, e: Event)
    ensures Sends(es + [e]) == Sends(es) + if e.Sent? then [e] else []
  {
    assert (es + [e])[..|es + [e]| - 1] == es;
  }

  lemma LastOne(log: seq<Event>, e: Event, since: int)
    ensures LastHeard(log + [e], since) == if e.Heard? then e.at else LastHeard(log, since)
    ensures LastKeepalive(log + [e], since) == if e.Sent? && e.what == Keepalive then e.at else LastKeepalive(log, since)
  {
    assert (log + [e])[..|log + [e]| - 1] == log;
  }

  /** A new connection begins behind the old ones. */
  lemma FlatOne(past: seq<seq<Event>>, log: seq<Event>)
    ensures Flat(past + [log]) + [] == Flat(past) + log
  {
    assert (past + [log])[..|past + [log]| - 1] == past;
  }

  lemma NoteSends(c: Client, e: Event)
    ensures Sends(Everything(Note(c, e))) == Sends(Everything(c)) + if e.Sent? then [e] else []
  {
    hide Sends, Flat;
    SendsOne(Everything(c), e);
    assert Flat(c.history.past) + (c.history.log + [e]) == Everything(c) + [e];
  }

  lemma OpenSends(c: Client, now: int, a: Attempt)
    ensures Everything(Open(c, now, a)) == Everything(c)
    ensures c.state == Disconnected ==> Timed(Open(c, now, a))
  {
    hide Flat;
    FlatOne(c.history.past, c.history.log);
  }

  /** A step sends what is due, and nothing else. */
  lemma StepSends(c: Client, op: Op)
    requires Inv(c) && Timed(c)
    ensures Timed(Step(c, op)) && Sends(Everything(Step(c, op))) == Sends(Everything(c)) + Due(c, op)
  {
    hide Spaced, Proper, Sends, Flat, Remembered, LastHeard, LastKeepalive;
    assert Sends(Everything(c)) + [] == Sends(Everything(c));
    match op
    case Run(now, a) => RunSends(c, now, a);
    case Receive(now, empty, verified) =>
      if !empty {
        LineSends(c, now, verified);
      }
    case StreamError => assert Everything(Close(c)) == Everything(c);
    case Publish(now) =>
      NoteSends(c, Sent(Packet, now));
      LastOne(c.history.log, Sent(Packet, now), c.history.since);
  }

  lemma RunSends(c: Client, now: int, a: Attempt)
    requires Inv(c) && Timed(c)
    ensures Timed(RunOnce(c, now, a)) && Sends(Everything(RunOnce(c, now, a))) == Sends(Everything(c)) + Due(c, Run(now, a))
  {
    hide Spaced, Proper, Sends, Flat, Remembered, LastHeard, LastKeepalive;
    assert Sends(Everything(c)) + [] == Sends(Everything(c));
    OpenSends(c.(wait := c.wait + 15), now, a);
    OpenSends(Close(c), now, a);
    assert Everything(Close(c)) == Everything(c);
    NoteSends(c, Sent(Keepalive, now));
    LastOne(c.history.log, Sent(Keepalive, now), c.history.since);
  }

  lemma LineSends(c: Client, now: int, verified: bool)
    requires Inv(c) && Timed(c)
    ensures var c' := ReceiveLine(c, now, verified);
            Timed(c') && Sends(Everything(c')) == Sends(Everything(c)) + Due(c, Receive(now, false, verified))
  {
    hide Spaced, Proper, Sends, Flat, Remembered, LastHeard, LastKeepalive;
    assert Sends(Everything(c)) + [] == Sends(Everything(c));
    var c1 := Note(c, Heard(verified, now));
    NoteSends(c, Heard(verified, now));
    LastOne(c.history.log, Heard(verified, now), c.history.since);
    NoteSends(c1, Sent(Login, now));
    LastOne(c1.history.log, Sent(Login, now), c.history.since);
    var c' := ReceiveLine(c, now, verified);
    if c.state == Connected {
      assert c'.history == Note(c1, Sent(Login, now)).history;
    } else if c.state != Disconnected {
      assert c'.history == c1.history;
    }
  }

  /** What is due over a run. */
  function AllDue(c: Client, ops: seq<Op>): seq<Event>
    decreases |ops|
  {
    if ops == [] then [] else Due(c, ops[0]) + AllDue(Step(c, ops[0]), ops[1..])
  }

  lemma {:induction false} RunAllSends(c: Client, ops: seq<Op>)
    requires Inv(c) && Timed(c)
    ensures Timed(RunAll(c, ops)) && Sends(Everything(RunAll(c, ops))) == Sends(Everything(c)) + AllDue(c, ops)
    decreases |ops|
  {
    hide Inv, Step, Timed, Due, Sends, Everything;
    if ops == [] {
      assert Sends(Everything(c)) + [] == Sends(Everything(c));
    } else {
      StepKeeps(c, ops[0]);
      StepSends(c, ops[0]);
      RunAllSends(Step(c, ops[0]), ops[1..]);
      assert (Sends(Everything(c)) + Due(c, ops[0])) + AllDue(Step(c, ops[0]), ops[1..]) == Sends(Everything(c)) + AllDue(c, ops);
    }
  }

  /** Over any run, what has been sent on all connections is what was due, in order. */
  lemma AllIsSent(now: int, a: Attempt, ops: seq<Op>)
    ensures Sends(Everything(RunAll(Start(now, a), ops))) == AllDue(Start(now, a), ops)
  {
    hide RunAll, AllDue;
    RunAllSends(Start(now, a), ops);
    NothingYet(now, a);
    assert [] + AllDue(Start(now, a), ops) == AllDue(Start(now, a), ops);
  }

  lemma NothingYet(now: int, a: Attempt)
    ensures Inv(Start(now, a)) && Timed(Start(now, a)) && Sends(Everything(Start(now, a))) == []
  {
    var c0 := Client(Disconnected, -1, Times(0, 0, 0), RECONNECT_WAITTIME, History([], [], 0, 0));
    OpenSends(c0, now, a);
    assert Everything(c0) == [];
  }

  /** The packets sent are those published in a verified session, in order. */
  function Packets(es: seq<Event>): seq<int> {
    if es == [] then [] else Packets(es[..|es| - 1]) + if es[|es| - 1].Sent? && es[|es| - 1].what == Packet then [es[|es| - 1].at] else []
  }

  function Published(c: Client, ops: seq<Op>): seq<int>
    decreases |ops|
  {
    if ops == [] then []
    else (if ops[0].Publish? && c.state == Verified then [ops[0].now] else []) + Published(Step(c, ops[0]), ops[1..])
  }

  lemma {:induction false} PacketsJoin(a: seq<Event>, b: seq<Event>)
    ensures Packets(a + b) == Packets(a) + Packets(b)
    decreases |b|
  {
    if b == [] {
      assert a + b == a;
    } else {
      assert (a + b)[..|a + b| - 1] == a + b[..|b| - 1];
      PacketsJoin(a, b[..|b| - 1]);
    }
  }

  lemma {:induction false} PacketsDue(c: Client, ops: seq<Op>)
    ensures Packets(AllDue(c, ops)) == Published(c, ops)
    decreases |ops|
  {
    hide Step, Packets, LastKeepalive, Idle;
    if ops == [] {
      assert Packets([]) == [] by { PacketsNone(); }
    } else {
      PacketsJoin(Due(c, ops[0]), AllDue(Step(c, ops[0]), ops[1..]));
      PacketsNone();
      forall e
        ensures Packets([e]) == if e.Sent? && e.what == Packet then [e.at] else []
      {
        PacketsOne(e);
      }
      PacketsDue(Step(c, ops[0]), ops[1..]);
    }
  }

  lemma PacketsNone()
    ensures Packets([]) == []
  {
  }

  lemma PacketsOne(e: Event)
    ensures Packets([e]) == if e.Sent? && e.what == Packet then [e.at] else []
  {
    assert [e][..0] == [];
  }

  lemma {:induction false} PacketsOfSends(es: seq<Event>)
    ensures Packets(Sends(es)) == Packets(es)
    decreases |es|
  {
    if es != [] {
      var e, front := es[|es| - 1], es[..|es| - 1];
      PacketsOfSends(front);
      if e.Sent? {
        PacketsJoin(Sends(front), [e]);
        PacketsOne(e);
      } else {
        assert Sends(front) + [] == Sends(front) && Packets(front) + [] == Packets(front);
      }
    }
  }

  /** Over any run, every text published in a verified session is sent, once and in order, and no other. */
  lemma PublishedIsSent(now: int, a: Attempt, ops: seq<Op>)
    ensures Packets(Everything(RunAll(Start(now, a), ops))) == Published(Start(now, a), ops)
  {
    hide RunAll, AllDue, Packets, Everything;
    AllIsSent(now, a, ops);
    PacketsOfSends(Everything(RunAll(Start(now, a), ops)));
    PacketsDue(Start(now, a), ops);
  }

  // ----- giving up and trying again -----

  /** An idle connection is given up, and another tried at once. */
  lemma IdleIsTriedAgain(c: Client, now: int, a: Attempt)
    requires Inv(c) && Timed(c) && Idle(c, now)
    ensures var c' := Step(c, Run(now, a));
            && c'.history.closed == c.history.closed + 1 && Try(c, Run(now, a)) == (if a.Unresolved? then [] else [a])
            && (a.Accepted? <==> c'.state == Connected) && (!a.Accepted? ==> c'.state == Disconnected)
            && (a.Accepted? ==> c'.history.log == [] && c'.history.since == now && c'.sockfd == a.fd)
  {
    hide Spaced, Proper, LastKeepalive, LastHeard;
  }

  /** A connection that is not idle goes on. */
  lemma ActiveGoesOn(c: Client, now: int, a: Attempt)
    requires Inv(c) && Timed(c) && c.state != Disconnected && !Idle(c, now)
    ensures var c' := Step(c, Run(now, a));
            c'.state == c.state && c'.sockfd == c.sockfd && c'.history.past == c.history.past && c'.wait == (if c.state == Connected then 15 else c.wait)
  {
    hide Spaced, Proper, LastKeepalive, LastHeard;
  }

  /** Runs of a client whose attempts all fail; how many are made, and the moment of the last. */
  predicate Failing(ops: seq<Op>) { forall k :: 0 <= k < |ops| ==> ops[k].Run? && !ops[k].attempt.Accepted? }

  /** The moments at which a disconnected client tries: each more than the wait after the one before, and the wait grows by 15. */
  function Retries(last: int, wait: int, ops: seq<Op>): (int, nat)
    requires Failing(ops)
    decreases |ops|
  {
    if ops == [] then (last, 0)
    else if ops[0].now - last > wait then
      var (t, n) := Retries(ops[0].now, wait + 15, ops[1..]);
      (t, n + 1)
    else Retries(last, wait, ops[1..])
  }

  /** A client that does not get connected tries again, and waits 15 seconds longer after every attempt. */
  lemma {:induction false} Backoff(c: Client, ops: seq<Op>)
    requires c.state == Disconnected && Failing(ops)
    ensures var c', (t, n) := RunAll(c, ops), Retries(c.times.reconnect, c.wait, ops);
            c'.state == Disconnected && c'.times.reconnect == t && c'.wait == c.wait + 15 * n
    decreases |ops|
  {
    if ops != [] {
      assert Failing(ops[1..]);
      Backoff(Step(c, ops[0]), ops[1..]);
    }
  }

  /** The first attempt that is not refused, after the wait, connects. */
  lemma RetryConnects(c: Client, now: int, fd: nat)
    requires c.state == Disconnected && now - c.times.reconnect > c.wait
    ensures var c' := Step(c, Run(now, Accepted(fd))); c'.state == Connected && c'.sockfd == fd && c'.history.since == now && c'.history.log == []
  {
  }

  // ----- the client in memory -----

  class Tier2 {
    var state: State
    var sockfd: int
    var lastRecv: int
    var lastKeepalive: int
    var lastReconnect: int
    /** current_reconnect_waittime */
    var wait: int
    ghost var history: History

    ghost function Value(): Client
      reads this
    {
      Client(state, sockfd, Times(lastRecv, lastKeepalive, lastReconnect), wait, history)
    }

    /** tier2_client_init: 0, or -1 unless the connection was made or only refused. */
    constructor (now: int, a: Attempt)
      ensures Value() == Start(now, a) && Inv(Value())
    {
      state, sockfd, lastRecv, lastKeepalive, lastReconnect := Disconnected, -1, 0, 0, 0;
      wait := RECONNECT_WAITTIME;
      history := History([], [], 0, 0);
      new;
      var _ := OpenClient(now, a);
    }

    /** tier2_client_open: 0 when connected, or a negative error. */
    method OpenClient(now: int, a: Attempt) returns (rc: int)
      modifies this
      ensures Value() == Open(old(Value()), now, a)
      ensures rc == 0 <==> state != Disconnected
    {
      lastReconnect := now;
      lastKeepalive := lastReconnect;
      if state != Disconnected {
        return 0;
      }
      if a.Unresolved? {
        return -2;
      }
      lastRecv := now;
      if a.NoSocket? {
        sockfd := -1;
        return -1;
      }
      sockfd := a.fd;
      if a.Refused? {
        CloseClient();
        return -11;
      }
      state := Connected;
      history := History([], history.past + [history.log], now, history.closed);
      return 0;
    }

    /** tier2_client_close */
    method CloseClient()
      requires state != Disconnected ==> sockfd >= 0
      modifies this
      ensures Value() == Close(old(Value()))
    {
      if state == Disconnected {
        return;
      }
      state := Disconnected;
      if sockfd >= 0 {
        history := history.(closed := history.closed + 1);
        sockfd := -1;
      }
    }

    /** tier2_client_send */
    method SendText(ghost what: What, ghost now: int) returns (rc: int)
      modifies this`history
      ensures Value() == Send(old(Value()), what, now) && (rc < 0 <==> sockfd < 0)
    {
      if sockfd < 0 {
        return -1;
      }
      history := history.(log := history.log + [Sent(what, now)]);
      return 0;
    }

    /** tier2_client_run */
    method RunClient(now: int, a: Attempt)
      requires Inv(Value())
      modifies this
      ensures Inv(Value()) && Value() == Step(old(Value()), Run(now, a))
    {
      hide Stage, Spaced, Proper, Remembered;
      StepKeeps(Value(), Run(now, a));
      if state == Disconnected {
        if now - lastReconnect > wait {
          wait := wait + 15;
          var _ := OpenClient(now, a);
        }
      } else {
        if now - lastRecv > IDLE_TIMEOUT {
          CloseClient();
          var _ := OpenClient(now, a);
        }
        if state == Connected {
          if wait != RECONNECT_WAITTIME {
            wait := RECONNECT_WAITTIME;
          }
        }
        if state == Verified || state == Unverified {
          if now - lastKeepalive > KEEPALIVE_TIMEOUT {
            var _ := SendText(Keepalive, now);
            lastKeepalive := now;
          }
        }
      }
    }

    /** on_stream_read and tier2_client_receive; `verified` is what tier2_client_verifylogin makes of the line. */
    method ReceiveText(now: int, empty: bool, verified: bool)
      requires Inv(Value())
      modifies this
      ensures Inv(Value()) && Value() == Step(old(Value()), Receive(now, empty, verified))
    {
      hide Stage, Spaced, Proper, Remembered;
      StepKeeps(Value(), Receive(now, empty, verified));
      if empty {
        return;
      }
      lastRecv := now;
      match state {
        case Connected =>
          history := history.(log := history.log + [Heard(verified, now)]);
          state := Prompt;
          var _ := SendText(Login, now);
        case Prompt =>
          history := history.(log := history.log + [Heard(verified, now)]);
          if verified {
            state := Verified;
          } else {
            state := Unverified;
          }
        case Unverified => history := history.(log := history.log + [Heard(verified, now)]);
        case Verified => history := history.(log := history.log + [Heard(verified, now)]);
        case Disconnected =>
      }
    }

    /** tier2_client_publish */
    method PublishText(now: int) returns (rc: int)
      requires Inv(Value())
      modifies this
      ensures Inv(Value()) && Value() == Step(old(Value()), Publish(now)) && (rc >= 0 <==> state == Verified)
    {
      hide Stage, Spaced, Proper, Remembered;
      StepKeeps(Value(), Publish(now));
      if state != Verified {
        return -1;
      }
      rc := SendText(Packet, now);
    }
  }
}
