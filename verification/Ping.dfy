/**
 The websocket ping timer: a loop that sends a ping when the last one is old enough, and aborts
 the connection when the pong does not come in time. Pings and pongs are those of sections
 5.5.2 and 5.5.3 of RFC 6455. Times are seconds since the epoch, so they are positive.
 */
module Ping {
  import opened Wrappers

  datatype Connection = Connecting | Open | LocalClosing | Closed

  /** `timeout` is 0 while no pong is awaited. */
  datatype State = State(lastPing: real, timeout: real, payload: string, aborted: bool, ended: bool)

  datatype Timer = Timer(interval: real, limit: real)

  predicate Running(t: Timer) {
    t.interval > 0.0 && t.limit > 0.0
  }

  function Min(a: real, b: real): real {
    if a <= b then a else b
  }

  predicate TimedOut(s: State, now: real) {
    s.timeout != 0.0 && now >= s.timeout
  }

  predicate PingDue(t: Timer, s: State, now: real) {
    s.timeout == 0.0 && now >= s.lastPing + t.interval
  }

  /** One round of the loop; `random` is the payload of a ping. */
  function Round(t: Timer, s: State, conn: Connection, now: real, random: string): State {
    if conn == LocalClosing || conn == Closed then s.(ended := true)
    else if conn == Connecting then s
    else if TimedOut(s, now) then s.(aborted := true, ended := true)
    else if PingDue(t, s, now) then State(now, now + t.limit, random, s.aborted, s.ended)
    else s
  }

  /** How long the loop sleeps after a round. */
  function Wait(t: Timer, s: State, conn: Connection, now: real): real {
    if conn == Open && !TimedOut(s, now) && PingDue(t, s, now) then Min(t.interval, t.limit) else t.interval
  }

  predicate Accepted(s: State, payload: string) {
    payload == "" || s.payload == "" || payload == s.payload
  }

  function Pong(s: State, payload: string): State {
    if Accepted(s, payload) then s.(timeout := 0.0) else s
  }

  class WSProtocolOpsiconfd {
    const pingInterval: real
    const pingTimeout: real
    var lastPingSent: real
    var currentPongTimeout: real
    var currentPingPayload: string
    var transportAborted: bool
    var taskEnded: bool

    constructor (interval: real, timeout: real, now: real)
      ensures pingInterval == interval && pingTimeout == timeout && Value() == State(now, 0.0, "", false, false)
    {
      pingInterval, pingTimeout, lastPingSent, currentPongTimeout := interval, timeout, now, 0.0;
      currentPingPayload, transportAborted, taskEnded := "", false, false;
    }

    function Value(): State
      reads this
    {
      State(lastPingSent, currentPongTimeout, currentPingPayload, transportAborted, taskEnded)
    }

    method PingPongRound(conn: Connection, now: real, random: string) returns (waitTime: real, ping: Option<string>)
      requires !taskEnded
      modifies this
      ensures Value() == Round(Timer(pingInterval, pingTimeout), old(Value()), conn, now, random)
      ensures !taskEnded ==> waitTime == Wait(Timer(pingInterval, pingTimeout), old(Value()), conn, now)
      ensures ping.Some? <==> lastPingSent == now && currentPongTimeout == now + pingTimeout && currentPingPayload == random
                              && conn == Open && old(PingDue(Timer(pingInterval, pingTimeout), Value(), now))
    {
      waitTime, ping := pingInterval, None;
      if conn == LocalClosing || conn == Closed {
        taskEnded := true;
        return;
      }
      if conn == Open {
        if currentPongTimeout != 0.0 && now >= currentPongTimeout {
          transportAborted, taskEnded := true, true;
          return;
        }
        if currentPongTimeout == 0.0 && now >= lastPingSent + pingInterval {
          lastPingSent := now;
          currentPongTimeout := now + pingTimeout;
          currentPingPayload := random;
          ping := Some(random);
          waitTime := if pingInterval <= pingTimeout then pingInterval else pingTimeout;
        }
      }
    }

    method HandlePong(payload: string)
      modifies this`currentPongTimeout
      ensures Value() == Pong(old(Value()), payload)
    {
      if payload == "" || currentPingPayload == "" || payload == currentPingPayload {
        currentPongTimeout := 0.0;
      }
    }
  }

  // ---- everything that happens on a connection ----

  datatype Event = Check(time: real, conn: Connection, random: string) | Received(time: real, payload: string)

  function Handle(t: Timer, s: State, e: Event): State {
    if s.ended then s
    else
      match e
      case Check(time, conn, random) => Round(t, s, conn, time, random)
      case Received(_, payload) => Pong(s, payload)
  }

  /** The state before the event with this index. */
  function StateAt(t: Timer, begin: State, events: seq<Event>, i: nat): State
    requires i <= |events|
  {
    if i == 0 then begin else Handle(t, StateAt(t, begin, events, i - 1), events[i - 1])
  }

  /** Events come in the order of their times, all after the connection was made. */
  ghost predicate InTime(begin: State, events: seq<Event>) {
    && begin.lastPing > 0.0 && begin.timeout == 0.0 && !begin.aborted && !begin.ended
    && (forall i | 0 <= i < |events| :: events[i].time >= begin.lastPing)
    && (forall i, j | 0 <= i < j < |events| :: events[i].time <= events[j].time)
  }

  /** The event with this index sends a ping. */
  ghost predicate Sends(t: Timer, begin: State, events: seq<Event>, i: nat)
    requires i < |events|
  {
    var s := StateAt(t, begin, events, i);
    && events[i].Check? && events[i].conn == Open && !s.ended
    && !TimedOut(s, events[i].time) && PingDue(t, s, events[i].time)
  }

  /** A pong that answers the ping on its way, or counts as an answer. */
  ghost predicate Answers(t: Timer, begin: State, events: seq<Event>, i: nat)
    requires i < |events|
  {
    var s := StateAt(t, begin, events, i);
    events[i].Received? && !s.ended && Accepted(s, events[i].payload)
  }

  /** The ping of event `p` is not answered before event `i`. */
  ghost predicate Outstanding(t: Timer, begin: State, events: seq<Event>, p: nat, i: nat)
    requires p < i <= |events|
  {
    Sends(t, begin, events, p) && forall k | p < k < i :: !Answers(t, begin, events, k)
  }

  ghost predicate NoneOutstanding(t: Timer, begin: State, events: seq<Event>, i: nat)
    requires i <= |events|
  {
    forall p: nat | p < i :: !Outstanding(t, begin, events, p, i)
  }

  lemma OutstandingEarlier(t: Timer, begin: State, events: seq<Event>, q: nat, i: nat)
    requires q + 1 < i <= |events|
    ensures Outstanding(t, begin, events, q, i) <==> Outstanding(t, begin, events, q, i - 1) && !Answers(t, begin, events, i - 1)
  {
    hide Sends, Answers;
  }

  /** The timeout is set exactly while one ping is outstanding, and it is the one of that ping. */
  lemma {:induction false} TimeoutTracksPing(t: Timer, begin: State, events: seq<Event>, i: nat) returns (p: Option<nat>)
    requires Running(t) && InTime(begin, events) && i <= |events|
    ensures p == None ==> StateAt(t, begin, events, i).timeout == 0.0 && NoneOutstanding(t, begin, events, i)
    ensures p.Some? ==>
              && p.value < i && Outstanding(t, begin, events, p.value, i)
              && StateAt(t, begin, events, i).timeout == events[p.value].time + t.limit
              && StateAt(t, begin, events, i).timeout > 0.0
              && StateAt(t, begin, events, i).payload == events[p.value].random
              && forall q: nat | q < i && q != p.value :: !Outstanding(t, begin, events, q, i)
  {
    if i == 0 {
      p := None;
    } else {
      p := TimeoutTracksPing(t, begin, events, i - 1);
      var s := StateAt(t, begin, events, i - 1);
      if Sends(t, begin, events, i - 1) {
        forall q: nat | q < i - 1 ensures !Outstanding(t, begin, events, q, i) { OutstandingEarlier(t, begin, events, q, i); }
        p := Some(i - 1);
      } else {
        forall q: nat | q < i - 1
          ensures Outstanding(t, begin, events, q, i) <==> Outstanding(t, begin, events, q, i - 1) && !Answers(t, begin, events, i - 1)
        {
          OutstandingEarlier(t, begin, events, q, i);
        }
        if Answers(t, begin, events, i - 1) { p := None; }
      }
    }
  }

  /** At most one ping is outstanding. */
  lemma OnePingOutstanding(t: Timer, begin: State, events: seq<Event>, p: nat, q: nat, i: nat)
    requires Running(t) && InTime(begin, events) && p < i <= |events| && q < i
    requires Outstanding(t, begin, events, p, i) && Outstanding(t, begin, events, q, i)
    ensures p == q
  {
    var r := TimeoutTracksPing(t, begin, events, i);
  }

  /**
   A pong ends the wait for an outstanding ping exactly if it has no payload, or the payload of that
   ping, or that ping had none; a pong with another payload leaves the deadline as it is.
   */
  lemma PongEndsWaitIff(t: Timer, begin: State, events: seq<Event>, p: nat, i: nat)
    requires Running(t) && InTime(begin, events) && p < i < |events| && Outstanding(t, begin, events, p, i)
    requires events[i].Received? && !StateAt(t, begin, events, i).ended
    ensures var payload, after := events[i].payload, StateAt(t, begin, events, i + 1);
            && (Outstanding(t, begin, events, p, i + 1) <==>
                  payload != "" && events[p].random != "" && payload != events[p].random)
            && (Outstanding(t, begin, events, p, i + 1) ==> after.timeout == events[p].time + t.limit)
            && (!Outstanding(t, begin, events, p, i + 1) ==> after.timeout == 0.0)
  {
    hide Sends, StateAt, InTime;
    var q := TimeoutTracksPing(t, begin, events, i);
    OutstandingEarlier(t, begin, events, p, i + 1);
    PongState(t, begin, events, i);
  }

  lemma PongState(t: Timer, begin: State, events: seq<Event>, i: nat)
    requires i < |events| && events[i].Received? && !StateAt(t, begin, events, i).ended
    ensures StateAt(t, begin, events, i + 1) == Pong(StateAt(t, begin, events, i), events[i].payload)
  {
  }

  /** A check of a connection that is closing or closed ends the loop: no ping, no abort, and nothing changes any more. */
  lemma {:induction false} ClosingEnds(t: Timer, begin: State, events: seq<Event>, i: nat, j: nat)
    requires i < j <= |events| && events[i].Check? && (events[i].conn == LocalClosing || events[i].conn == Closed)
    requires !StateAt(t, begin, events, i).ended
    ensures StateAt(t, begin, events, j) == StateAt(t, begin, events, i).(ended := true)
    decreases j
  {
    if j > i + 1 { ClosingEnds(t, begin, events, i, j - 1); }
  }

  // ---- when pings are sent ----

  /** The time from which the interval to the next ping counts. */
  lemma {:induction false} LastPingKnown(t: Timer, begin: State, events: seq<Event>, i: nat) returns (p: Option<nat>)
    requires i <= |events|
    ensures match p
            case None => StateAt(t, begin, events, i).lastPing == begin.lastPing && forall q: nat | q < i :: !Sends(t, begin, events, q)
            case Some(p) =>
              && p < i && Sends(t, begin, events, p) && StateAt(t, begin, events, i).lastPing == events[p].time
              && forall q: nat | p < q < i :: !Sends(t, begin, events, q)
  {
    if i == 0 {
      p := None;
    } else {
      p := LastPingKnown(t, begin, events, i - 1);
      if Sends(t, begin, events, i - 1) { p := Some(i - 1); }
    }
  }

  /**
   A check of an open connection sends a ping exactly if no ping is outstanding and at least one
   interval has passed since every ping before it and since the connection was made.
   */
  lemma SendsIff(t: Timer, begin: State, events: seq<Event>, i: nat)
    requires Running(t) && InTime(begin, events) && i < |events|
    requires events[i].Check? && events[i].conn == Open && !StateAt(t, begin, events, i).ended
    ensures Sends(t, begin, events, i) <==>
              && NoneOutstanding(t, begin, events, i)
              && events[i].time >= begin.lastPing + t.interval
              && forall p: nat | p < i && Sends(t, begin, events, p) :: events[i].time >= events[p].time + t.interval
  {
    hide StateAt, Outstanding;
    var q := TimeoutTracksPing(t, begin, events, i);
    var p := LastPingKnown(t, begin, events, i);
    if p.Some? {
      forall k: nat | k < i && Sends(t, begin, events, k) ensures k <= p.value && events[k].time <= events[p.value].time { }
    }
  }

  /** Every ping gets an accepted pong before its deadline, if the connection is watched that long. */
  ghost predicate Punctual(t: Timer, begin: State, events: seq<Event>) {
    forall p: nat, i: nat | p < i < |events| && Sends(t, begin, events, p) && events[i].time >= events[p].time + t.limit ::
      exists k :: p < k < i && Answers(t, begin, events, k)
  }

  /** An abort happens only if the last ping was not answered within the timeout. */
  lemma AbortMeansUnanswered(t: Timer, begin: State, events: seq<Event>, i: nat)
    requires Running(t) && InTime(begin, events) && i < |events|
    ensures StateAt(t, begin, events, i + 1).aborted ==>
              StateAt(t, begin, events, i).aborted || exists p: nat :: Late(t, begin, events, p, i)
  {
    var p := TimeoutTracksPing(t, begin, events, i);
    if p.Some? && events[i].time >= events[p.value].time + t.limit { assert Late(t, begin, events, p.value, i); }
  }

  ghost predicate Late(t: Timer, begin: State, events: seq<Event>, p: nat, i: nat)
    requires i < |events|
  {
    p < i && Outstanding(t, begin, events, p, i) && events[i].time >= events[p].time + t.limit
  }

  lemma PunctualIsNotLate(t: Timer, begin: State, events: seq<Event>, p: nat, i: nat)
    requires i < |events| && Punctual(t, begin, events)
    ensures !Late(t, begin, events, p, i)
  {
    hide Sends, Answers;
  }

  /** A peer whose pongs always come before the deadline is never aborted. */
  lemma {:induction false} PunctualPeerIsKept(t: Timer, begin: State, events: seq<Event>, i: nat)
    requires Running(t) && InTime(begin, events) && Punctual(t, begin, events) && i <= |events|
    ensures !StateAt(t, begin, events, i).aborted
  {
    if i > 0 {
      var before := i - 1;
      PunctualPeerIsKept(t, begin, events, before);
      AbortMeansUnanswered(t, begin, events, before);
      forall p: nat ensures !Late(t, begin, events, p, before) { PunctualIsNotLate(t, begin, events, p, before); }
    }
  }

  // ---- how soon a dead peer is noticed ----

  /** The time of the abort if nothing is received and the loop sleeps exactly as long as it asks for. */
  ghost function AbortTime(t: Timer, s: State, wake: real, rounds: nat): Option<real>
    decreases rounds
  {
    if TimedOut(s, wake) then Some(wake)
    else if rounds == 0 then None
    else AbortTime(t, Round(t, s, Open, wake, "ping"), wake + Wait(t, s, Open, wake), rounds - 1)
  }

  lemma {:induction false} AbortWithin(t: Timer, s: State, wake: real, rounds: nat)
    requires Running(t) && s.timeout > 0.0 && wake < s.timeout + t.interval
    requires s.timeout - wake <= (rounds as real) * t.interval
    ensures AbortTime(t, s, wake, rounds).Some? && s.timeout <= AbortTime(t, s, wake, rounds).value < s.timeout + t.interval
    decreases rounds
  {
    if !TimedOut(s, wake) {
      assert rounds > 0;
      assert (rounds as real) * t.interval == ((rounds - 1) as real) * t.interval + t.interval;
      AbortWithin(t, s, wake + t.interval, rounds - 1);
    }
  }

  /**
   A ping that is not answered leads to an abort after the timeout, and less than one interval later;
   at once after the timeout if that is not longer than the interval.
   */
  lemma DeadPeerIsAborted(t: Timer, s: State, now: real, random: string) returns (rounds: nat)
    requires Running(t) && now > 0.0 && PingDue(t, s, now)
    ensures var after := Round(t, s, Open, now, random);
            var abort := AbortTime(t, after, now + Wait(t, s, Open, now), rounds);
            && abort.Some? && now + t.limit <= abort.value < now + t.limit + t.interval
            && (t.limit <= t.interval ==> abort.value == now + t.limit)
  {
    var after := Round(t, s, Open, now, random);
    var wake := now + Wait(t, s, Open, now);
    rounds := EnoughRounds(t, after.timeout - wake);
    AbortWithin(t, after, wake, rounds);
  }

  lemma EnoughRounds(t: Timer, span: real) returns (rounds: nat)
    requires Running(t)
    ensures span <= (rounds as real) * t.interval
  {
    if span <= 0.0 {
      rounds := 0;
    } else {
      var ratio := span / t.interval;
      rounds := ratio.Floor + 1;
      assert ratio <= rounds as real;
      assert span == ratio * t.interval;
      assert ratio * t.interval <= (rounds as real) * t.interval;
    }
  }
}
