/**
 The hand-off of response messages from the thread that runs a WSGI application to the coroutine
 that sends them: a queue of five places, and an event that is set through callbacks which
 the thread schedules on the event loop. Every interleaving of the thread, the callbacks and
 the sender is a run of the state machine below.
 */
module Wsgi {
  import opened Wrappers

  datatype Message = Start(status: nat) | Body(chunk: string, more: bool)

  // ---- what the application produces ----

  /** One call of `start_response`, or one chunk of the iterable that the application returns. */
  datatype AppEvent = StartResponse(status: nat) | Chunk(chunk: string)

  /** The messages for the events; only the first call of `start_response` starts the response. */
  function Outgoing(events: seq<AppEvent>, started: bool): seq<Message> {
    if events == [] then []
    else
      match events[0]
      case StartResponse(status) => (if started then [] else [Start(status)]) + Outgoing(events[1..], true)
      case Chunk(chunk) => [Body(chunk, true)] + Outgoing(events[1..], started)
  }

  const LAST: Message := Body("", false)

  function Messages(events: seq<AppEvent>): seq<Message> {
    Outgoing(events, false) + [LAST]
  }

  /** What is put into the queue: the messages, then the end mark. */
  function Items(messages: seq<Message>): (items: seq<Option<Message>>)
    ensures |items| == |messages| + 1
    ensures forall i | 0 <= i < |messages| :: items[i] == Some(messages[i])
    ensures items[|messages|] == None
  {
    if messages == [] then [None] else [Some(messages[0])] + Items(messages[1..])
  }

  ghost predicate Ended(messages: seq<Message>, i: nat)
    requires i < |messages|
  {
    messages[i].Body? && !messages[i].more
  }

  /** Messages that do not end the response, of which at most one, or none, starts it. */
  ghost predicate Shaped(messages: seq<Message>, started: bool) {
    && (forall i | 0 <= i < |messages| :: !Ended(messages, i) && (started ==> messages[i].Body?))
    && (forall i, j | 0 <= i < j < |messages| :: messages[i].Body? || messages[j].Body?)
  }

  lemma {:induction false} OutgoingShape(events: seq<AppEvent>, started: bool)
    ensures Shaped(Outgoing(events, started), started)
  {
    if events != [] {
      var later := Outgoing(events[1..], started || events[0].StartResponse?);
      OutgoingShape(events[1..], started || events[0].StartResponse?);
      match events[0]
      case StartResponse(status) =>
        if started { assert [] + later == later; } else { ShapedCons(Start(status), later, true); }
      case Chunk(chunk) => ShapedCons(Body(chunk, true), later, started);
    }
  }

  lemma ShapedCons(m: Message, later: seq<Message>, started: bool)
    requires Shaped(later, started) && (m.Start? ==> started) && (m.Body? ==> m.more)
    ensures Shaped([m] + later, started && m.Body?)
  {
    var all := [m] + later;
    forall i | 0 <= i < |all| ensures !Ended(all, i) && (started && m.Body? ==> all[i].Body?) {
      if i > 0 { assert !Ended(later, i - 1); }
    }
    forall i, j | 0 <= i < j < |all| ensures all[i].Body? || all[j].Body? {
      assert !Ended(later, j - 1);
      if i > 0 { assert later[i - 1].Body? || later[j - 1].Body?; }
    }
  }

  /** Exactly the last message says that no more body follows, and at most one message starts the response. */
  lemma MessagesShape(events: seq<AppEvent>)
    ensures forall i | 0 <= i < |Messages(events)| :: Ended(Messages(events), i) <==> i == |Messages(events)| - 1
    ensures forall i, j | 0 <= i < j < |Messages(events)| :: !(Messages(events)[i].Start? && Messages(events)[j].Start?)
  {
    hide Outgoing;
    OutgoingShape(events, false);
    var out := Outgoing(events, false);
    forall i | 0 <= i < |out| ensures !Ended(Messages(events), i) { assert !Ended(out, i); }
  }

  // ---- what the messages carry ----

  /** The chunks of the response, in their order. */
  function Chunks(events: seq<AppEvent>): seq<string> {
    if events == [] then []
    else (if events[0].Chunk? then [events[0].chunk] else []) + Chunks(events[1..])
  }

  function Bodies(chunks: seq<string>): (bodies: seq<Message>)
    ensures |bodies| == |chunks| && forall i | 0 <= i < |chunks| :: bodies[i] == Body(chunks[i], true)
  {
    seq(|chunks|, i requires 0 <= i < |chunks| => Body(chunks[i], true))
  }

  predicate NotStarted(events: seq<AppEvent>) {
    forall i | 0 <= i < |events| :: events[i].Chunk?
  }

  lemma {:induction false} OutgoingStarted(events: seq<AppEvent>)
    ensures Outgoing(events, true) == Bodies(Chunks(events))
  {
    if events != [] {
      OutgoingStarted(events[1..]);
      assert Outgoing(events, true) == Bodies(Chunks(events));
    }
  }

  lemma {:induction false} OutgoingNotStarted(before: seq<AppEvent>, after: seq<AppEvent>)
    requires NotStarted(before)
    ensures Outgoing(before + after, false) == Bodies(Chunks(before)) + Outgoing(after, false)
  {
    if before == [] {
      assert before + after == after;
    } else {
      assert (before + after)[1..] == before[1..] + after;
      OutgoingNotStarted(before[1..], after);
      assert Bodies(Chunks(before)) == [Body(before[0].chunk, true)] + Bodies(Chunks(before[1..]));
    }
  }

  /** Without a call of `start_response` the messages are the chunks, in their order, and the last message. */
  lemma ChunksWithoutStart(events: seq<AppEvent>)
    requires NotStarted(events)
    ensures Messages(events) == Bodies(Chunks(events)) + [LAST]
  {
    OutgoingNotStarted(events, []);
    assert events + [] == events;
  }

  /**
   The first call of `start_response` gives the start message its status and its place: every chunk
   becomes a message, in order, and exactly those that come after that call stand behind the start.
   */
  lemma ChunksAroundStart(before: seq<AppEvent>, status: nat, after: seq<AppEvent>)
    requires NotStarted(before)
    ensures Messages(before + [StartResponse(status)] + after) ==
              Bodies(Chunks(before)) + [Start(status)] + Bodies(Chunks(after)) + [LAST]
  {
    hide Outgoing, Bodies, Chunks;
    var rest := [StartResponse(status)] + after;
    assert before + [StartResponse(status)] + after == before + rest;
    OutgoingNotStarted(before, rest);
    StartsNow(status, after);
    OutgoingStarted(after);
    Regrouped(Bodies(Chunks(before)), [Start(status)], Bodies(Chunks(after)));
  }

  lemma StartsNow(status: nat, after: seq<AppEvent>)
    ensures Outgoing([StartResponse(status)] + after, false) == [Start(status)] + Outgoing(after, true)
  {
    assert ([StartResponse(status)] + after)[1..] == after;
  }

  lemma Regrouped(a: seq<Message>, b: seq<Message>, c: seq<Message>)
    ensures a + (b + c) == a + b + c
  {
  }

  // ---- the state machine ----

  const CAPACITY := 5

  /** Where the sender stands: about to look into the queue, sending, waiting for the event, returned, or ended by an error. */
  datatype Phase = Looking | Sending(message: Message) | Waiting | Done | Failed(message: Message)

  /**
   `next` items were put into the queue, and `owes` says that the call that schedules the event
   is the thread's next step. `pending` callbacks are scheduled and have not run yet.
   */
  datatype State = State(
    next: nat, owes: bool, queue: seq<Option<Message>>, pending: nat, event: bool, phase: Phase, sent: seq<Message>)

  /** The thread puts or schedules; the loop runs a callback; the sender takes, finds nothing, sends or wakes up. */
  datatype Action = Put | Schedule | RunCallback | Take | FindEmpty | Send | FailSend | Wake

  const INITIAL := State(0, false, [], 0, false, Looking, [])

  predicate Enabled(messages: seq<Message>, s: State, a: Action) {
    match a
    case Put => !s.owes && s.next <= |messages| && |s.queue| < CAPACITY
    case Schedule => s.owes
    case RunCallback => s.pending > 0
    case Take => s.phase == Looking && s.queue != []
    case FindEmpty => s.phase == Looking && s.queue == []
    case Send => s.phase.Sending?
    case FailSend => s.phase.Sending?
    case Wake => s.phase == Waiting && s.event
  }

  /** The last message and the end mark share one scheduled callback. */
  function Do(messages: seq<Message>, s: State, a: Action): State
    requires Enabled(messages, s, a)
  {
    match a
    case Put => s.(queue := s.queue + [Items(messages)[s.next]], next := s.next + 1, owes := s.next + 1 != |messages|)
    case Schedule => s.(owes := false, pending := s.pending + 1)
    case RunCallback => s.(pending := s.pending - 1, event := true)
    case Take => s.(queue := s.queue[1..], phase := if s.queue[0] == None then Done else Sending(s.queue[0].value))
    case FindEmpty => s.(phase := Waiting)
    case Send => s.(phase := Looking, sent := s.sent + [s.phase.message])
    case FailSend => s.(phase := Failed(s.phase.message))
    case Wake => s.(phase := Looking, event := false)
  }

  // ---- the invariant ----

  function InFlight(s: State): seq<Message> {
    if s.phase.Sending? || s.phase.Failed? then [s.phase.message] else []
  }

  /** The queue holds the items that were put and not taken, and the messages taken are sent or being sent. */
  predicate InOrder(messages: seq<Message>, s: State) {
    && |s.queue| <= s.next <= |messages| + 1
    && var taken := s.next - |s.queue|;
       && s.queue == Items(messages)[taken..s.next]
       && (s.phase == Done <==> taken == |messages| + 1)
       && s.sent + InFlight(s) == (if taken <= |messages| then messages[..taken] else messages)
  }

  /** The items put since the last callback was scheduled. */
  function Unannounced(messages: seq<Message>, s: State): nat {
    if s.owes then (if s.next == |messages| + 1 then 2 else 1)
    else if s.next == |messages| then 1
    else 0
  }

  /** A waiting sender that nothing is going to wake up missed no more than what is still to be announced. */
  predicate NoneMissed(messages: seq<Message>, s: State) {
    s.phase == Waiting && !s.event && s.pending == 0 ==> |s.queue| <= Unannounced(messages, s)
  }

  predicate Invariant(messages: seq<Message>, s: State) {
    && messages != []
    && InOrder(messages, s) && NoneMissed(messages, s)
    && |s.queue| <= CAPACITY
    && (s.owes ==> 0 < s.next && s.next != |messages|)
  }

  lemma PutInOrder(messages: seq<Message>, s: State)
    requires messages != [] && InOrder(messages, s) && Enabled(messages, s, Put)
    ensures InOrder(messages, Do(messages, s, Put))
  {
    hide Items;
    var items, taken := Items(messages), s.next - |s.queue|;
    SliceNext(items, taken, s.next);
  }

  lemma SliceNext(items: seq<Option<Message>>, from: nat, to: nat)
    requires from <= to < |items|
    ensures items[from..to + 1] == items[from..to] + [items[to]]
  {
  }

  lemma TakeInOrder(messages: seq<Message>, s: State)
    requires messages != [] && InOrder(messages, s) && Enabled(messages, s, Take)
    ensures InOrder(messages, Do(messages, s, Take))
  {
    hide Items;
    var items, taken := Items(messages), s.next - |s.queue|;
    assert items[taken..s.next][1..] == items[taken + 1..s.next] && s.queue[0] == items[taken];
    assert s.sent + [] == s.sent;
    if taken < |messages| {
      assert items[taken] == Some(messages[taken]);
      assert messages[..taken + 1] == messages[..taken] + [messages[taken]];
    } else {
      assert messages[..taken] == messages;
    }
  }

  lemma SendInOrder(messages: seq<Message>, s: State)
    requires messages != [] && InOrder(messages, s) && Enabled(messages, s, Send)
    ensures InOrder(messages, Do(messages, s, Send))
  {
    hide Items;
    var sent := s.sent + [s.phase.message];
    assert sent + [] == sent;
  }

  lemma InOrderStep(messages: seq<Message>, s: State, a: Action)
    requires messages != [] && InOrder(messages, s) && Enabled(messages, s, a)
    ensures InOrder(messages, Do(messages, s, a))
  {
    hide Items;
    match a
    case Put => PutInOrder(messages, s);
    case Take => TakeInOrder(messages, s);
    case Send => SendInOrder(messages, s);
    case _ =>
  }

  lemma StepKeepsInvariant(messages: seq<Message>, s: State, a: Action)
    requires Invariant(messages, s) && Enabled(messages, s, a)
    ensures Invariant(messages, Do(messages, s, a))
  {
    InOrderStep(messages, s, a);
  }

  // ---- runs ----

  ghost predicate IsRun(messages: seq<Message>, s: State, run: seq<Action>, t: State)
    decreases |run|
  {
    if run == [] then s == t
    else Enabled(messages, s, run[0]) && IsRun(messages, Do(messages, s, run[0]), run[1..], t)
  }

  lemma {:induction false} RunKeepsInvariant(messages: seq<Message>, s: State, run: seq<Action>, t: State)
    requires Invariant(messages, s) && IsRun(messages, s, run, t)
    ensures Invariant(messages, t)
    decreases |run|
  {
    if run != [] {
      StepKeepsInvariant(messages, s, run[0]);
      RunKeepsInvariant(messages, Do(messages, s, run[0]), run[1..], t);
    }
  }

  ghost predicate Reachable(messages: seq<Message>, s: State) {
    exists run :: IsRun(messages, INITIAL, run, s)
  }

  lemma ReachableInvariant(messages: seq<Message>, s: State)
    requires messages != [] && Reachable(messages, s)
    ensures Invariant(messages, s)
  {
    var run :| IsRun(messages, INITIAL, run, s);
    InitialInvariant(messages);
    RunKeepsInvariant(messages, INITIAL, run, s);
  }

  lemma InitialInvariant(messages: seq<Message>)
    requires messages != []
    ensures Invariant(messages, INITIAL)
  {
    assert Items(messages)[0..0] == [] && messages[..0] == [];
  }

  /** First in, first out: in every interleaving, what was sent is a prefix of what was produced. */
  lemma SentInOrder(messages: seq<Message>, s: State)
    requires messages != [] && Reachable(messages, s)
    ensures s.sent <= messages && |s.queue| <= CAPACITY
  {
    ReachableInvariant(messages, s);
    var taken := s.next - |s.queue|;
    assert s.sent <= s.sent + InFlight(s);
  }

  /** While the sender waits with items in the queue, a wakeup is set, scheduled, or about to be scheduled. */
  lemma NoLostWakeup(messages: seq<Message>, s: State)
    requires messages != [] && Reachable(messages, s)
    requires s.phase == Waiting && s.queue != []
    ensures s.event || s.pending > 0 || s.owes || (s.next == |messages| && Enabled(messages, s, Put))
  {
    ReachableInvariant(messages, s);
  }

  /** The thread and the sender never both wait for each other, unless an error has ended the sender. */
  lemma NeverBothBlocked(messages: seq<Message>, s: State)
    requires messages != [] && Reachable(messages, s) && !s.phase.Failed?
    requires !s.owes && |s.queue| == CAPACITY
    ensures Enabled(messages, s, Take) || Enabled(messages, s, Send)
            || Enabled(messages, s, Wake) || Enabled(messages, s, RunCallback)
  {
    ReachableInvariant(messages, s);
  }

  /** Until the sender has ended, somebody can make a step. */
  lemma Progress(messages: seq<Message>, s: State)
    requires messages != [] && Reachable(messages, s) && s.phase != Done && !s.phase.Failed?
    ensures exists a :: Enabled(messages, s, a)
  {
    ReachableInvariant(messages, s);
    if s.owes { assert Enabled(messages, s, Schedule); }
    else if s.pending > 0 { assert Enabled(messages, s, RunCallback); }
    else if s.phase.Sending? { assert Enabled(messages, s, Send); }
    else if s.phase == Looking { assert Enabled(messages, s, if s.queue == [] then FindEmpty else Take); }
    else if s.event { assert Enabled(messages, s, Wake); }
    else { assert Enabled(messages, s, Put); }
  }

  // ---- termination ----

  function PhaseWeight(p: Phase): nat {
    match p case Sending(_) => 2 case Looking => 1 case _ => 0
  }

  /** A number that every step decreases. */
  function Remaining(messages: seq<Message>, s: State): nat
    requires s.next <= |messages| + 1
  {
    7 * (|messages| + 1 - s.next) + (if s.owes then 4 else 0) + 3 * s.pending + (if s.event then 2 else 0)
    + 2 * |s.queue| + PhaseWeight(s.phase)
  }

  lemma StepDecreases(messages: seq<Message>, s: State, a: Action)
    requires Invariant(messages, s) && Enabled(messages, s, a)
    ensures Invariant(messages, Do(messages, s, a)) && Remaining(messages, Do(messages, s, a)) < Remaining(messages, s)
  {
    hide InOrder, NoneMissed, Items;
    InOrderBounds(messages, s);
    StepKeepsInvariant(messages, s, a);
    InOrderBounds(messages, Do(messages, s, a));
  }

  lemma InOrderBounds(messages: seq<Message>, s: State)
    requires Invariant(messages, s)
    ensures |s.queue| <= s.next <= |messages| + 1
  {
  }

  lemma {:induction false} RunIsBounded(messages: seq<Message>, s: State, run: seq<Action>, t: State)
    requires Invariant(messages, s) && IsRun(messages, s, run, t) && s.next <= |messages| + 1
    ensures t.next <= |messages| + 1 && |run| + Remaining(messages, t) <= Remaining(messages, s)
    decreases |run|
  {
    hide Invariant, Enabled, Do, Remaining;
    InOrderBounds(messages, s);
    if run != [] {
      StepDecreases(messages, s, run[0]);
      InOrderBounds(messages, Do(messages, s, run[0]));
      RunIsBounded(messages, Do(messages, s, run[0]), run[1..], t);
    }
  }

  /** Every run ends after a bounded number of steps, and where no step is left everything was sent. */
  lemma RunsEndComplete(messages: seq<Message>, run: seq<Action>, t: State)
    requires messages != [] && IsRun(messages, INITIAL, run, t)
    ensures |run| <= 7 * |messages| + 8
    ensures (forall a :: !Enabled(messages, t, a)) && !t.phase.Failed? ==> t.phase == Done && t.sent == messages
    ensures t.phase == Done ==> t.sent == messages && t.queue == []
  {
    hide Invariant, IsRun, Enabled, Items;
    assert Reachable(messages, t);
    InitialInvariant(messages);
    RunKeepsInvariant(messages, INITIAL, run, t);
    RunIsBounded(messages, INITIAL, run, t);
    DoneIsComplete(messages, t);
    if t.phase != Done && !t.phase.Failed? { Progress(messages, t); }
  }

  /** A sender that returns has sent the whole response: all chunks of the application around the first start, and the end. */
  lemma ResponseIsSent(before: seq<AppEvent>, status: nat, after: seq<AppEvent>, run: seq<Action>, t: State)
    requires NotStarted(before)
    requires IsRun(Messages(before + [StartResponse(status)] + after), INITIAL, run, t) && t.phase == Done
    ensures t.sent == Bodies(Chunks(before)) + [Start(status)] + Bodies(Chunks(after)) + [LAST]
  {
    hide IsRun, Messages, Bodies, Chunks;
    ChunksAroundStart(before, status, after);
    RunsEndComplete(Messages(before + [StartResponse(status)] + after), run, t);
  }

  /**
   A `send` that raises ends the sender, and nobody takes from the queue any more. Where such a
   run ends, the thread is blocked for good exactly if more than five items come after the
   message that failed, of which the end mark is the last; otherwise it has put all of them.
   */
  lemma FailedSendBlocks(messages: seq<Message>, run: seq<Action>, t: State)
    requires messages != [] && IsRun(messages, INITIAL, run, t) && t.phase.Failed? && forall a :: !Enabled(messages, t, a)
    ensures |t.sent| < |messages| && t.sent + [t.phase.message] == messages[..|t.sent| + 1]
    ensures t.next <= |messages| <==> |messages| - |t.sent| > CAPACITY
    ensures t.next <= |messages| ==> |t.queue| == CAPACITY && !t.owes
  {
    hide IsRun, Items, NoneMissed;
    assert Reachable(messages, t);
    ReachableInvariant(messages, t);
    assert !Enabled(messages, t, Put) && !Enabled(messages, t, Schedule);
    var taken := t.next - |t.queue|;
    assert |t.sent + InFlight(t)| == |t.sent| + 1;
  }

  lemma DoneIsComplete(messages: seq<Message>, s: State)
    requires Invariant(messages, s)
    ensures s.phase == Done ==> s.sent == messages && s.queue == []
  {
    hide Items;
    assert s.sent + [] == s.sent;
  }
}
