/**
 The metrics collector: values are buffered under their time stamps and written to redis time
 series in intervals, and gaps are marked with zeros.
 */
module Metrics {
  import opened Wrappers

  datatype ZeroIfMissing = Never | One | Continuous

  datatype Aggregation = Sum | Average

  datatype Metric = Metric(id: string, zeroIfMissing: ZeroIfMissing, aggregation: Aggregation)

  /** The buffered values of one metric, in the order of their first appearance. */
  type Buffer = seq<(int, real)>

  /** Why a command is issued: for values, for an interval without values, or to end a gap. */
  datatype Reason = Values | Missing | GapEnd

  /** `TS.ADD` for the metric. */
  datatype Command = Command(id: string, value: real, timestamp: int, reason: Reason)

  // ---- the buffer ----

  function AddAt(buffer: Buffer, timestamp: int, value: real): Buffer {
    if buffer == [] then [(timestamp, value)]
    else if buffer[0].0 == timestamp then [(timestamp, buffer[0].1 + value)] + buffer[1..]
    else [buffer[0]] + AddAt(buffer[1..], timestamp, value)
  }

  /** The values that are popped by a write at `now`. */
  function Due(buffer: Buffer, now: int): seq<real> {
    if buffer == [] then [] else (if buffer[0].0 <= now then [buffer[0].1] else []) + Due(buffer[1..], now)
  }

  function Later(buffer: Buffer, now: int): Buffer {
    if buffer == [] then [] else (if buffer[0].0 <= now then [] else [buffer[0]]) + Later(buffer[1..], now)
  }

  function SumOf(values: seq<real>): real {
    if values == [] then 0.0 else values[0] + SumOf(values[1..])
  }

  function Total(buffer: Buffer): real {
    if buffer == [] then 0.0 else buffer[0].1 + Total(buffer[1..])
  }

  lemma {:induction false} AddTotal(buffer: Buffer, timestamp: int, value: real)
    ensures Total(AddAt(buffer, timestamp, value)) == Total(buffer) + value
  {
    if buffer != [] && buffer[0].0 != timestamp { AddTotal(buffer[1..], timestamp, value); }
  }

  lemma {:induction false} SplitTotal(buffer: Buffer, now: int)
    ensures Total(buffer) == SumOf(Due(buffer, now)) + Total(Later(buffer, now))
  {
    if buffer != [] {
      SplitTotal(buffer[1..], now);
      var due, later := Due(buffer[1..], now), Later(buffer[1..], now);
      if buffer[0].0 <= now {
        assert ([buffer[0].1] + due)[1..] == due && [] + later == later;
      } else {
        assert ([buffer[0]] + later)[1..] == later && [] + due == due;
      }
    }
  }

  // ---- writing one metric ----

  datatype Status = Status(buffer: Buffer, missing: bool)

  function Value(m: Metric, values: seq<real>): real {
    if m.aggregation == Average && values != [] then SumOf(values) / (|values| as real) else SumOf(values)
  }

  /** `interval` is in seconds, time stamps are in milliseconds. */
  function Commands(m: Metric, st: Status, now: int, interval: int): seq<Command> {
    var values := Due(st.buffer, now);
    if values == [] then
      if m.zeroIfMissing == Never || (m.zeroIfMissing == One && st.missing) then []
      else [Command(m.id, 0.0, now, Missing)]
    else
      (if st.missing then [Command(m.id, 0.0, now - interval * 1000, GapEnd)] else [])
      + [Command(m.id, Value(m, values), now, Values)]
  }

  function AfterWrite(m: Metric, st: Status, now: int): Status {
    Status(Later(st.buffer, now), if Due(st.buffer, now) == [] then m.zeroIfMissing == One || st.missing else false)
  }

  // ---- runs of one metric ----

  datatype Action = Add(value: real, timestamp: int) | Write(now: int)

  function Do(m: Metric, st: Status, a: Action, interval: int): (Status, seq<Command>) {
    match a
    case Add(value, timestamp) => (st.(buffer := AddAt(st.buffer, timestamp, value)), [])
    case Write(now) => (AfterWrite(m, st, now), Commands(m, st, now, interval))
  }

  function Run(m: Metric, st: Status, run: seq<Action>, interval: int): (Status, seq<Command>)
    decreases |run|
  {
    if run == [] then (st, [])
    else
      var (next, commands) := Do(m, st, run[0], interval);
      var (end, more) := Run(m, next, run[1..], interval);
      (end, commands + more)
  }

  function Added(run: seq<Action>): real {
    if run == [] then 0.0 else (match run[0] case Add(value, _) => value case Write(_) => 0.0) + Added(run[1..])
  }

  function Written(commands: seq<Command>): real {
    if commands == [] then 0.0 else commands[0].value + Written(commands[1..])
  }

  lemma {:induction false} WrittenConcat(a: seq<Command>, b: seq<Command>)
    ensures Written(a + b) == Written(a) + Written(b)
  {
    if a == [] {
      assert a + b == b;
    } else {
      assert (a + b)[1..] == a[1..] + b;
      WrittenConcat(a[1..], b);
    }
  }

  lemma CommandsValue(m: Metric, st: Status, now: int, interval: int)
    requires m.aggregation == Sum
    ensures Written(Commands(m, st, now, interval)) == SumOf(Due(st.buffer, now))
  {
    var values := Due(st.buffer, now);
    if values != [] {
      var last := [Command(m.id, Value(m, values), now, Values)];
      assert last[1..] == [];
      WrittenConcat(if st.missing then [Command(m.id, 0.0, now - interval * 1000, GapEnd)] else [], last);
    }
  }

  /** For "sum" metrics, what was written plus what is still buffered is what was added, in every run. */
  lemma {:induction false} SumsAreConserved(m: Metric, st: Status, run: seq<Action>, interval: int)
    requires m.aggregation == Sum
    ensures var (end, commands) := Run(m, st, run, interval);
            Written(commands) + Total(end.buffer) == Total(st.buffer) + Added(run)
    decreases |run|
  {
    hide Commands;
    if run != [] {
      var (next, commands) := Do(m, st, run[0], interval);
      SumsAreConserved(m, next, run[1..], interval);
      WrittenConcat(commands, Run(m, next, run[1..], interval).1);
      match run[0]
      case Add(value, timestamp) => AddTotal(st.buffer, timestamp, value);
      case Write(now) =>
        SplitTotal(st.buffer, now);
        CommandsValue(m, st, now, interval);
    }
  }

  // ---- averages ----

  lemma {:induction false} SumBetween(values: seq<real>, low: real, high: real)
    requires forall i | 0 <= i < |values| :: low <= values[i] <= high
    ensures low * (|values| as real) <= SumOf(values) <= high * (|values| as real)
  {
    if values != [] {
      SumBetween(values[1..], low, high);
      var n := |values| - 1;
      assert (|values| as real) == (n as real) + 1.0;
      assert low * ((n as real) + 1.0) == low * (n as real) + low && high * ((n as real) + 1.0) == high * (n as real) + high;
    }
  }

  lemma QuotientBetween(sum: real, low: real, high: real, n: real)
    requires n > 0.0 && low * n <= sum <= high * n
    ensures sum / n * n == sum && low <= sum / n <= high
  {
    var q := sum / n;
    assert q * n == sum;
    assert q < low ==> q * n < low * n;
    assert q > high ==> q * n > high * n;
  }

  /** An "avg" metric writes the mean of the values that are due: times their number it is their sum, and it lies between them. */
  lemma AverageIsWritten(m: Metric, st: Status, now: int, interval: int, low: real, high: real)
    requires m.aggregation == Average && Due(st.buffer, now) != []
    requires forall i | 0 <= i < |Due(st.buffer, now)| :: low <= Due(st.buffer, now)[i] <= high
    ensures var values, commands := Due(st.buffer, now), Commands(m, st, now, interval);
            && commands != []
            && var last := commands[|commands| - 1];
               && last.reason == Values && last.timestamp == now
               && last.value * (|values| as real) == SumOf(values) && low <= last.value <= high
  {
    hide SumOf, Due;
    var values := Due(st.buffer, now);
    SumBetween(values, low, high);
    QuotientBetween(SumOf(values), low, high, |values| as real);
  }

  // ---- when values are written ----

  /** What is buffered under a time stamp. */
  function At(buffer: Buffer, timestamp: int): real {
    if buffer == [] then 0.0
    else (if buffer[0].0 == timestamp then buffer[0].1 else 0.0) + At(buffer[1..], timestamp)
  }

  predicate OncePerTime(buffer: Buffer) {
    forall i, j | 0 <= i < j < |buffer| :: buffer[i].0 != buffer[j].0
  }

  predicate HasTime(buffer: Buffer, timestamp: int) {
    exists i | 0 <= i < |buffer| :: buffer[i].0 == timestamp
  }

  lemma {:induction false} AddAtTime(buffer: Buffer, timestamp: int, value: real, other: int)
    ensures At(AddAt(buffer, timestamp, value), other) == At(buffer, other) + (if other == timestamp then value else 0.0)
    ensures HasTime(AddAt(buffer, timestamp, value), other) <==> HasTime(buffer, other) || other == timestamp
  {
    if buffer != [] {
      HeadTime(buffer, other);
      HeadTime(AddAt(buffer, timestamp, value), other);
      if buffer[0].0 != timestamp {
        AddAtTime(buffer[1..], timestamp, value, other);
        assert AddAt(buffer, timestamp, value)[1..] == AddAt(buffer[1..], timestamp, value);
      } else {
        assert AddAt(buffer, timestamp, value)[1..] == buffer[1..];
      }
    } else {
      assert AddAt(buffer, timestamp, value)[1..] == [];
      assert [(timestamp, value)][0].0 == timestamp;
    }
  }

  lemma HeadTime(buffer: Buffer, timestamp: int)
    requires buffer != []
    ensures HasTime(buffer, timestamp) <==> buffer[0].0 == timestamp || HasTime(buffer[1..], timestamp)
  {
    if i :| 0 < i < |buffer| && buffer[i].0 == timestamp { assert buffer[1..][i - 1].0 == timestamp; }
    if i :| 0 <= i < |buffer[1..]| && buffer[1..][i].0 == timestamp { assert buffer[i + 1].0 == timestamp; }
  }

  lemma OnceHead(buffer: Buffer)
    requires buffer != []
    ensures OncePerTime(buffer) <==> !HasTime(buffer[1..], buffer[0].0) && OncePerTime(buffer[1..])
  {
    forall i | 0 < i < |buffer| ensures buffer[i] == buffer[1..][i - 1] { }
    if OncePerTime(buffer) {
      forall i, j | 0 <= i < j < |buffer[1..]| ensures buffer[1..][i].0 != buffer[1..][j].0 { assert buffer[i + 1].0 != buffer[j + 1].0; }
      forall i | 0 <= i < |buffer[1..]| ensures buffer[1..][i].0 != buffer[0].0 { assert buffer[0].0 != buffer[i + 1].0; }
    }
  }

  lemma {:induction false} AddOnce(buffer: Buffer, timestamp: int, value: real)
    requires OncePerTime(buffer)
    ensures OncePerTime(AddAt(buffer, timestamp, value))
  {
    hide OncePerTime, HasTime;
    var more := AddAt(buffer, timestamp, value);
    if buffer == [] {
      OneTime(timestamp, value);
    } else {
      OnceHead(buffer);
      OnceHead(more);
      if buffer[0].0 == timestamp {
        assert more[1..] == buffer[1..];
      } else {
        assert more[1..] == AddAt(buffer[1..], timestamp, value);
        AddOnce(buffer[1..], timestamp, value);
        AddAtTime(buffer[1..], timestamp, value, buffer[0].0);
      }
    }
  }

  lemma OneTime(timestamp: int, value: real)
    ensures OncePerTime([(timestamp, value)])
  {
  }

  lemma {:induction false} LaterAtTime(buffer: Buffer, now: int, timestamp: int)
    ensures At(Later(buffer, now), timestamp) == if timestamp <= now then 0.0 else At(buffer, timestamp)
    ensures HasTime(Later(buffer, now), timestamp) <==> HasTime(buffer, timestamp) && timestamp > now
  {
    if buffer != [] {
      var later := Later(buffer[1..], now);
      LaterAtTime(buffer[1..], now, timestamp);
      HeadTime(buffer, timestamp);
      if buffer[0].0 <= now {
        assert [] + later == later;
      } else {
        assert ([buffer[0]] + later)[1..] == later;
        HeadTime([buffer[0]] + later, timestamp);
      }
    }
  }

  lemma {:induction false} LaterOnce(buffer: Buffer, now: int)
    requires OncePerTime(buffer)
    ensures OncePerTime(Later(buffer, now))
  {
    hide OncePerTime, HasTime;
    if buffer != [] {
      var later := Later(buffer[1..], now);
      OnceHead(buffer);
      LaterOnce(buffer[1..], now);
      if buffer[0].0 <= now {
        assert [] + later == later;
      } else {
        assert ([buffer[0]] + later)[1..] == later;
        OnceHead([buffer[0]] + later);
        LaterAtTime(buffer[1..], now, buffer[0].0);
      }
    }
  }

  /** What a run added under a time stamp after the last write at that time or later, beginning with what was there before. */
  function Unwritten(run: seq<Action>, timestamp: int, before: real): real
    decreases |run|
  {
    if run == [] then before
    else
      Unwritten(run[1..], timestamp,
        match run[0]
        case Add(value, at) => before + (if at == timestamp then value else 0.0)
        case Write(now) => if now >= timestamp then 0.0 else before)
  }

  /**
   In every run, under each time stamp just that is buffered which was added since the last write
   at that time or later, as one value: a write takes all values that are due and no others.
   */
  lemma {:induction false} BufferedUntilDue(m: Metric, st: Status, run: seq<Action>, interval: int, timestamp: int)
    requires OncePerTime(st.buffer)
    ensures var end := Run(m, st, run, interval).0;
            && At(end.buffer, timestamp) == Unwritten(run, timestamp, At(st.buffer, timestamp))
            && OncePerTime(end.buffer)
    decreases |run|
  {
    hide Commands, OncePerTime, HasTime;
    if run != [] {
      var next := Do(m, st, run[0], interval).0;
      match run[0] {
        case Add(value, at) =>
          AddAtTime(st.buffer, at, value, timestamp);
          AddOnce(st.buffer, at, value);
        case Write(now) =>
          LaterAtTime(st.buffer, now, timestamp);
          LaterOnce(st.buffer, now);
      }
      BufferedUntilDue(m, next, run[1..], interval, timestamp);
    }
  }

  // ---- gaps ----

  /**
   What the commands of a "one" metric look like from a state in which a gap is open or not: a
   gap begins with one zero, and the next command ends it with another one, one interval before the
   values.
   */
  ghost predicate Gaps(commands: seq<Command>, open: bool, interval: int)
    decreases |commands|
  {
    commands == [] ||
    match commands[0].reason
    case Missing => !open && commands[0].value == 0.0 && Gaps(commands[1..], true, interval)
    case GapEnd =>
      open && commands[0].value == 0.0 && |commands| > 1 && commands[1].reason == Values
      && commands[0].timestamp == commands[1].timestamp - interval * 1000 && Gaps(commands[1..], false, interval)
    case Values => !open && Gaps(commands[1..], false, interval)
  }

  /** In every run, a gap of any length has exactly one zero at its start and one before the next values. */
  lemma {:induction false} OneZeroPerGap(m: Metric, st: Status, run: seq<Action>, interval: int)
    requires m.zeroIfMissing == One
    ensures Gaps(Run(m, st, run, interval).1, st.missing, interval)
    decreases |run|
  {
    if run != [] {
      var (next, commands) := Do(m, st, run[0], interval);
      var more := Run(m, next, run[1..], interval).1;
      OneZeroPerGap(m, next, run[1..], interval);
      match run[0]
      case Add(_, _) => assert commands + more == more;
      case Write(now) => WriteGaps(m, st, now, interval, more);
    }
  }

  lemma WriteGaps(m: Metric, st: Status, now: int, interval: int, more: seq<Command>)
    requires m.zeroIfMissing == One && Gaps(more, AfterWrite(m, st, now).missing, interval)
    ensures Gaps(Commands(m, st, now, interval) + more, st.missing, interval)
  {
    hide Value;
    var commands := Commands(m, st, now, interval);
    if Due(st.buffer, now) == [] {
      if st.missing {
        assert commands + more == more;
      } else {
        assert (commands + more)[1..] == more;
      }
    } else if st.missing {
      var value := commands[1..];
      assert (commands + more)[1..] == value + more && (value + more)[1..] == more;
    } else {
      assert (commands + more)[1..] == more;
    }
  }

  /** The commands of a run with values only, or with one command for each write. */
  function WritesIn(run: seq<Action>): nat {
    if run == [] then 0 else (if run[0].Write? then 1 else 0) + WritesIn(run[1..])
  }

  ghost predicate OnlyValues(commands: seq<Command>) {
    forall i | 0 <= i < |commands| :: commands[i].reason == Values
  }

  /** Without `zero_if_missing` there are no zeros for gaps; with "continuous", every write issues exactly one command. */
  lemma {:induction false} OtherGaps(m: Metric, st: Status, run: seq<Action>, interval: int)
    requires m.zeroIfMissing != One && !st.missing
    ensures var (end, commands) := Run(m, st, run, interval);
            && !end.missing
            && (m.zeroIfMissing == Never ==> OnlyValues(commands))
            && (m.zeroIfMissing == Continuous ==> |commands| == WritesIn(run))
    decreases |run|
  {
    if run != [] {
      OtherGaps(m, Do(m, st, run[0], interval).0, run[1..], interval);
    }
  }

  function Writes(times: seq<int>): seq<Action> {
    if times == [] then [] else [Write(times[0])] + Writes(times[1..])
  }

  /** A gap of any length: only its first write issues a command. */
  lemma {:induction false} GapCommands(m: Metric, st: Status, times: seq<int>, interval: int)
    requires m.zeroIfMissing == One && st.buffer == [] && times != []
    ensures var (end, commands) := Run(m, st, Writes(times), interval);
            end == Status([], true) && commands == (if st.missing then [] else [Command(m.id, 0.0, times[0], Missing)])
    decreases |times|
  {
    var next := AfterWrite(m, st, times[0]);
    var commands := Commands(m, st, times[0], interval);
    assert Writes(times)[1..] == Writes(times[1..]);
    assert next == Status([], true);
    if |times| > 1 {
      GapCommands(m, next, times[1..], interval);
    } else {
      assert Writes(times[1..]) == [];
    }
    assert commands + [] == commands;
  }

  // ---- the counters of the messagebus ----

  datatype Direction = Sent | Received

  /** A counter of the statistics, and its value at the last fetch. */
  datatype Counter = Counter(count: nat, last: nat)

  datatype Traffic = Traffic(sent: Counter, received: Counter) {
    function Of(d: Direction): Counter {
      if d == Sent then sent else received
    }
  }

  const SILENT := Traffic(Counter(0, 0), Counter(0, 0))

  /** A message is counted, both counters are fetched, or all buffers are written. */
  datatype WorkerAction =
    | Message(direction: Direction)
    | Fetch(timestampSent: int, timestampReceived: int)
    | WriteAll(now: int)

  function Fetched(c: Counter): Counter {
    Counter(c.count, c.count)
  }

  function Tick(t: Traffic, a: WorkerAction): Traffic {
    match a
    case Message(Sent) => t.(sent := t.sent.(count := t.sent.count + 1))
    case Message(Received) => t.(received := t.received.(count := t.received.count + 1))
    case Fetch(_, _) => Traffic(Fetched(t.sent), Fetched(t.received))
    case WriteAll(_) => t
  }

  /** What the fetch adds to the metric: nothing if no message was counted since the last one. */
  function Growth(c: Counter, timestamp: int): seq<Action> {
    if c.count == c.last then [] else [Add((c.count - c.last) as real, timestamp)]
  }

  /** What a step of the worker means for the metric of one counter. */
  function StepOn(t: Traffic, a: WorkerAction, d: Direction): seq<Action> {
    match a
    case Message(_) => []
    case Fetch(timestampSent, timestampReceived) => Growth(t.Of(d), if d == Sent then timestampSent else timestampReceived)
    case WriteAll(now) => [Write(now)]
  }

  function RunOn(t: Traffic, run: seq<WorkerAction>, d: Direction): seq<Action>
    decreases |run|
  {
    if run == [] then [] else StepOn(t, run[0], d) + RunOn(Tick(t, run[0]), run[1..], d)
  }

  function TickAll(t: Traffic, run: seq<WorkerAction>): Traffic
    decreases |run|
  {
    if run == [] then t else TickAll(Tick(t, run[0]), run[1..])
  }

  lemma {:induction false} AddedConcat(a: seq<Action>, b: seq<Action>)
    ensures Added(a + b) == Added(a) + Added(b)
  {
    if a == [] {
      assert a + b == b;
    } else {
      assert (a + b)[1..] == a[1..] + b;
      AddedConcat(a[1..], b);
    }
  }

  lemma StepAdds(t: Traffic, a: WorkerAction, d: Direction)
    requires t.Of(d).last <= t.Of(d).count
    ensures var next := Tick(t, a);
            && t.Of(d).last <= next.Of(d).last <= next.Of(d).count
            && Added(StepOn(t, a, d)) == (next.Of(d).last - t.Of(d).last) as real
  {
    if StepOn(t, a, d) != [] { assert StepOn(t, a, d)[1..] == []; }
  }

  /** What is fed into the metric is what the counter grew between the first and the last fetch. */
  lemma {:induction false} FetchesTelescope(t: Traffic, run: seq<WorkerAction>, d: Direction)
    requires t.Of(d).last <= t.Of(d).count
    ensures var end := TickAll(t, run);
            && t.Of(d).last <= end.Of(d).last <= end.Of(d).count
            && Added(RunOn(t, run, d)) == (end.Of(d).last - t.Of(d).last) as real
    decreases |run|
  {
    if run != [] {
      StepAdds(t, run[0], d);
      FetchesTelescope(Tick(t, run[0]), run[1..], d);
      AddedConcat(StepOn(t, run[0], d), RunOn(Tick(t, run[0]), run[1..], d));
    }
  }

  function Messages(run: seq<WorkerAction>, d: Direction): nat {
    if run == [] then 0 else (if run[0] == Message(d) then 1 else 0) + Messages(run[1..], d)
  }

  lemma {:induction false} AllAreCounted(t: Traffic, run: seq<WorkerAction>, d: Direction)
    ensures TickAll(t, run).Of(d).count == t.Of(d).count + Messages(run, d)
    decreases |run|
  {
    if run != [] { AllAreCounted(Tick(t, run[0]), run[1..], d); }
  }

  lemma {:induction false} FetchCatchesUp(t: Traffic, run: seq<WorkerAction>, d: Direction)
    requires run != [] && run[|run| - 1].Fetch?
    ensures TickAll(t, run).Of(d).last == TickAll(t, run).Of(d).count
    decreases |run|
  {
    if |run| > 1 { FetchCatchesUp(Tick(t, run[0]), run[1..], d); }
  }

  /**
   In every run of messages, fetches and writes, no message is lost and none counts twice: what
   redis got for the metric, what is still buffered, and what was counted since the last fetch
   are together the messages of this direction. Right after a fetch nothing is outstanding.
   */
  lemma CountersTelescope(m: Metric, run: seq<WorkerAction>, d: Direction, interval: int)
    requires m.aggregation == Sum
    ensures var (end, commands) := Run(m, Status([], false), RunOn(SILENT, run, d), interval);
            var counter := TickAll(SILENT, run).Of(d);
            && counter.last <= counter.count == Messages(run, d)
            && Written(commands) + Total(end.buffer) == counter.last as real
            && (run != [] && run[|run| - 1].Fetch? ==> counter.last == counter.count)
  {
    FetchesTelescope(SILENT, run, d);
    AllAreCounted(SILENT, run, d);
    if run != [] && run[|run| - 1].Fetch? { FetchCatchesUp(SILENT, run, d); }
    SumsAreConserved(m, Status([], false), RunOn(SILENT, run, d), interval);
  }

  // ---- the collector object ----

  predicate DistinctIds(metrics: seq<Metric>) {
    forall i, j | 0 <= i < j < |metrics| :: metrics[i].id != metrics[j].id
  }

  /** The commands for all metrics, in their order. */
  function AllCommands(metrics: seq<Metric>, values: map<string, Buffer>, missing: set<string>, now: int, interval: int): seq<Command>
    requires forall i | 0 <= i < |metrics| :: metrics[i].id in values
  {
    if metrics == [] then []
    else
      Commands(metrics[0], Status(values[metrics[0].id], metrics[0].id in missing), now, interval)
      + AllCommands(metrics[1..], values, missing, now, interval)
  }

  class MetricsCollector {
    const interval: int
    const metrics: seq<Metric>
    var values: map<string, Buffer>
    var missing: set<string>

    predicate Valid()
      reads this
    {
      DistinctIds(metrics) && forall i | 0 <= i < |metrics| :: metrics[i].id in values
    }

    constructor (metrics: seq<Metric>)
      requires DistinctIds(metrics)
      ensures Valid() && this.metrics == metrics && interval == 5 && missing == {}
      ensures forall id | id in values :: values[id] == []
    {
      this.metrics, interval, missing := metrics, 5, {};
      values := map m | m in metrics :: m.id := [];
    }

    function StatusOf(m: Metric): Status
      requires m.id in values
      reads this
    {
      Status(values[m.id], m.id in missing)
    }

    method AddValue(id: string, value: real, timestamp: int)
      requires Valid() && id in values
      modifies this`values
      ensures Valid() && values == old(values)[id := AddAt(old(values)[id], timestamp, value)]
    {
      values := values[id := AddAt(values[id], timestamp, value)];
    }

    /** The loop that pops the values that are due. */
    method PopValues(id: string, now: int) returns (vals: seq<real>)
      requires Valid() && id in values
      modifies this`values
      ensures Valid() && vals == Due(old(values)[id], now) && values == old(values)[id := Later(old(values)[id], now)]
    {
      hide Due, Later;
      var buffer := values[id];
      var rest: Buffer := [];
      vals := [];
      assert buffer[0..] == buffer;
      for k := 0 to |buffer|
        invariant values == old(values)
        invariant vals + Due(buffer[k..], now) == Due(buffer, now)
        invariant rest + Later(buffer[k..], now) == Later(buffer, now)
      {
        NextDue(buffer, k, now, vals, rest);
        if buffer[k].0 <= now {
          vals := vals + [buffer[k].1];
        } else {
          rest := rest + [buffer[k]];
        }
      }
      NothingDue(buffer, now, vals, rest);
      values := values[id := rest];
    }

    /** One metric of the writing loop. */
    method WriteMetric(m: Metric, vals: seq<real>, now: int) returns (cmds: seq<Command>)
      modifies this`missing
      ensures forall buffer | Due(buffer, now) == vals ::
                && cmds == Commands(m, Status(buffer, m.id in old(missing)), now, interval)
                && (m.id in missing <==> AfterWrite(m, Status(buffer, m.id in old(missing)), now).missing)
      ensures forall id | id != m.id :: id in missing <==> id in old(missing)
    {
      cmds := [];
      var value := SumOf(vals);
      if vals == [] {
        if m.zeroIfMissing == Never {
          return;
        }
        if m.zeroIfMissing == One {
          if m.id in missing {
            return;
          }
          missing := missing + {m.id};
        }
        cmds := [Command(m.id, value, now, Missing)];
        return;
      }
      if m.id in missing {
        cmds := [Command(m.id, 0.0, now - interval * 1000, GapEnd)];
        missing := missing - {m.id};
      }
      if m.aggregation == Average {
        value := value / (|vals| as real);
      }
      cmds := cmds + [Command(m.id, value, now, Values)];
    }

    /** `_write_values_to_redis` */
    method WriteValues(now: int) returns (cmds: seq<Command>)
      requires Valid()
      modifies this`values, this`missing
      ensures Valid() && cmds == AllCommands(metrics, old(values), old(missing), now, interval)
      ensures forall i | 0 <= i < |metrics| :: StatusOf(metrics[i]) == AfterWrite(metrics[i], old(StatusOf(metrics[i])), now)
    {
      hide Commands, AfterWrite, Due, Later;
      cmds := [];
      ghost var all := AllCommands(metrics, values, missing, now, interval);
      for k := 0 to |metrics|
        invariant Valid()
        invariant forall i | 0 <= i < k :: StatusOf(metrics[i]) == AfterWrite(metrics[i], old(StatusOf(metrics[i])), now)
        invariant forall i | k <= i < |metrics| :: StatusOf(metrics[i]) == old(StatusOf(metrics[i]))
        invariant cmds + AllCommands(metrics[k..], old(values), old(missing), now, interval) == all
      {
        var m := metrics[k];
        assert metrics[k..][0] == m && metrics[k..][1..] == metrics[k + 1..];
        assert StatusOf(m) == old(StatusOf(m));
        ghost var status := StatusOf(m);
        var vals := PopValues(m.id, now);
        var more := WriteMetric(m, vals, now);
        AfterBuffer(m, status, now);
        cmds := cmds + more;
      }
    }
  }

  const SENTID := "worker:sum_messagebus_messages_sent"
  const RECEIVEDID := "worker:sum_messagebus_messages_received"

  function IdOf(d: Direction): string {
    if d == Sent then SENTID else RECEIVEDID
  }

  /** A gauge of the process: a metric, its value, and the time at which it is added. */
  datatype Gauge = Gauge(id: string, value: real, timestamp: int)

  function AddGauges(values: map<string, Buffer>, gauges: seq<Gauge>): (r: map<string, Buffer>)
    requires forall i | 0 <= i < |gauges| :: gauges[i].id in values
    ensures r.Keys == values.Keys
    decreases |gauges|
  {
    if gauges == [] then values
    else
      var g := gauges[0];
      AddGauges(if g.value == 0.0 then values else values[g.id := AddAt(values[g.id], g.timestamp, g.value)], gauges[1..])
  }

  lemma {:induction false} GaugesKeepOthers(values: map<string, Buffer>, gauges: seq<Gauge>, id: string)
    requires id in values && forall i | 0 <= i < |gauges| :: gauges[i].id in values && gauges[i].id != id
    ensures AddGauges(values, gauges)[id] == values[id]
    decreases |gauges|
  {
    if gauges != [] {
      var g := gauges[0];
      var next := if g.value == 0.0 then values else values[g.id := AddAt(values[g.id], g.timestamp, g.value)];
      GaugesKeepOthers(next, gauges[1..], id);
    }
  }

  function AddGrowth(values: map<string, Buffer>, id: string, c: Counter, timestamp: int): map<string, Buffer>
    requires id in values
  {
    if c.count == c.last then values else values[id := AddAt(values[id], timestamp, (c.count - c.last) as real)]
  }

  /** The buffers after a fetch. */
  function AfterFetch(values: map<string, Buffer>, gauges: seq<Gauge>, t: Traffic, timestampSent: int, timestampReceived: int): map<string, Buffer>
    requires SENTID in values && RECEIVEDID in values && forall i | 0 <= i < |gauges| :: gauges[i].id in values
  {
    AddGrowth(AddGrowth(AddGauges(values, gauges), SENTID, t.sent, timestampSent), RECEIVEDID, t.received, timestampReceived)
  }

  /** For the metric of each counter, a fetch is the step of that metric's run, and the other metrics get the gauges. */
  lemma FetchFeeds(values: map<string, Buffer>, gauges: seq<Gauge>, t: Traffic, timestampSent: int, timestampReceived: int,
      m: Metric, missing: bool, interval: int)
    requires SENTID in values && RECEIVEDID in values && m.id in values
    requires forall i | 0 <= i < |gauges| :: gauges[i].id in values && gauges[i].id != SENTID && gauges[i].id != RECEIVEDID
    ensures var after := AfterFetch(values, gauges, t, timestampSent, timestampReceived);
            && after.Keys == values.Keys
            && (forall d: Direction | m.id == IdOf(d) ::
                  Status(after[m.id], missing)
                  == Run(m, Status(values[m.id], missing), StepOn(t, Fetch(timestampSent, timestampReceived), d), interval).0)
            && (m.id != SENTID && m.id != RECEIVEDID ==> after[m.id] == AddGauges(values, gauges)[m.id])
  {
    hide AddGauges;
    assert SENTID != RECEIVEDID by { assert |SENTID| != |RECEIVEDID|; }
    GaugesKeepOthers(values, gauges, SENTID);
    GaugesKeepOthers(values, gauges, RECEIVEDID);
    GrowthRun(m, Status(values[m.id], missing), t.sent, timestampSent, interval);
    GrowthRun(m, Status(values[m.id], missing), t.received, timestampReceived, interval);
  }

  lemma GrowthRun(m: Metric, st: Status, c: Counter, timestamp: int, interval: int)
    ensures Run(m, st, Growth(c, timestamp), interval).0
            == if c.count == c.last then st else st.(buffer := AddAt(st.buffer, timestamp, (c.count - c.last) as real))
  {
    if c.count != c.last { assert Growth(c, timestamp)[1..] == []; }
  }

  /** The counters that the websockets of this worker advance. */
  class Statistics {
    var messagesSent: nat
    var messagesReceived: nat

    constructor ()
      ensures messagesSent == 0 && messagesReceived == 0
    {
      messagesSent, messagesReceived := 0, 0;
    }
  }

  class WorkerMetricsCollector {
    const collector: MetricsCollector
    const statistics: Statistics
    var lastSent: nat
    var lastReceived: nat

    predicate Valid()
      reads this, collector, statistics
    {
      && collector.Valid() && SENTID in collector.values && RECEIVEDID in collector.values
      && lastSent <= statistics.messagesSent && lastReceived <= statistics.messagesReceived
    }

    constructor (collector: MetricsCollector, statistics: Statistics)
      requires collector.Valid() && SENTID in collector.values && RECEIVEDID in collector.values
      ensures Valid() && this.collector == collector && this.statistics == statistics
      ensures lastSent == 0 && lastReceived == 0
    {
      this.collector, this.statistics, lastSent, lastReceived := collector, statistics, 0, 0;
    }

    function Now(): Traffic
      reads this, statistics
    {
      Traffic(Counter(statistics.messagesSent, lastSent), Counter(statistics.messagesReceived, lastReceived))
    }

    method AddGaugeValues(gauges: seq<Gauge>)
      requires Valid() && forall i | 0 <= i < |gauges| :: gauges[i].id in collector.values
      modifies collector`values
      ensures Valid() && collector.values == AddGauges(old(collector.values), gauges)
    {
      ghost var all := AddGauges(collector.values, gauges);
      for k := 0 to |gauges|
        invariant Valid() && collector.values.Keys == old(collector.values.Keys)
        invariant AddGauges(collector.values, gauges[k..]) == all
      {
        assert gauges[k..][0] == gauges[k] && gauges[k..][1..] == gauges[k + 1..];
        if gauges[k].value != 0.0 {
          collector.AddValue(gauges[k].id, gauges[k].value, gauges[k].timestamp);
        }
      }
    }

    /** `_fetch_values` */
    method FetchValues(gauges: seq<Gauge>, timestampSent: int, timestampReceived: int)
      requires Valid() && forall i | 0 <= i < |gauges| :: gauges[i].id in collector.values
      modifies this`lastSent, this`lastReceived, collector`values
      ensures Valid() && Now() == Tick(old(Now()), Fetch(timestampSent, timestampReceived))
      ensures collector.values == AfterFetch(old(collector.values), gauges, old(Now()), timestampSent, timestampReceived)
    {
      AddGaugeValues(gauges);
      var value := statistics.messagesSent - lastSent;
      if value != 0 {
        collector.AddValue(SENTID, value as real, timestampSent);
        lastSent := statistics.messagesSent;
      }
      value := statistics.messagesReceived - lastReceived;
      if value != 0 {
        collector.AddValue(RECEIVEDID, value as real, timestampReceived);
        lastReceived := statistics.messagesReceived;
      }
    }
  }

  lemma AfterBuffer(m: Metric, st: Status, now: int)
    ensures AfterWrite(m, st, now).buffer == Later(st.buffer, now)
  {
  }

  lemma NextDue(buffer: Buffer, k: nat, now: int, vals: seq<real>, rest: Buffer)
    requires k < |buffer|
    ensures vals + Due(buffer[k..], now) == (if buffer[k].0 <= now then vals + [buffer[k].1] else vals) + Due(buffer[k + 1..], now)
    ensures rest + Later(buffer[k..], now) == (if buffer[k].0 <= now then rest else rest + [buffer[k]]) + Later(buffer[k + 1..], now)
  {
    assert buffer[k..][0] == buffer[k] && buffer[k..][1..] == buffer[k + 1..];
  }

  lemma NothingDue(buffer: Buffer, now: int, vals: seq<real>, rest: Buffer)
    ensures vals + Due(buffer[|buffer|..], now) == vals && rest + Later(buffer[|buffer|..], now) == rest
  {
    assert buffer[|buffer|..] == [];
  }
}
