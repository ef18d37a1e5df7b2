/**
 A user channel: one redis stream that any number of `MessageReader`s read at the same time,
 and the `last-delivered-id` that tells a new reader where to begin. Readers start, fail and
 crash at any moment, and every step of one may fall between the steps of the others.
 */
module UserChannel {
  import opened Wrappers

  /** A stream entry; `expires` is 0 when the message never expires, and only messages for the user channel are acknowledged. */
  datatype Entry = Entry(id: nat, malformed: bool, expires: nat, forUser: bool)

  type Stream = seq<Entry>

  /** Redis gives the entries of a stream increasing ids, none of which is 0. */
  ghost predicate Ordered(stream: Stream) {
    && (forall i | 0 <= i < |stream| :: stream[i].id > 0)
    && (forall i, j | 0 <= i < j < |stream| :: stream[i].id < stream[j].id)
  }

  function LastId(stream: Stream): nat {
    if stream == [] then 0 else stream[|stream| - 1].id
  }

  const COUNT := 10

  /** XREAD: the first entries after an id, at most ten. */
  function Read(stream: Stream, after: nat, count: nat): Stream {
    if stream == [] || count == 0 then []
    else if stream[0].id <= after then Read(stream[1..], after, count)
    else [stream[0]] + Read(stream[1..], after, count - 1)
  }

  predicate Expired(e: Entry, now: nat) {
    e.expires != 0 && e.expires <= now
  }

  predicate Droppable(e: Entry, now: nat) {
    e.malformed || Expired(e, now)
  }

  /**
   A reader: the id in its `_streams`, the batch it is working on, the id of the last entry it
   took from the batch, and the id it is about to write to `last-delivered-id`.
   */
  datatype Reader = Reader(cursor: nat, reading: bool, batch: Stream, seen: nat, time: nat, acking: Option<nat>)

  datatype State = State(
    stream: Stream,
    lastDelivered: Option<nat>,
    readers: map<nat, Reader>,
    handed: set<nat>,
    dropped: set<nat>,
    now: nat)

  const INITIAL := State([], None, map[], {}, {}, 0)

  datatype Action =
    | Publish(entry: Entry)
    | Tick(time: nat)
    | StartReader(r: nat)
    | Fetch(r: nat)
    | Hand(r: nat)
    | Acknowledge(r: nat)
    | Drop(r: nat)
    | Finish(r: nat)
    | Fail(r: nat)
    | Crash(r: nat)

  predicate Working(s: State, r: nat) {
    r in s.readers && s.readers[r].reading && s.readers[r].acking == None
  }

  predicate Enabled(s: State, a: Action) {
    match a
    case Publish(e) => e.id > LastId(s.stream)
    case Tick(time) => time >= s.now
    case StartReader(r) => r !in s.readers
    case Fetch(r) => r in s.readers && !s.readers[r].reading && Read(s.stream, s.readers[r].cursor, COUNT) != []
    case Hand(r) => Working(s, r) && s.readers[r].batch != [] && !Droppable(s.readers[r].batch[0], s.readers[r].time)
    case Acknowledge(r) => r in s.readers && s.readers[r].acking.Some?
    case Drop(r) => Working(s, r) && s.readers[r].batch != [] && Droppable(s.readers[r].batch[0], s.readers[r].time)
    case Finish(r) => Working(s, r) && s.readers[r].batch == []
    case Fail(r) => Working(s, r)
    case Crash(r) => r in s.readers
  }

  function Update(s: State, r: nat, reader: Reader): State {
    s.(readers := s.readers[r := reader])
  }

  function Do(s: State, a: Action): State
    requires Enabled(s, a)
  {
    match a
    case Publish(e) => s.(stream := s.stream + [e])
    case Tick(time) => s.(now := time)
    case StartReader(r) =>
      var id := if s.lastDelivered.Some? then s.lastDelivered.value else 0;
      Update(s, r, Reader(id, false, [], id, 0, None))
    case Fetch(r) =>
      var reader := s.readers[r];
      Update(s, r, reader.(reading := true, batch := Read(s.stream, reader.cursor, COUNT), seen := reader.cursor, time := s.now))
    case Hand(r) =>
      var reader := s.readers[r];
      var id := reader.batch[0].id;
      var acking := if reader.batch[0].forUser then Some(id) else None;
      Update(s, r, reader.(batch := reader.batch[1..], seen := id, acking := acking)).(handed := s.handed + {id})
    case Acknowledge(r) =>
      var reader := s.readers[r];
      Update(s, r, reader.(acking := None)).(lastDelivered := reader.acking)
    case Drop(r) =>
      var reader := s.readers[r];
      var id := reader.batch[0].id;
      Update(s, r, reader.(batch := reader.batch[1..], seen := id)).(dropped := s.dropped + {id})
    case Finish(r) =>
      Update(s, r, s.readers[r].(reading := false, cursor := s.readers[r].seen))
    case Fail(r) =>
      // The error is logged, and the loop reads again from the old id.
      Update(s, r, s.readers[r].(reading := false, batch := [], seen := s.readers[r].cursor))
    case Crash(r) => s.(readers := s.readers - {r})
  }

  // ---- the invariant ----

  ghost predicate Settled(s: State, id: nat) {
    id in s.handed || id in s.dropped
  }

  /** Every entry up to `id` was handed to a reader or dropped. */
  ghost predicate SettledUpTo(s: State, id: nat) {
    forall i | 0 <= i < |s.stream| && s.stream[i].id <= id :: Settled(s, s.stream[i].id)
  }

  /** The batch is the part of the stream right after `seen`. */
  ghost predicate Follows(stream: Stream, seen: nat, batch: Stream) {
    exists from: nat :: FollowsAt(stream, seen, batch, from)
  }

  ghost predicate FollowsAt(stream: Stream, seen: nat, batch: Stream, from: nat) {
    && from + |batch| <= |stream| && batch == stream[from..from + |batch|]
    && forall i | 0 <= i < from :: stream[i].id <= seen
  }

  ghost predicate ReaderInvariant(s: State, reader: Reader) {
    && reader.cursor <= LastId(s.stream) && reader.seen <= LastId(s.stream)
    && SettledUpTo(s, reader.cursor) && SettledUpTo(s, reader.seen)
    && (reader.reading ==> Follows(s.stream, reader.seen, reader.batch))
    && (reader.acking.Some? ==> reader.reading && reader.acking.value == reader.seen)
  }

  ghost predicate DroppedAt(s: State, id: nat, i: nat) {
    i < |s.stream| && s.stream[i].id == id && Droppable(s.stream[i], s.now)
  }

  /** Only malformed or expired entries were dropped, and only entries of the stream were handed over. */
  ghost predicate RightlySettled(s: State) {
    && (forall id | id in s.dropped :: exists i: nat :: DroppedAt(s, id, i))
    && (forall id | id in s.handed :: exists i: nat :: i < |s.stream| && s.stream[i].id == id && !s.stream[i].malformed)
  }

  ghost predicate Invariant(s: State) {
    && Ordered(s.stream)
    && RightlySettled(s)
    && (forall r | r in s.readers :: s.readers[r].time <= s.now)
    && (s.lastDelivered.Some? ==> s.lastDelivered.value <= LastId(s.stream) && SettledUpTo(s, s.lastDelivered.value))
    && forall r | r in s.readers :: ReaderInvariant(s, s.readers[r])
  }

  /** Reading gives a contiguous part of the stream that starts right after the id. */
  lemma {:induction false} ReadFollows(stream: Stream, after: nat, count: nat)
    requires Ordered(stream)
    ensures Follows(stream, after, Read(stream, after, count))
  {
    var batch := Read(stream, after, count);
    if stream == [] || count == 0 {
      assert FollowsAt(stream, after, batch, 0);
    } else if stream[0].id <= after {
      ReadFollows(stream[1..], after, count);
      var from: nat :| FollowsAt(stream[1..], after, batch, from);
      assert batch == stream[from + 1..from + 1 + |batch|];
      forall i | 0 <= i < from + 1 ensures stream[i].id <= after {
        if i > 0 { assert stream[1..][i - 1].id <= after; }
      }
      assert FollowsAt(stream, after, batch, from + 1);
    } else {
      FirstEntries(stream, after, count);
      assert FollowsAt(stream, after, batch, 0);
    }
  }

  lemma {:induction false} FirstEntries(stream: Stream, after: nat, count: nat)
    requires forall i | 0 <= i < |stream| :: stream[i].id > after
    ensures |Read(stream, after, count)| <= |stream| && Read(stream, after, count) == stream[..|Read(stream, after, count)|]
  {
    if stream != [] && count > 0 { FirstEntries(stream[1..], after, count - 1); }
  }

  /** A read gives `count` entries, or all that there are after the id. */
  lemma {:induction false} ReadIsFull(stream: Stream, after: nat, count: nat)
    ensures |Read(stream, after, count)| <= count
    ensures |Read(stream, after, count)| < count ==>
              forall e | e in stream && e.id > after :: e in Read(stream, after, count)
  {
    if stream != [] && count > 0 {
      ReadIsFull(stream[1..], after, if stream[0].id <= after then count else count - 1);
      assert stream == [stream[0]] + stream[1..];
    }
  }

  lemma NewerAbove(stream: Stream, longer: Stream, i: nat)
    requires Ordered(longer) && stream <= longer && |stream| <= i < |longer|
    ensures longer[i].id > LastId(stream)
  {
    if stream != [] { assert longer[|stream| - 1] == stream[|stream| - 1]; }
  }

  lemma MoreSettled(s: State, t: State, id: nat)
    requires s.stream <= t.stream && s.handed <= t.handed && s.dropped <= t.dropped && SettledUpTo(s, id)
    requires Ordered(t.stream) && id <= LastId(s.stream)
    ensures SettledUpTo(t, id)
  {
    forall i | |s.stream| <= i < |t.stream| ensures t.stream[i].id > id { NewerAbove(s.stream, t.stream, i); }
    forall i | 0 <= i < |s.stream| ensures t.stream[i] == s.stream[i] { }
  }

  lemma LongerFollows(stream: Stream, longer: Stream, seen: nat, batch: Stream)
    requires stream <= longer && Follows(stream, seen, batch)
    ensures Follows(longer, seen, batch)
  {
    var from: nat :| FollowsAt(stream, seen, batch, from);
    assert batch == longer[from..from + |batch|];
    forall i | 0 <= i < from ensures longer[i].id <= seen { assert longer[i] == stream[i]; }
    assert FollowsAt(longer, seen, batch, from);
  }

  /** Taking the first entry of a batch: everything before it was settled. */
  lemma TakeEntry(s: State, seen: nat, batch: Stream)
    requires Ordered(s.stream) && SettledUpTo(s, seen) && Follows(s.stream, seen, batch) && batch != []
    ensures Follows(s.stream, batch[0].id, batch[1..]) && 0 < batch[0].id <= LastId(s.stream)
    ensures forall i | 0 <= i < |s.stream| && s.stream[i].id < batch[0].id :: Settled(s, s.stream[i].id)
  {
    var stream := s.stream;
    var from: nat :| FollowsAt(stream, seen, batch, from);
    assert batch[0] == stream[from];
    assert batch[1..] == stream[from + 1..from + 1 + |batch[1..]|];
    forall i | 0 <= i < from + 1 ensures stream[i].id <= batch[0].id {
      if i < from { assert stream[i].id < stream[from].id; }
    }
    assert FollowsAt(stream, batch[0].id, batch[1..], from + 1);
    if from < |stream| - 1 { assert stream[from].id < stream[|stream| - 1].id; }
    forall i | from <= i < |stream| ensures stream[i].id >= batch[0].id {
      if i > from { assert stream[from].id < stream[i].id; }
    }
  }

  /** What a step leaves of another reader's part of the invariant. */
  lemma OtherReader(s: State, t: State, reader: Reader)
    requires s.stream <= t.stream && s.handed <= t.handed && s.dropped <= t.dropped && Ordered(t.stream)
    requires LastId(s.stream) <= LastId(t.stream) && ReaderInvariant(s, reader)
    ensures ReaderInvariant(t, reader)
  {
    MoreSettled(s, t, reader.cursor);
    MoreSettled(s, t, reader.seen);
    if reader.reading { LongerFollows(s.stream, t.stream, reader.seen, reader.batch); }
  }

  /** More entries and a later time leave the settled entries what they are. */
  lemma StillRightly(s: State, t: State)
    requires RightlySettled(s) && s.stream <= t.stream && s.now <= t.now && s.handed == t.handed && s.dropped == t.dropped
    ensures RightlySettled(t)
  {
    forall id | id in t.dropped ensures exists i: nat :: DroppedAt(t, id, i) {
      var i: nat :| DroppedAt(s, id, i);
      assert DroppedAt(t, id, i);
    }
    forall id | id in t.handed ensures exists i: nat :: i < |t.stream| && t.stream[i].id == id && !t.stream[i].malformed {
      var i: nat :| i < |s.stream| && s.stream[i].id == id && !s.stream[i].malformed;
      assert t.stream[i] == s.stream[i];
    }
  }

  lemma TakeRightly(s: State, a: Action)
    requires Invariant(s) && Enabled(s, a) && (a.Hand? || a.Drop?)
    ensures RightlySettled(Do(s, a))
  {
    var t, reader := Do(s, a), s.readers[a.r];
    var e := reader.batch[0];
    assert ReaderInvariant(s, reader);
    var from: nat :| FollowsAt(s.stream, reader.seen, reader.batch, from);
    assert s.stream[from] == e;
    forall id | id in t.dropped ensures exists i: nat :: DroppedAt(t, id, i) {
      if id in s.dropped {
        var i: nat :| DroppedAt(s, id, i);
        assert DroppedAt(t, id, i);
      } else {
        assert DroppedAt(t, id, from);
      }
    }
  }

  lemma OthersKept(s: State, t: State, changed: set<nat>)
    requires RightlySettled(t) && forall r | r in t.readers :: t.readers[r].time <= t.now
    requires Invariant(s) && Ordered(t.stream) && LastId(s.stream) <= LastId(t.stream)
    requires s.stream <= t.stream && s.handed <= t.handed && s.dropped <= t.dropped
    requires forall r | r in t.readers && r !in changed :: r in s.readers && s.readers[r] == t.readers[r]
    requires forall r | r in t.readers && r in changed :: ReaderInvariant(t, t.readers[r])
    requires t.lastDelivered == s.lastDelivered
             || (t.lastDelivered.Some? && t.lastDelivered.value <= LastId(t.stream) && SettledUpTo(t, t.lastDelivered.value))
    ensures Invariant(t)
  {
    hide ReaderInvariant, SettledUpTo, Ordered, LastId, RightlySettled;
    forall r | r in t.readers ensures ReaderInvariant(t, t.readers[r]) {
      if r !in changed { OtherReader(s, t, s.readers[r]); }
    }
    if s.lastDelivered.Some? { MoreSettled(s, t, s.lastDelivered.value); }
  }

  lemma PublishOrdered(stream: Stream, e: Entry)
    requires Ordered(stream) && e.id > LastId(stream)
    ensures Ordered(stream + [e])
  {
    var longer := stream + [e];
    forall i, j | 0 <= i < j < |longer| ensures longer[i].id < longer[j].id {
      if j == |stream| && i < |stream| - 1 { assert stream[i].id < stream[|stream| - 1].id; }
    }
  }

  lemma PublishKeeps(s: State, e: Entry)
    requires Invariant(s) && Enabled(s, Publish(e))
    ensures Invariant(Do(s, Publish(e)))
  {
    var t := Do(s, Publish(e));
    PublishOrdered(s.stream, e);
    StillRightly(s, t);
    OthersKept(s, t, {});
  }

  lemma StartKeeps(s: State, r: nat)
    requires Invariant(s) && Enabled(s, StartReader(r))
    ensures Invariant(Do(s, StartReader(r)))
  {
    hide RightlySettled, Follows;
    var t := Do(s, StartReader(r));
    StillRightly(s, t);
    OthersKept(s, t, {r});
  }

  lemma FetchKeeps(s: State, r: nat)
    requires Invariant(s) && Enabled(s, Fetch(r))
    ensures Invariant(Do(s, Fetch(r)))
  {
    hide RightlySettled, SettledUpTo, Ordered, LastId;
    var t := Do(s, Fetch(r));
    FetchedReader(s, r);
    StillRightly(s, t);
    OthersKept(s, t, {r});
  }

  lemma FetchedReader(s: State, r: nat)
    requires Invariant(s) && Enabled(s, Fetch(r))
    ensures var t := Do(s, Fetch(r));
            && ReaderInvariant(t, t.readers[r]) && t.stream == s.stream && t.now == s.now && t.handed == s.handed && t.dropped == s.dropped
            && t.lastDelivered == s.lastDelivered && t.readers[r].time <= t.now
            && t.readers.Keys == s.readers.Keys && forall q | q in s.readers && q != r :: t.readers[q] == s.readers[q]
  {
    hide RightlySettled, Ordered, LastId, Read;
    ReadFollows(s.stream, s.readers[r].cursor, COUNT);
    assert ReaderInvariant(s, s.readers[r]);
  }

  lemma TakeKeeps(s: State, a: Action)
    requires Invariant(s) && Enabled(s, a) && (a.Hand? || a.Drop?)
    ensures Invariant(Do(s, a))
  {
    hide RightlySettled, Follows, Ordered, Droppable;
    var t := Do(s, a);
    var reader := s.readers[a.r];
    assert ReaderInvariant(s, reader);
    TakeEntry(s, reader.seen, reader.batch);
    MoreSettled(s, t, reader.cursor);
    TakeRightly(s, a);
    OthersKept(s, t, {a.r});
  }

  lemma QuietKeeps(s: State, a: Action)
    requires Invariant(s) && Enabled(s, a) && (a.Tick? || a.Crash?)
    ensures Invariant(Do(s, a))
  {
    StillRightly(s, Do(s, a));
    OthersKept(s, Do(s, a), {});
  }

  lemma EndKeeps(s: State, a: Action)
    requires Invariant(s) && Enabled(s, a) && (a.Acknowledge? || a.Finish? || a.Fail?)
    ensures Invariant(Do(s, a))
  {
    hide RightlySettled, Follows, Ordered;
    assert ReaderInvariant(s, s.readers[a.r]);
    StillRightly(s, Do(s, a));
    OthersKept(s, Do(s, a), {a.r});
  }

  lemma StepKeepsInvariant(s: State, a: Action)
    requires Invariant(s) && Enabled(s, a)
    ensures Invariant(Do(s, a))
  {
    hide Invariant, Enabled, Do;
    match a
    case Publish(e) => PublishKeeps(s, e);
    case StartReader(r) => StartKeeps(s, r);
    case Fetch(r) => FetchKeeps(s, r);
    case Hand(_) => TakeKeeps(s, a);
    case Drop(_) => TakeKeeps(s, a);
    case Tick(_) => QuietKeeps(s, a);
    case Crash(_) => QuietKeeps(s, a);
    case _ => EndKeeps(s, a);
  }

  // ---- runs ----

  ghost predicate IsRun(s: State, run: seq<Action>, t: State)
    decreases |run|
  {
    if run == [] then s == t else Enabled(s, run[0]) && IsRun(Do(s, run[0]), run[1..], t)
  }

  lemma {:induction false} RunKeepsInvariant(s: State, run: seq<Action>, t: State)
    requires Invariant(s) && IsRun(s, run, t)
    ensures Invariant(t)
    decreases |run|
  {
    hide Invariant, Enabled, Do;
    if run != [] {
      StepKeepsInvariant(s, run[0]);
      RunKeepsInvariant(Do(s, run[0]), run[1..], t);
    }
  }

  /**
   No message is skipped: in every run, whatever readers start, fail or crash, every entry up
   to the stored `last-delivered-id` was handed over or dropped, although a slow reader may
   have moved that id backwards.
   */
  lemma NothingSkipped(run: seq<Action>, s: State, i: nat)
    requires IsRun(INITIAL, run, s) && i < |s.stream|
    ensures s.lastDelivered.Some? && s.stream[i].id <= s.lastDelivered.value ==> Settled(s, s.stream[i].id)
    ensures RightlySettled(s)
  {
    hide Enabled, Do, ReaderInvariant, RightlySettled;
    InitialInvariant();
    RunKeepsInvariant(INITIAL, run, s);
  }

  lemma InitialInvariant()
    ensures Invariant(INITIAL)
  {
  }

  /** A reader that starts now begins before every entry that is not settled, and there is something to fetch. */
  lemma NewReaderMissesNothing(run: seq<Action>, s: State, r: nat, i: nat)
    requires IsRun(INITIAL, run, s) && Enabled(s, StartReader(r)) && i < |s.stream| && !Settled(s, s.stream[i].id)
    ensures var t := Do(s, StartReader(r));
            t.readers[r].cursor < s.stream[i].id && Enabled(t, Fetch(r)) && Follows(t.stream, t.readers[r].cursor, Do(t, Fetch(r)).readers[r].batch)
  {
    hide Invariant, ReaderInvariant, RightlySettled;
    InitialInvariant();
    RunKeepsInvariant(INITIAL, run, s);
    StartsBefore(s, i);
    var after := if s.lastDelivered.Some? then s.lastDelivered.value else 0;
    ReadSome(s.stream, after, i, COUNT);
    ReadFollows(s.stream, after, COUNT);
  }

  lemma StartsBefore(s: State, i: nat)
    requires Invariant(s) && i < |s.stream| && !Settled(s, s.stream[i].id)
    ensures Ordered(s.stream)
    ensures (if s.lastDelivered.Some? then s.lastDelivered.value else 0) < s.stream[i].id
  {
  }

  lemma {:induction false} ReadSome(stream: Stream, after: nat, i: nat, count: nat)
    requires i < |stream| && stream[i].id > after && count > 0
    ensures Read(stream, after, count) != []
  {
    if stream[0].id <= after { ReadSome(stream[1..], after, i - 1, count); }
  }

  // ---- where a reader begins ----

  /** The id behind which a reader that starts now begins. */
  function StoredId(s: State): nat {
    match s.lastDelivered case Some(id) => id case None => 0
  }

  ghost predicate AllAbove(entries: Stream, id: nat) {
    forall i | 0 <= i < |entries| :: entries[i].id > id
  }

  ghost predicate Beyond(s: State, r: nat, id: nat) {
    r in s.readers && s.readers[r].cursor >= id && s.readers[r].seen >= id && AllAbove(s.readers[r].batch, id)
  }

  /** Whatever the reader hands over or drops in the run is above the id. */
  ghost predicate TakesAbove(s: State, run: seq<Action>, r: nat, id: nat)
    decreases |run|
  {
    run != [] ==>
      && Enabled(s, run[0])
      && (run[0] == Hand(r) || run[0] == Drop(r) ==> s.readers[r].batch[0].id > id)
      && TakesAbove(Do(s, run[0]), run[1..], r, id)
  }

  lemma {:induction false} ReadAbove(stream: Stream, after: nat, count: nat)
    ensures AllAbove(Read(stream, after, count), after)
  {
    if stream != [] && count != 0 {
      if stream[0].id <= after { ReadAbove(stream[1..], after, count); } else { ReadAbove(stream[1..], after, count - 1); }
    }
  }

  lemma StepBeyond(s: State, a: Action, r: nat, id: nat)
    requires Beyond(s, r, id) && Enabled(s, a) && a != Crash(r)
    ensures Beyond(Do(s, a), r, id)
  {
    hide Read;
    match a
    case Fetch(q) => if q == r { ReadAbove(s.stream, s.readers[r].cursor, COUNT); }
    case _ =>
  }

  lemma {:induction false} RunTakesAbove(s: State, run: seq<Action>, t: State, r: nat, id: nat)
    requires Beyond(s, r, id) && IsRun(s, run, t) && Crash(r) !in run
    ensures TakesAbove(s, run, r, id)
    decreases |run|
  {
    hide Read;
    if run != [] {
      assert run == [run[0]] + run[1..];
      StepBeyond(s, run[0], r, id);
      RunTakesAbove(Do(s, run[0]), run[1..], t, r, id);
    }
  }

  /**
   A reader that starts is never given again what was acknowledged by then: in every run, through
   all of its failures, it hands over and drops only entries above the id that is stored when it starts.
   */
  lemma AcknowledgedStaysAway(s: State, r: nat, run: seq<Action>, t: State)
    requires Enabled(s, StartReader(r)) && IsRun(Do(s, StartReader(r)), run, t) && Crash(r) !in run
    ensures TakesAbove(Do(s, StartReader(r)), run, r, StoredId(s))
  {
    hide IsRun;
    RunTakesAbove(Do(s, StartReader(r)), run, t, r, StoredId(s));
  }

  // ---- what a reader takes ----

  /** The entries the reader hands over or drops in the run, in this order. */
  function TakenIn(s: State, run: seq<Action>, r: nat): Stream
    decreases |run|
  {
    if run == [] || !Enabled(s, run[0]) then []
    else
      (if run[0] == Hand(r) || run[0] == Drop(r) then [s.readers[r].batch[0]] else [])
      + TakenIn(Do(s, run[0]), run[1..], r)
  }

  /** The entries are the first ones of the stream above the id, in its order. */
  ghost predicate FirstAbove(stream: Stream, id: nat, entries: Stream) {
    exists from: nat :: FirstAboveAt(stream, id, entries, from)
  }

  ghost predicate FirstAboveAt(stream: Stream, id: nat, entries: Stream, from: nat) {
    && from + |entries| <= |stream| && entries == stream[from..from + |entries|]
    && (forall i | 0 <= i < from :: stream[i].id <= id)
    && (forall i | from <= i < |stream| :: stream[i].id > id)
  }

  /** What the reader took is the part of the stream up to `seen`, and its batch is what follows. */
  ghost predicate InStep(s: State, r: nat, id: nat, entries: Stream, from: nat) {
    && r in s.readers && Ordered(s.stream) && FirstAboveAt(s.stream, id, entries, from) && id <= LastId(s.stream)
    && var reader := s.readers[r];
       && reader.seen == (if entries == [] then id else LastId(entries))
       && (if reader.reading then
             var next := from + |entries|;
             next + |reader.batch| <= |s.stream| && reader.batch == s.stream[next..next + |reader.batch|]
           else reader.cursor == reader.seen)
  }

  lemma SliceStays(stream: Stream, e: Entry, from: nat, to: nat)
    requires from <= to <= |stream|
    ensures (stream + [e])[from..to] == stream[from..to]
  {
  }

  lemma PublishAbove(stream: Stream, e: Entry, id: nat, entries: Stream, from: nat)
    requires FirstAboveAt(stream, id, entries, from) && e.id > LastId(stream) >= id
    ensures FirstAboveAt(stream + [e], id, entries, from)
  {
    SliceStays(stream, e, from, from + |entries|);
  }

  lemma PublishInStep(s: State, e: Entry, r: nat, id: nat, entries: Stream, from: nat)
    requires InStep(s, r, id, entries, from) && Enabled(s, Publish(e))
    ensures InStep(Do(s, Publish(e)), r, id, entries, from)
  {
    hide Ordered, FirstAboveAt;
    var reader := s.readers[r];
    PublishOrdered(s.stream, e);
    PublishAbove(s.stream, e, id, entries, from);
    if reader.reading { SliceStays(s.stream, e, from + |entries|, from + |entries| + |reader.batch|); }
  }

  /** Where the entries behind `seen` begin. */
  lemma SeenSplits(s: State, r: nat, id: nat, entries: Stream, from: nat)
    requires InStep(s, r, id, entries, from)
    ensures forall i | 0 <= i < from + |entries| :: s.stream[i].id <= s.readers[r].seen
    ensures forall i | from + |entries| <= i < |s.stream| :: s.stream[i].id > s.readers[r].seen
  {
    var next := from + |entries|;
    if entries != [] {
      assert entries[|entries| - 1] == s.stream[next - 1];
      forall i | 0 <= i < next ensures s.stream[i].id <= s.readers[r].seen {
        if i < next - 1 { assert s.stream[i].id < s.stream[next - 1].id; }
      }
      forall i | next <= i < |s.stream| ensures s.stream[i].id > s.readers[r].seen { assert s.stream[next - 1].id < s.stream[i].id; }
    }
  }

  /** There is one place where the entries above an id begin. */
  lemma OneBoundary(stream: Stream, id: nat, at: nat, next: nat)
    requires at < |stream| && stream[at].id > id && forall i | 0 <= i < at :: stream[i].id <= id
    requires next <= |stream| && (forall i | 0 <= i < next :: stream[i].id <= id) && forall i | next <= i < |stream| :: stream[i].id > id
    ensures at == next
  {
    assert next < |stream| ==> stream[next].id > id;
  }

  lemma FetchInStep(s: State, r: nat, id: nat, entries: Stream, from: nat)
    requires InStep(s, r, id, entries, from) && Enabled(s, Fetch(r))
    ensures InStep(Do(s, Fetch(r)), r, id, entries, from)
  {
    hide Read, Ordered, FirstAboveAt, LastId;
    var batch := Read(s.stream, s.readers[r].cursor, COUNT);
    SeenSplits(s, r, id, entries, from);
    FetchOrdered(s, r, id, entries, from);
    ReadFollows(s.stream, s.readers[r].cursor, COUNT);
    ReadAbove(s.stream, s.readers[r].cursor, COUNT);
    var at: nat :| FollowsAt(s.stream, s.readers[r].cursor, batch, at);
    assert batch[0] == s.stream[at];
    OneBoundary(s.stream, s.readers[r].cursor, at, from + |entries|);
  }

  lemma FetchOrdered(s: State, r: nat, id: nat, entries: Stream, from: nat)
    requires InStep(s, r, id, entries, from)
    ensures Ordered(s.stream)
  {
  }

  lemma BatchSplits(stream: Stream, from: nat, next: nat, batch: Stream)
    requires from <= next && batch != [] && next + |batch| <= |stream| && batch == stream[next..next + |batch|]
    ensures stream[from..next] + [batch[0]] == stream[from..next + 1]
    ensures batch[1..] == stream[next + 1..next + 1 + |batch[1..]|]
  {
  }

  lemma TakeInStep(s: State, a: Action, r: nat, id: nat, entries: Stream, from: nat)
    requires InStep(s, r, id, entries, from) && Enabled(s, a) && (a == Hand(r) || a == Drop(r))
    ensures InStep(Do(s, a), r, id, entries + [s.readers[r].batch[0]], from)
  {
    hide Read, Ordered;
    var reader, next := s.readers[r], from + |entries|;
    BatchSplits(s.stream, from, next, reader.batch);
    assert LastId(entries + [reader.batch[0]]) == reader.batch[0].id;
  }

  lemma StepInStep(s: State, a: Action, r: nat, id: nat, entries: Stream, from: nat)
    requires InStep(s, r, id, entries, from) && Enabled(s, a) && a != Crash(r) && a != Fail(r)
    ensures InStep(Do(s, a), r, id, if a == Hand(r) || a == Drop(r) then entries + [s.readers[r].batch[0]] else entries, from)
  {
    hide Read, Ordered, FirstAboveAt, LastId;
    match a
    case Publish(e) => PublishInStep(s, e, r, id, entries, from);
    case Fetch(q) => if q == r { FetchInStep(s, r, id, entries, from); }
    case Hand(q) => if q == r { TakeInStep(s, a, r, id, entries, from); }
    case Drop(q) => if q == r { TakeInStep(s, a, r, id, entries, from); }
    case _ =>
  }

  lemma {:induction false} RunInStep(s: State, run: seq<Action>, t: State, r: nat, id: nat, entries: Stream, from: nat)
    requires InStep(s, r, id, entries, from) && IsRun(s, run, t) && Crash(r) !in run && Fail(r) !in run
    ensures InStep(t, r, id, entries + TakenIn(s, run, r), from)
    decreases |run|
  {
    hide InStep, Enabled, Do;
    if run == [] {
      assert entries + TakenIn(s, run, r) == entries;
    } else {
      assert run == [run[0]] + run[1..];
      StepInStep(s, run[0], r, id, entries, from);
      var more := if run[0] == Hand(r) || run[0] == Drop(r) then entries + [TakenIn(s, run, r)[0]] else entries;
      RunInStep(Do(s, run[0]), run[1..], t, r, id, more, from);
      assert entries + TakenIn(s, run, r) == more + TakenIn(Do(s, run[0]), run[1..], r);
    }
  }

  lemma {:induction false} SplitAt(stream: Stream, id: nat) returns (from: nat)
    requires Ordered(stream)
    ensures FirstAboveAt(stream, id, [], from)
  {
    if stream == [] || stream[|stream| - 1].id <= id {
      from := |stream|;
      forall i | 0 <= i < |stream| ensures stream[i].id <= id {
        if i < |stream| - 1 { assert stream[i].id < stream[|stream| - 1].id; }
      }
    } else {
      var init := stream[..|stream| - 1];
      from := SplitAt(init, id);
      forall i | 0 <= i < from ensures stream[i].id <= id { assert init[i].id <= id; }
      forall i | from <= i < |stream| ensures stream[i].id > id { if i < |init| { assert init[i].id > id; } }
    }
  }

  lemma InvariantOrdered(s: State)
    requires Invariant(s)
    ensures Ordered(s.stream)
  {
  }

  lemma StartInStep(s: State, r: nat, from: nat)
    requires Invariant(s) && Enabled(s, StartReader(r)) && FirstAboveAt(s.stream, StoredId(s), [], from)
    ensures InStep(Do(s, StartReader(r)), r, StoredId(s), [], from)
  {
    hide ReaderInvariant, RightlySettled, SettledUpTo;
  }

  /**
   A reader that does not fail takes exactly the entries that follow the id stored at its start,
   every one of them once and in order, whatever the others do meanwhile.
   */
  lemma ReaderTakesInOrder(before: seq<Action>, s: State, r: nat, run: seq<Action>, t: State)
    requires IsRun(INITIAL, before, s) && Enabled(s, StartReader(r))
    requires IsRun(Do(s, StartReader(r)), run, t) && Crash(r) !in run && Fail(r) !in run
    ensures FirstAbove(t.stream, StoredId(s), TakenIn(Do(s, StartReader(r)), run, r))
  {
    hide IsRun, TakenIn, Invariant, Enabled, Do, FirstAboveAt;
    InitialInvariant();
    RunKeepsInvariant(INITIAL, before, s);
    InvariantOrdered(s);
    var from := SplitAt(s.stream, StoredId(s));
    var begin := Do(s, StartReader(r));
    StartInStep(s, r, from);
    RunInStep(begin, run, t, r, StoredId(s), [], from);
    assert [] + TakenIn(begin, run, r) == TakenIn(begin, run, r);
    assert FirstAboveAt(t.stream, StoredId(s), TakenIn(begin, run, r), from);
  }

  // ---- what is acknowledged, and what is handed over ----

  /** Neither a step of the reader nor its end. */
  predicate OfOthers(a: Action, r: nat) {
    match a
    case Publish(_) => true
    case Tick(_) => true
    case _ => a.r != r
  }

  ghost predicate OthersRun(s: State, run: seq<Action>, t: State, r: nat) {
    IsRun(s, run, t) && forall i | 0 <= i < |run| :: OfOthers(run[i], r)
  }

  lemma {:induction false} OthersLeave(s: State, run: seq<Action>, t: State, r: nat)
    requires OthersRun(s, run, t, r) && r in s.readers
    ensures r in t.readers && t.readers[r] == s.readers[r]
    decreases |run|
  {
    hide Read;
    if run != [] {
      assert OfOthers(run[0], r);
      assert forall i | 0 <= i < |run| - 1 :: run[1..][i] == run[i + 1];
      OthersLeave(Do(s, run[0]), run[1..], t, r);
    }
  }

  /**
   A message for the user is acknowledged before its reader goes on: whatever the others do after it
   was handed over, the reader's next step, unless it crashes, stores just that id, from which the
   next reader begins.
   */
  lemma HandedIsAcknowledged(s: State, r: nat, others: seq<Action>, t: State, a: Action)
    requires Enabled(s, Hand(r)) && s.readers[r].batch[0].forUser
    requires OthersRun(Do(s, Hand(r)), others, t, r) && Enabled(t, a) && !OfOthers(a, r) && a != Crash(r)
    ensures a == Acknowledge(r) && StoredId(Do(t, a)) == s.readers[r].batch[0].id
  {
    hide Read, IsRun;
    OthersLeave(Do(s, Hand(r)), others, t, r);
  }

  /** The run has no other fetch of the reader, and no end of it. */
  predicate SameBatch(run: seq<Action>, r: nat) {
    Fetch(r) !in run && Crash(r) !in run
  }

  lemma {:induction false} TimeStays(s: State, run: seq<Action>, t: State, r: nat)
    requires IsRun(s, run, t) && r in s.readers && SameBatch(run, r)
    ensures r in t.readers && t.readers[r].time == s.readers[r].time
    decreases |run|
  {
    hide Read;
    if run != [] {
      assert run == [run[0]] + run[1..];
      TimeStays(Do(s, run[0]), run[1..], t, r);
    }
  }

  /** Until the next fetch, a reader hands over exactly the well-formed entries of its batch that had not expired at the fetch, and drops the others. */
  lemma ExpiryAtFetch(s: State, r: nat, run: seq<Action>, t: State)
    requires Enabled(s, Fetch(r)) && IsRun(Do(s, Fetch(r)), run, t) && SameBatch(run, r) && Working(t, r) && t.readers[r].batch != []
    ensures var e := t.readers[r].batch[0];
            && (Enabled(t, Hand(r)) <==> !e.malformed && (e.expires == 0 || e.expires > s.now))
            && (Enabled(t, Drop(r)) <==> e.malformed || (e.expires != 0 && e.expires <= s.now))
  {
    hide Read, IsRun;
    TimeStays(Do(s, Fetch(r)), run, t, r);
  }
}
