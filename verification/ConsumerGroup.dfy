/**
 A channel that is read through a consumer group: the stream, the group's last delivered id
 and pending entries in redis, and the readers, each of which begins with the entries that are
 pending for its consumer and changes over to new ones when there are none left.
 */
module ConsumerGroup {
  import opened Wrappers

  type Consumer = nat
  type ReaderId = nat

  /** The id in a reader's `_streams`: a number, or ">". */
  datatype Cursor = Numeric(id: nat) | New

  /**
   A reader: the consumer it reads as, its cursor, whether it works on a batch, the rest of the
   batch and the last id it took from it, all ids it was given by redis since it started, whether
   a batch of pending entries was given up because of an error, and whether another reader was
   open with the same consumer at some time of its life.
   */
  datatype Reader = Reader(
    consumer: Consumer, cursor: Cursor, reading: bool, batch: seq<nat>, seen: nat, taken: seq<nat>, failed: bool, shared: bool)

  datatype State = State(
    stream: seq<nat>,
    last: nat,
    pending: map<nat, Consumer>,
    acked: set<nat>,
    readers: map<ReaderId, Reader>)

  /** The group is created at id 0. */
  const INITIAL := State([], 0, map[], {}, map[])

  const COUNT := 10

  // ---- what redis answers ----

  predicate PendingFor(pending: map<nat, Consumer>, c: Consumer, id: nat) {
    id in pending && pending[id] == c
  }

  /** The consumer's own pending entries after an id. */
  function Matching(stream: seq<nat>, pending: map<nat, Consumer>, c: Consumer, after: nat): seq<nat> {
    if stream == [] then []
    else if stream[0] > after && PendingFor(pending, c, stream[0]) then
      [stream[0]] + Matching(stream[1..], pending, c, after)
    else Matching(stream[1..], pending, c, after)
  }

  function Newer(stream: seq<nat>, last: nat): seq<nat> {
    if stream == [] then []
    else if stream[0] > last then [stream[0]] + Newer(stream[1..], last)
    else Newer(stream[1..], last)
  }

  function FirstOf(ids: seq<nat>, count: nat): seq<nat> {
    if |ids| <= count then ids else ids[..count]
  }

  /** XREADGROUP with a number. */
  function OwnPending(stream: seq<nat>, pending: map<nat, Consumer>, c: Consumer, after: nat): seq<nat> {
    FirstOf(Matching(stream, pending, c, after), COUNT)
  }

  /** XREADGROUP with ">": entries that were never delivered. */
  function Undelivered(stream: seq<nat>, last: nat): seq<nat> {
    FirstOf(Newer(stream, last), COUNT)
  }

  function LastOf(ids: seq<nat>, default: nat): nat {
    if ids == [] then default else ids[|ids| - 1]
  }

  // ---- the steps ----

  datatype Action =
    | Publish(id: nat)
    | StartReader(r: ReaderId, c: Consumer, claimed: set<nat>)
    | FetchPending(r: ReaderId)
    | FetchNothing(r: ReaderId)
    | FetchNew(r: ReaderId)
    | Handle(r: ReaderId)
    | Acknowledge(id: nat)
    | Finish(r: ReaderId)
    | Fail(r: ReaderId)
    | Crash(r: ReaderId)

  predicate Idle(s: State, r: ReaderId) {
    r in s.readers && !s.readers[r].reading
  }

  function NextPending(s: State, r: ReaderId): seq<nat>
    requires r in s.readers && s.readers[r].cursor.Numeric?
  {
    OwnPending(s.stream, s.pending, s.readers[r].consumer, s.readers[r].cursor.id)
  }

  predicate Enabled(s: State, a: Action) {
    match a
    case Publish(id) => id > LastOf(s.stream, 0)
    case StartReader(r, _, claimed) => r !in s.readers && claimed <= s.pending.Keys
    case FetchPending(r) => Idle(s, r) && s.readers[r].cursor.Numeric? && NextPending(s, r) != []
    case FetchNothing(r) => Idle(s, r) && s.readers[r].cursor.Numeric? && NextPending(s, r) == []
    case FetchNew(r) => Idle(s, r) && s.readers[r].cursor == New && Undelivered(s.stream, s.last) != []
    case Handle(r) => r in s.readers && s.readers[r].reading && s.readers[r].batch != []
    case Acknowledge(id) => id in s.pending
    case Finish(r) => r in s.readers && s.readers[r].reading && s.readers[r].batch == []
    case Fail(r) => r in s.readers && s.readers[r].reading
    case Crash(r) => r in s.readers
  }

  function Update(s: State, r: ReaderId, reader: Reader): State {
    s.(readers := s.readers[r := reader])
  }

  /** XREADGROUP and XAUTOCLAIM make the entries pending for the consumer. */
  function Deliver(pending: map<nat, Consumer>, c: Consumer, ids: set<nat>): map<nat, Consumer> {
    map id | id in pending.Keys + ids :: if id in ids then c else pending[id]
  }

  function Members(ids: seq<nat>): set<nat> {
    set id | id in ids
  }

  predicate Taken(readers: map<ReaderId, Reader>, c: Consumer) {
    exists q | q in readers :: readers[q].consumer == c
  }

  /** The readers, of which those with the consumer are no longer alone. */
  function Joined(readers: map<ReaderId, Reader>, c: Consumer): map<ReaderId, Reader> {
    map q | q in readers :: if readers[q].consumer == c then readers[q].(shared := true) else readers[q]
  }

  function Do(s: State, a: Action): State
    requires Enabled(s, a)
  {
    match a
    case Publish(id) => s.(stream := s.stream + [id])
    case StartReader(r, c, claimed) =>
      var reader := Reader(c, Numeric(0), false, [], 0, [], false, Taken(s.readers, c));
      s.(readers := Joined(s.readers, c)[r := reader], pending := Deliver(s.pending, c, claimed))
    case FetchPending(r) =>
      var reader, batch := s.readers[r], NextPending(s, r);
      Update(s, r, reader.(reading := true, batch := batch, taken := reader.taken + batch))
    case FetchNothing(r) =>
      Update(s, r, s.readers[r].(cursor := New))
    case FetchNew(r) =>
      var reader, batch := s.readers[r], Undelivered(s.stream, s.last);
      Update(s, r, reader.(reading := true, batch := batch, taken := reader.taken + batch))
        .(pending := Deliver(s.pending, reader.consumer, Members(batch)), last := LastOf(batch, s.last))
    case Handle(r) =>
      var reader := s.readers[r];
      Update(s, r, reader.(batch := reader.batch[1..], seen := reader.batch[0]))
    case Acknowledge(id) => s.(pending := s.pending - {id}, acked := s.acked + {id})
    case Finish(r) =>
      Update(s, r, s.readers[r].(reading := false, cursor := Numeric(s.readers[r].seen)))
    case Fail(r) =>
      // The error is logged, and the loop reads again with the old cursor.
      Update(s, r, s.readers[r].(reading := false, batch := [], failed := s.readers[r].failed || s.readers[r].cursor.Numeric?))
    case Crash(r) => s.(readers := s.readers - {r})
  }

  // ---- every entry is in exactly one place ----

  ghost predicate Increasing(ids: seq<nat>) {
    forall i, j | 0 <= i < j < |ids| :: ids[i] < ids[j]
  }

  ghost predicate Placed(s: State) {
    && Increasing(s.stream) && (forall i | 0 <= i < |s.stream| :: s.stream[i] > 0)
    && s.last <= LastOf(s.stream, 0)
    && (forall id | id in s.pending || id in s.acked :: id in s.stream && id <= s.last)
    && (forall id | id in s.stream && id <= s.last :: (id in s.pending) != (id in s.acked))
    && (forall id | id in s.pending :: id !in s.acked)
  }

  ghost predicate AllAbove(ids: seq<nat>, x: int) {
    forall i | 0 <= i < |ids| :: ids[i] > x
  }

  lemma TailAbove(stream: seq<nat>)
    requires Increasing(stream) && stream != []
    ensures Increasing(stream[1..]) && AllAbove(stream[1..], stream[0])
    ensures forall id :: id in stream <==> id == stream[0] || id in stream[1..]
  {
    assert stream == [stream[0]] + stream[1..];
  }

  lemma ConsIncreasing(x: nat, ids: seq<nat>)
    requires Increasing(ids) && AllAbove(ids, x)
    ensures Increasing([x] + ids)
  {
  }

  lemma {:induction false} MatchingProperties(stream: seq<nat>, pending: map<nat, Consumer>, c: Consumer, after: nat, x: int)
    requires Increasing(stream) && AllAbove(stream, x)
    ensures Increasing(Matching(stream, pending, c, after)) && AllAbove(Matching(stream, pending, c, after), x)
    ensures forall id: nat :: id in Matching(stream, pending, c, after) <==> id in stream && id > after && PendingFor(pending, c, id)
  {
    hide Increasing, PendingFor;
    if stream != [] {
      TailAbove(stream);
      MatchingProperties(stream[1..], pending, c, after, stream[0]);
      ConsIncreasing(stream[0], Matching(stream[1..], pending, c, after));
    }
  }

  lemma {:induction false} NewerProperties(stream: seq<nat>, last: nat, x: int)
    requires Increasing(stream) && AllAbove(stream, x)
    ensures Increasing(Newer(stream, last)) && AllAbove(Newer(stream, last), x)
    ensures forall id: nat :: id in Newer(stream, last) <==> id in stream && id > last
  {
    hide Increasing;
    if stream != [] {
      TailAbove(stream);
      NewerProperties(stream[1..], last, stream[0]);
      ConsIncreasing(stream[0], Newer(stream[1..], last));
    }
  }

  /** A prefix of an increasing sequence: what it leaves out is greater. */
  lemma FirstProperties(ids: seq<nat>, count: nat, default: nat)
    requires Increasing(ids)
    ensures var first := FirstOf(ids, count);
            && Increasing(first) && (forall id | id in first :: id in ids)
            && (forall id | id in ids && id !in first :: id > LastOf(first, default) || first == [])
            && (first == [] ==> ids == [] || count == 0)
  {
    var first := FirstOf(ids, count);
    forall i | 0 <= i < |first| ensures first[i] == ids[i] { }
    forall i | |first| <= i < |ids| ensures ids[i] > LastOf(first, default) || first == [] { }
  }

  lemma OwnPendingProperties(stream: seq<nat>, pending: map<nat, Consumer>, c: Consumer, after: nat)
    requires Increasing(stream)
    ensures var ids := OwnPending(stream, pending, c, after);
            && Increasing(ids)
            && (forall id: nat | id in ids :: id > after && PendingFor(pending, c, id) && id in stream)
            && (forall id: nat | id in stream && id > after && PendingFor(pending, c, id) :: id in ids || (ids != [] && id > LastOf(ids, 0)))
  {
    hide Increasing, PendingFor, Matching, FirstOf;
    MatchingProperties(stream, pending, c, after, -1);
    FirstProperties(Matching(stream, pending, c, after), COUNT, 0);
  }

  lemma UndeliveredProperties(stream: seq<nat>, last: nat)
    requires Increasing(stream)
    ensures var ids := Undelivered(stream, last);
            && Increasing(ids)
            && (forall id: nat | id in ids :: id > last && id in stream)
            && (forall id: nat | id in stream && last < id <= LastOf(ids, last) :: id in ids)
  {
    hide Increasing, Newer, FirstOf;
    NewerProperties(stream, last, -1);
    FirstProperties(Newer(stream, last), COUNT, last);
  }

  lemma LastIsGreatest(ids: seq<nat>, default: nat)
    requires Increasing(ids)
    ensures forall id | id in ids :: id <= LastOf(ids, default)
    ensures ids != [] ==> LastOf(ids, default) in ids
  {
  }

  lemma PublishPlaced(s: State, id: nat)
    requires Placed(s) && Enabled(s, Publish(id))
    ensures Placed(Do(s, Publish(id)))
  {
    var t := Do(s, Publish(id));
    LastIsGreatest(s.stream, 0);
    assert forall x :: x in t.stream <==> x in s.stream || x == id;
    assert forall i | 0 <= i < |s.stream| :: s.stream[i] in s.stream;
  }

  lemma FetchNewPlaced(s: State, r: ReaderId)
    requires Placed(s) && Enabled(s, FetchNew(r))
    ensures Placed(Do(s, FetchNew(r)))
  {
    var t, batch := Do(s, FetchNew(r)), Undelivered(s.stream, s.last);
    UndeliveredProperties(s.stream, s.last);
    LastIsGreatest(s.stream, 0);
    LastIsGreatest(batch, s.last);
    assert forall id :: id in t.pending <==> id in s.pending || id in batch;
    assert forall id | id in batch :: id > s.last;
    assert t.last in batch && t.last > s.last;
  }

  lemma StepPlaced(s: State, a: Action)
    requires Placed(s) && Enabled(s, a)
    ensures Placed(Do(s, a))
  {
    hide OwnPending, Undelivered, Increasing;
    match a
    case Publish(id) => PublishPlaced(s, id);
    case FetchNew(r) => FetchNewPlaced(s, r);
    case _ =>
  }

  // ---- what one reader does in its lifetime ----

  /** The greatest id the reader was given. */
  function Top(r: Reader): nat {
    LastOf(r.taken, 0)
  }

  ghost predicate InOrder(s: State, r: Reader) {
    && Increasing(r.taken) && Top(r) <= s.last
    && (forall id: nat | id in r.taken :: id > 0)
    && (!r.reading && r.cursor.Numeric? ==> r.cursor.id == Top(r))
    && (r.reading ==> if r.batch == [] then r.seen == Top(r) else LastOf(r.batch, 0) == Top(r))
  }

  /** The id up to which the reader is through with the entries of its cursor. */
  function Reached(r: Reader): nat {
    if r.reading then LastOf(r.batch, r.seen) else if r.cursor.Numeric? then r.cursor.id else 0
  }

  /** The reader was given the entry, or it is still ahead of a numeric cursor. */
  predicate Accounts(r: Reader, id: nat) {
    id in r.taken || (r.cursor.Numeric? && id > Reached(r))
  }

  predicate Known(s: State, r: ReaderId, id: nat) {
    r in s.readers && (PendingFor(s.pending, s.readers[r].consumer, id) ==> Accounts(s.readers[r], id))
  }

  /** A batch of pending entries is ahead of the cursor. */
  predicate Ahead(r: Reader) {
    r.reading && r.cursor.Numeric? ==> r.cursor.id <= Reached(r)
  }

  ghost predicate ReaderInvariant(s: State, r: ReaderId) {
    r in s.readers ==>
      && (!s.readers[r].failed ==> InOrder(s, s.readers[r]))
      && Ahead(s.readers[r])
      && (!s.readers[r].shared ==> forall id: nat :: Known(s, r, id))
  }

  /** A reader that is not shared is the only one of its consumer. */
  ghost predicate SharedKnown(readers: map<ReaderId, Reader>) {
    forall q: ReaderId, r: ReaderId | q in readers && r in readers && q != r && !readers[q].shared :: readers[r].consumer != readers[q].consumer
  }

  ghost predicate AllUpTo(ids: seq<nat>, x: nat) {
    forall i | 0 <= i < |ids| :: ids[i] <= x
  }

  /** What readers work on was delivered. */
  ghost predicate Delivered(s: State) {
    forall r: ReaderId | r in s.readers :: AllUpTo(s.readers[r].batch, s.last)
  }

  ghost predicate Invariant(s: State) {
    Placed(s) && Delivered(s) && SharedKnown(s.readers) && forall r: ReaderId :: ReaderInvariant(s, r)
  }

  lemma IncreasingConcat(a: seq<nat>, b: seq<nat>)
    requires Increasing(a) && Increasing(b) && forall x: nat | x in b :: x > LastOf(a, 0)
    ensures Increasing(a + b)
    ensures b != [] ==> LastOf(a + b, 0) == LastOf(b, 0)
  {
    LastIsGreatest(a, 0);
    forall i, j | 0 <= i < j < |a + b| ensures (a + b)[i] < (a + b)[j] {
      if i < |a| && j >= |a| { assert a[i] in a && b[j - |a|] in b; }
    }
  }

  // ---- the order in which a reader takes entries ----

  lemma FetchPendingInOrder(s: State, r: ReaderId)
    requires Placed(s) && Enabled(s, FetchPending(r)) && InOrder(s, s.readers[r])
    ensures InOrder(Do(s, FetchPending(r)), Do(s, FetchPending(r)).readers[r])
  {
    var t, reader, batch := Do(s, FetchPending(r)), s.readers[r], NextPending(s, r);
    OwnPendingProperties(s.stream, s.pending, reader.consumer, Top(reader));
    IncreasingConcat(reader.taken, batch);
    assert forall id :: id in t.readers[r].taken <==> id in reader.taken || id in batch;
    assert batch[|batch| - 1] in batch;
  }

  lemma FetchNewInOrder(s: State, r: ReaderId)
    requires Placed(s) && Enabled(s, FetchNew(r)) && InOrder(s, s.readers[r])
    ensures InOrder(Do(s, FetchNew(r)), Do(s, FetchNew(r)).readers[r])
  {
    var t, reader, batch := Do(s, FetchNew(r)), s.readers[r], Undelivered(s.stream, s.last);
    UndeliveredProperties(s.stream, s.last);
    IncreasingConcat(reader.taken, batch);
    assert forall id :: id in t.readers[r].taken <==> id in reader.taken || id in batch;
  }

  lemma StepInOrder(s: State, a: Action, r: ReaderId)
    requires Placed(s) && Enabled(s, a) && r in Do(s, a).readers && !Do(s, a).readers[r].failed
    requires r in s.readers && !s.readers[r].failed ==> InOrder(s, s.readers[r])
    ensures InOrder(Do(s, a), Do(s, a).readers[r])
  {
    hide OwnPending, Undelivered, Placed, Deliver, Increasing;
    match a
    case FetchPending(q) => if q == r { FetchPendingInOrder(s, r); }
    case FetchNew(q) => FetchNewGrows(s, q); if q == r { FetchNewInOrder(s, r); }
    case StartReader(q, _, _) => if q == r { NothingTaken(); }
    case _ =>
  }

  lemma NothingTaken()
    ensures Increasing([])
  {
  }

  // ---- what a reader can miss ----

  /** The step makes the entry pending for the reader's consumer, without giving it to the reader. */
  predicate Diverts(s: State, a: Action, r: ReaderId, id: nat)
    requires r in s.readers
  {
    match a
    case StartReader(_, c, claimed) => c == s.readers[r].consumer && id in claimed
    case FetchNew(q) =>
      q != r && q in s.readers && s.readers[q].consumer == s.readers[r].consumer && id in Undelivered(s.stream, s.last)
    case _ => false
  }

  lemma FetchPendingKnows(s: State, r: ReaderId, id: nat)
    requires Placed(s) && Enabled(s, FetchPending(r)) && Known(s, r, id)
    ensures Known(Do(s, FetchPending(r)), r, id) && Ahead(Do(s, FetchPending(r)).readers[r])
  {
    var t, reader, batch := Do(s, FetchPending(r)), s.readers[r], NextPending(s, r);
    OwnPendingProperties(s.stream, s.pending, reader.consumer, reader.cursor.id);
    assert batch[|batch| - 1] in batch;
    assert forall x: nat :: x in t.readers[r].taken <==> x in reader.taken || x in batch;
    if PendingFor(s.pending, reader.consumer, id) { assert id in s.stream; }
  }

  lemma FetchNothingKnows(s: State, r: ReaderId, id: nat)
    requires Placed(s) && Enabled(s, FetchNothing(r)) && Known(s, r, id)
    ensures Known(Do(s, FetchNothing(r)), r, id)
  {
    OwnPendingProperties(s.stream, s.pending, s.readers[r].consumer, s.readers[r].cursor.id);
    if PendingFor(s.pending, s.readers[r].consumer, id) { assert id in s.stream; }
  }

  lemma FetchNewKnows(s: State, q: ReaderId, r: ReaderId, id: nat)
    requires Enabled(s, FetchNew(q)) && Known(s, r, id) && !Diverts(s, FetchNew(q), r, id)
    ensures Known(Do(s, FetchNew(q)), r, id)
  {
    hide Undelivered;
    var t, batch := Do(s, FetchNew(q)), Undelivered(s.stream, s.last);
    if q == r { assert forall x: nat :: x in t.readers[r].taken <==> x in s.readers[r].taken || x in batch; }
  }

  /** No other step makes the reader miss an entry. */
  lemma StepKnown(s: State, a: Action, r: ReaderId, id: nat)
    requires Placed(s) && Enabled(s, a) && a != Crash(r) && Known(s, r, id) && Ahead(s.readers[r]) && !Diverts(s, a, r, id)
    ensures Known(Do(s, a), r, id) && Do(s, a).readers[r].consumer == s.readers[r].consumer
  {
    hide OwnPending, Undelivered, Placed, Taken;
    match a
    case FetchPending(q) => if q == r { FetchPendingKnows(s, r, id); }
    case FetchNothing(q) => if q == r { FetchNothingKnows(s, r, id); }
    case FetchNew(q) => FetchNewKnows(s, q, r, id);
    case _ =>
  }

  lemma StepAhead(s: State, a: Action, r: ReaderId)
    requires Placed(s) && Enabled(s, a) && r in Do(s, a).readers
    requires r in s.readers ==> Ahead(s.readers[r])
    ensures Ahead(Do(s, a).readers[r])
  {
    hide OwnPending, Undelivered, Placed, Deliver, Taken;
    match a
    case FetchPending(q) => if q == r { AheadBatch(s, r); }
    case _ =>
  }

  lemma AheadBatch(s: State, r: ReaderId)
    requires Placed(s) && Enabled(s, FetchPending(r))
    ensures LastOf(NextPending(s, r), 0) > s.readers[r].cursor.id
  {
    var batch := NextPending(s, r);
    OwnPendingProperties(s.stream, s.pending, s.readers[r].consumer, s.readers[r].cursor.id);
    assert batch[|batch| - 1] in batch;
  }

  /** Nobody diverts entries of a reader that is not shared. */
  lemma AloneDivertsNothing(s: State, a: Action, r: ReaderId, id: nat)
    requires SharedKnown(s.readers) && Enabled(s, a) && r in s.readers && r in Do(s, a).readers && !Do(s, a).readers[r].shared
    ensures !s.readers[r].shared && !Diverts(s, a, r, id)
  {
    hide OwnPending, Undelivered, Deliver;
  }

  lemma StartKnows(s: State, r: ReaderId, c: Consumer, claimed: set<nat>, id: nat)
    requires Placed(s) && Enabled(s, StartReader(r, c, claimed))
    ensures Known(Do(s, StartReader(r, c, claimed)), r, id) && Ahead(Do(s, StartReader(r, c, claimed)).readers[r])
  {
    var t := Do(s, StartReader(r, c, claimed));
    if PendingFor(t.pending, c, id) {
      assert id in s.pending;
      assert id in s.stream;
    }
  }

  lemma StepReader(s: State, a: Action, r: ReaderId)
    requires Invariant(s) && Enabled(s, a)
    ensures ReaderInvariant(Do(s, a), r)
  {
    hide Placed, Do, Enabled, InOrder, Ahead, Known, Delivered, SharedKnown, Diverts;
    assert ReaderInvariant(s, r);
    if r in Do(s, a).readers {
      StepFrom(s, a, r);
      if !Do(s, a).readers[r].failed { StepInOrder(s, a, r); }
      StepAhead(s, a, r);
      if !Do(s, a).readers[r].shared {
        forall id: nat ensures Known(Do(s, a), r, id) {
          if r in s.readers {
            AloneDivertsNothing(s, a, r, id);
            StepKnown(s, a, r, id);
          } else {
            StartKnows(s, r, a.c, a.claimed, id);
          }
        }
      }
    }
  }

  /** Where a reader comes from. */
  lemma StepFrom(s: State, a: Action, r: ReaderId)
    requires Enabled(s, a) && r in Do(s, a).readers
    ensures a != Crash(r) && (r !in s.readers ==> a.StartReader? && a.r == r)
  {
    hide OwnPending, Undelivered, Deliver, Taken;
  }

  lemma StepKeepsShared(s: State, a: Action)
    requires SharedKnown(s.readers) && Enabled(s, a)
    ensures SharedKnown(Do(s, a).readers)
  {
    hide OwnPending, Undelivered, Deliver;
  }

  lemma StepDelivered(s: State, a: Action)
    requires Placed(s) && Delivered(s) && Enabled(s, a)
    ensures Delivered(Do(s, a))
  {
    hide OwnPending, Undelivered, Deliver, Placed;
    match a
    case FetchPending(r) => PendingUpTo(s, r);
    case FetchNew(r) =>
      FetchNewGrows(s, r);
      NewUpTo(s);
    case _ =>
  }

  lemma PendingUpTo(s: State, r: ReaderId)
    requires Placed(s) && r in s.readers && s.readers[r].cursor.Numeric?
    ensures AllUpTo(NextPending(s, r), s.last)
  {
    var ids := NextPending(s, r);
    OwnPendingProperties(s.stream, s.pending, s.readers[r].consumer, s.readers[r].cursor.id);
    forall i | 0 <= i < |ids| ensures ids[i] <= s.last { assert ids[i] in ids; }
  }

  lemma NewUpTo(s: State)
    requires Placed(s)
    ensures AllUpTo(Undelivered(s.stream, s.last), LastOf(Undelivered(s.stream, s.last), s.last))
  {
    UndeliveredProperties(s.stream, s.last);
  }

  lemma StepKeepsInvariant(s: State, a: Action)
    requires Invariant(s) && Enabled(s, a)
    ensures Invariant(Do(s, a))
  {
    hide ReaderInvariant, SharedKnown, Placed, Delivered, Enabled, Do;
    StepPlaced(s, a);
    StepDelivered(s, a);
    StepKeepsShared(s, a);
    forall r: ReaderId ensures ReaderInvariant(Do(s, a), r) { StepReader(s, a, r); }
  }

  lemma FetchNewGrows(s: State, r: ReaderId)
    requires Placed(s) && Enabled(s, FetchNew(r))
    ensures s.last <= Do(s, FetchNew(r)).last
  {
    UndeliveredProperties(s.stream, s.last);
    LastIsGreatest(Undelivered(s.stream, s.last), s.last);
  }

  // ---- runs ----

  ghost predicate IsRun(s: State, run: seq<Action>, t: State)
    decreases |run|
  {
    if run == [] then s == t else Enabled(s, run[0]) && IsRun(Do(s, run[0]), run[1..], t)
  }

  lemma {:induction false} RunKeepsInvariant(s: State, run: seq<Action>, t: State)
    requires Invariant(s) && IsRun(s, run, t)
    ensures Invariant(t)
    decreases |run|
  {
    hide Invariant, Enabled, Do;
    if run != [] {
      StepKeepsInvariant(s, run[0]);
      RunKeepsInvariant(Do(s, run[0]), run[1..], t);
    }
  }

  lemma InitialInvariant()
    ensures Invariant(INITIAL)
  {
  }

  /** Every entry is always exactly one of undelivered, pending with one consumer, and acknowledged. */
  lemma ExactlyOnePlace(run: seq<Action>, s: State, id: nat)
    requires IsRun(INITIAL, run, s) && id in s.stream
    ensures id > s.last ==> id !in s.pending && id !in s.acked
    ensures id <= s.last ==> (id in s.pending <==> id !in s.acked)
  {
    hide Enabled, Do;
    InitialInvariant();
    RunKeepsInvariant(INITIAL, run, s);
  }

  /** Unless a batch of pending entries failed, a reader takes strictly increasing ids, none of them twice. */
  lemma TakenOnceInOrder(run: seq<Action>, s: State, r: ReaderId)
    requires IsRun(INITIAL, run, s) && r in s.readers && !s.readers[r].failed
    ensures Increasing(s.readers[r].taken)
  {
    hide Enabled, Do, Placed;
    InitialInvariant();
    RunKeepsInvariant(INITIAL, run, s);
    assert ReaderInvariant(s, r);
  }

  lemma RetakenFirst(taken: seq<nat>, batch: seq<nat>, id: nat)
    requires Increasing(batch) && id in batch && 0 < id <= LastOf(taken, 0)
    ensures !Increasing(taken + batch)
  {
    var k := |taken|;
    assert (taken + batch)[k - 1] == taken[k - 1] && (taken + batch)[k] == batch[0] <= id;
  }

  /**
   A reader that is about to read pending entries takes some of them again exactly if an entry
   behind its cursor, but not behind all it took, is still pending for its consumer.
   */
  lemma TakenAgainIff(run: seq<Action>, s: State, r: ReaderId)
    requires IsRun(INITIAL, run, s) && Idle(s, r) && s.readers[r].cursor.Numeric? && Increasing(s.readers[r].taken)
    ensures var reader := s.readers[r];
            (exists id: nat :: PendingFor(s.pending, reader.consumer, id) && reader.cursor.id < id <= Top(reader))
            <==> Enabled(s, FetchPending(r)) && !Increasing(Do(s, FetchPending(r)).readers[r].taken)
  {
    hide IsRun, OwnPending, ReaderInvariant;
    InitialInvariant();
    RunKeepsInvariant(INITIAL, run, s);
    var reader, batch := s.readers[r], NextPending(s, r);
    OwnPendingProperties(s.stream, s.pending, reader.consumer, reader.cursor.id);
    if id: nat :| PendingFor(s.pending, reader.consumer, id) && reader.cursor.id < id <= Top(reader) {
      var first := batch[0];
      assert id in s.stream;
      assert first in batch && first <= id by { LastIsGreatest(batch, 0); }
      RetakenFirst(reader.taken, batch, first);
    } else if batch != [] {
      assert forall x: nat | x in batch :: PendingFor(s.pending, reader.consumer, x);
      IncreasingConcat(reader.taken, batch);
    }
  }

  /**
   An error in a batch of pending entries makes a reader that took nothing twice so far take
   entries again exactly if one of those it was given since its cursor is still pending.
   */
  lemma FailedBatchIff(run: seq<Action>, s: State, r: ReaderId)
    requires IsRun(INITIAL, run, s) && Enabled(s, Fail(r)) && s.readers[r].cursor.Numeric? && Increasing(s.readers[r].taken)
    ensures var reader, t := s.readers[r], Do(s, Fail(r));
            (exists id: nat :: PendingFor(s.pending, reader.consumer, id) && reader.cursor.id < id <= Top(reader))
            <==> Enabled(t, FetchPending(r)) && !Increasing(Do(t, FetchPending(r)).readers[r].taken)
  {
    hide OwnPending;
    var t := Do(s, Fail(r));
    EmptyRun(t);
    RunsJoin(INITIAL, run, s, [Fail(r)], t) by { assert [Fail(r)][1..] == []; }
    TakenAgainIff(run + [Fail(r)], t, r);
  }

  lemma {:induction false} RunsJoin(s: State, first: seq<Action>, m: State, second: seq<Action>, t: State)
    requires IsRun(s, first, m) && IsRun(m, second, t)
    ensures IsRun(s, first + second, t)
    decreases |first|
  {
    hide Enabled, Do;
    if first == [] {
      assert first + second == second;
    } else {
      assert (first + second)[1..] == first[1..] + second;
      RunsJoin(Do(s, first[0]), first[1..], m, second, t);
    }
  }

  /**
   When a reader takes new entries, it took all entries that are pending for its consumer before,
   whatever went wrong with their batches, unless another reader was open with the same consumer.
   */
  lemma PendingBeforeNew(run: seq<Action>, s: State, r: ReaderId, id: nat)
    requires IsRun(INITIAL, run, s) && Enabled(s, FetchNew(r)) && !s.readers[r].shared
    requires PendingFor(s.pending, s.readers[r].consumer, id)
    ensures id in s.readers[r].taken
  {
    hide Do, Placed, InOrder;
    InitialInvariant();
    RunKeepsInvariant(INITIAL, run, s);
    assert ReaderInvariant(s, r);
    assert Known(s, r, id);
  }

  /** Some step of the run makes the entry pending for the reader's consumer without giving it to the reader. */
  predicate DivertedIn(s: State, run: seq<Action>, r: ReaderId, id: nat)
    decreases |run|
  {
    && run != [] && r in s.readers && Enabled(s, run[0])
    && (Diverts(s, run[0], r, id) || DivertedIn(Do(s, run[0]), run[1..], r, id))
  }

  lemma {:induction false} RunKnown(s: State, run: seq<Action>, t: State, r: ReaderId, id: nat)
    requires Invariant(s) && Known(s, r, id) && IsRun(s, run, t) && Crash(r) !in run && !DivertedIn(s, run, r, id)
    ensures Known(t, r, id) && t.readers[r].consumer == s.readers[r].consumer
    decreases |run|
  {
    hide Placed, Known, Enabled, Do, Diverts, InOrder, Ahead;
    if run != [] {
      assert run == [run[0]] + run[1..];
      KnownReader(s, r, id);
      assert ReaderInvariant(s, r);
      StepKnown(s, run[0], r, id);
      StepKeepsInvariant(s, run[0]);
      RunKnown(Do(s, run[0]), run[1..], t, r, id);
    }
  }

  lemma KnownReader(s: State, r: ReaderId, id: nat)
    requires Known(s, r, id)
    ensures r in s.readers
  {
  }

  /**
   From the start of a reader on, in every run of all others and through errors in any of its
   batches: if it reads new entries and was not given an entry that is pending for its consumer,
   then that entry was meanwhile delivered to another reader of that consumer, or claimed by one
   that started.
   */
  lemma MissedMeansDiverted(before: seq<Action>, s: State, r: ReaderId, c: Consumer, claimed: set<nat>, run: seq<Action>,
      u: State, id: nat)
    requires IsRun(INITIAL, before, s) && Enabled(s, StartReader(r, c, claimed))
    requires IsRun(Do(s, StartReader(r, c, claimed)), run, u) && Crash(r) !in run
    ensures r in u.readers
    ensures u.readers[r].cursor == New && PendingFor(u.pending, c, id) && id !in u.readers[r].taken ==>
              DivertedIn(Do(s, StartReader(r, c, claimed)), run, r, id)
  {
    hide Invariant, IsRun, DivertedIn, Placed;
    InitialInvariant();
    RunKeepsInvariant(INITIAL, before, s);
    InvariantPlaced(s);
    StepKeepsInvariant(s, StartReader(r, c, claimed));
    StartKnows(s, r, c, claimed, id);
    ReaderStays(Do(s, StartReader(r, c, claimed)), run, u, r);
    if !DivertedIn(Do(s, StartReader(r, c, claimed)), run, r, id) {
      RunKnown(Do(s, StartReader(r, c, claimed)), run, u, r, id);
    }
  }

  lemma {:induction false} ReaderStays(s: State, run: seq<Action>, t: State, r: ReaderId)
    requires IsRun(s, run, t) && r in s.readers && Crash(r) !in run
    ensures r in t.readers
    decreases |run|
  {
    hide OwnPending, Undelivered, Deliver;
    if run != [] {
      assert run == [run[0]] + run[1..];
      ReaderStays(Do(s, run[0]), run[1..], t, r);
    }
  }

  predicate Claims(a: Action, c: Consumer, id: nat) {
    a.StartReader? && a.c == c && id in a.claimed
  }

  lemma {:induction false} OldIsClaimed(s: State, run: seq<Action>, t: State, r: ReaderId, id: nat)
    requires Invariant(s) && IsRun(s, run, t) && DivertedIn(s, run, r, id) && Crash(r) !in run && id <= s.last
    ensures exists i :: 0 <= i < |run| && Claims(run[i], s.readers[r].consumer, id)
    decreases |run|
  {
    hide Invariant, Undelivered, OwnPending, Placed;
    var next := Do(s, run[0]);
    InvariantPlaced(s);
    if run[0].FetchNew? { FetchNewGrows(s, run[0].r); NewOnly(s); }
    if Diverts(s, run[0], r, id) {
      assert Claims(run[0], s.readers[r].consumer, id);
    } else {
      assert run == [run[0]] + run[1..];
      StepKeepsInvariant(s, run[0]);
      OldIsClaimed(next, run[1..], t, r, id);
      var i :| 0 <= i < |run| - 1 && Claims(run[1..][i], next.readers[r].consumer, id);
      assert Claims(run[i + 1], s.readers[r].consumer, id);
    }
  }

  /**
   A restart: an entry that was delivered before the reader started comes back to it if it stays
   unacknowledged. In every run of all others, through errors in any of its batches, and also if
   others read as the same consumer, the reader was given each such entry that is still pending for
   its consumer by the time it reads new entries, unless a later reader of the consumer claimed it.
   */
  lemma RestartDrains(before: seq<Action>, s: State, r: ReaderId, c: Consumer, claimed: set<nat>, run: seq<Action>, u: State,
      id: nat)
    requires IsRun(INITIAL, before, s) && Enabled(s, StartReader(r, c, claimed))
    requires IsRun(Do(s, StartReader(r, c, claimed)), run, u) && Crash(r) !in run
    requires id <= s.last && forall i | 0 <= i < |run| :: !Claims(run[i], c, id)
    ensures r in u.readers
    ensures u.readers[r].cursor == New && PendingFor(u.pending, c, id) ==> id in u.readers[r].taken
  {
    hide Invariant, IsRun, DivertedIn, Claims;
    MissedMeansDiverted(before, s, r, c, claimed, run, u, id);
    var t := Do(s, StartReader(r, c, claimed));
    InitialInvariant();
    RunKeepsInvariant(INITIAL, before, s);
    StepKeepsInvariant(s, StartReader(r, c, claimed));
    if DivertedIn(t, run, r, id) { OldIsClaimed(t, run, u, r, id); }
  }

  // ---- an error in a batch of new entries ----

  /** The reader has gone past the entry: neither its batch nor its cursor can come back to it. */
  ghost predicate Passed(s: State, r: ReaderId, id: nat) {
    && r in s.readers && id <= s.last
    && (s.readers[r].cursor.Numeric? ==> id <= s.readers[r].cursor.id)
    && AllAbove(s.readers[r].batch, id)
    && (s.readers[r].reading && s.readers[r].batch == [] ==> id <= s.readers[r].seen)
  }

  lemma StepPassed(s: State, a: Action, r: ReaderId, id: nat)
    requires Placed(s) && Passed(s, r, id) && Enabled(s, a) && a != Crash(r)
    ensures Passed(Do(s, a), r, id)
  {
    hide OwnPending, Undelivered, Deliver, Placed;
    match a
    case FetchPending(q) =>
      if q == r { AheadOfCursor(s, r); }
    case FetchNew(q) =>
      FetchNewGrows(s, q);
      AheadOfLast(s);
    case _ =>
  }

  lemma AheadOfCursor(s: State, r: ReaderId)
    requires Placed(s) && r in s.readers && s.readers[r].cursor.Numeric?
    ensures AllAbove(NextPending(s, r), s.readers[r].cursor.id)
  {
    var ids := NextPending(s, r);
    OwnPendingProperties(s.stream, s.pending, s.readers[r].consumer, s.readers[r].cursor.id);
    forall i | 0 <= i < |ids| ensures ids[i] > s.readers[r].cursor.id { assert ids[i] in ids; }
  }

  lemma AheadOfLast(s: State)
    requires Placed(s)
    ensures AllAbove(Undelivered(s.stream, s.last), s.last)
  {
    var ids := Undelivered(s.stream, s.last);
    UndeliveredProperties(s.stream, s.last);
    forall i | 0 <= i < |ids| ensures ids[i] > s.last { assert ids[i] in ids; }
  }

  lemma StepPending(s: State, a: Action, id: nat)
    requires Placed(s) && Enabled(s, a) && id <= s.last
    ensures id in Do(s, a).pending <==> id in s.pending && a != Acknowledge(id)
    ensures id <= Do(s, a).last
  {
    hide OwnPending, Undelivered;
    if a.FetchNew? {
      FetchNewGrows(s, a.r);
      UndeliveredProperties(s.stream, s.last);
    }
  }

  lemma {:induction false} RunPassed(s: State, run: seq<Action>, t: State, r: ReaderId, id: nat)
    requires Invariant(s) && Passed(s, r, id) && IsRun(s, run, t) && Crash(r) !in run
    ensures Passed(t, r, id)
    ensures id in t.pending <==> id in s.pending && Acknowledge(id) !in run
    decreases |run|
  {
    hide Invariant, Enabled, Do;
    if run != [] {
      assert Placed(s) by { InvariantPlaced(s); }
      StepKeepsInvariant(s, run[0]);
      StepPassed(s, run[0], r, id);
      StepPending(s, run[0], id);
      RunPassed(Do(s, run[0]), run[1..], t, r, id);
      assert run == [run[0]] + run[1..];
    }
  }

  lemma InvariantPlaced(s: State)
    requires Invariant(s)
    ensures Placed(s)
  {
  }

  /**
   An error in a batch of new entries: in no run does this reader, as long as it lives, come back
   to the rest of the batch, nor to any other entry that is pending then. Such an entry stays
   pending exactly until it is acknowledged.
   */
  lemma LeftUntilRestart(before: seq<Action>, s: State, r: ReaderId, after: seq<Action>, t: State, id: nat)
    requires IsRun(INITIAL, before, s) && Enabled(s, Fail(r)) && s.readers[r].cursor == New
    requires id in s.readers[r].batch || id in s.pending
    requires IsRun(Do(s, Fail(r)), after, t) && Crash(r) !in after
    ensures r in t.readers && id !in t.readers[r].batch
    ensures id in t.pending <==> id in s.pending && Acknowledge(id) !in after
  {
    hide ReaderInvariant, IsRun;
    InitialInvariant();
    RunKeepsInvariant(INITIAL, before, s);
    StepKeepsInvariant(s, Fail(r));
    RunPassed(Do(s, Fail(r)), after, t, r, id);
  }

  // ---- what a reader does on its own ----

  /** A step of this reader, in which nobody else takes part. */
  predicate OwnStep(a: Action, r: ReaderId) {
    match a
    case FetchPending(q) => q == r
    case FetchNothing(q) => q == r
    case FetchNew(q) => q == r
    case Handle(q) => q == r
    case Finish(q) => q == r
    case Fail(q) => q == r
    case _ => false
  }

  predicate OwnSteps(run: seq<Action>, r: ReaderId) {
    forall i | 0 <= i < |run| :: OwnStep(run[i], r)
  }

  /** What the reader was given of the entries delivered up to `t` was pending for its consumer then. */
  ghost predicate GivenPending(t: State, u: State, r: ReaderId, c: Consumer) {
    && r in u.readers && u.readers[r].consumer == c && t.last <= u.last
    && (forall id: nat | id <= t.last :: PendingFor(u.pending, c, id) <==> PendingFor(t.pending, c, id))
    && (forall id: nat | id in u.readers[r].taken && id <= t.last :: PendingFor(t.pending, c, id))
  }

  lemma OwnStepGiven(t: State, u: State, a: Action, r: ReaderId, c: Consumer)
    requires Placed(u) && GivenPending(t, u, r, c) && Enabled(u, a) && OwnStep(a, r)
    ensures GivenPending(t, Do(u, a), r, c)
  {
    hide OwnPending, Undelivered, Placed;
    match a
    case FetchPending(_) =>
      OwnPendingOnly(u, r);
      assert forall id: nat :: id in Do(u, a).readers[r].taken <==> id in u.readers[r].taken || id in NextPending(u, r);
    case FetchNew(_) =>
      FetchNewGrows(u, r);
      NewOnly(u);
      assert forall id: nat :: id in Do(u, a).readers[r].taken <==> id in u.readers[r].taken || id in Undelivered(u.stream, u.last);
    case _ =>
  }

  lemma OwnPendingOnly(s: State, r: ReaderId)
    requires Placed(s) && r in s.readers && s.readers[r].cursor.Numeric?
    ensures forall id: nat | id in NextPending(s, r) :: PendingFor(s.pending, s.readers[r].consumer, id)
  {
    OwnPendingProperties(s.stream, s.pending, s.readers[r].consumer, s.readers[r].cursor.id);
  }

  lemma NewOnly(s: State)
    requires Placed(s)
    ensures forall id: nat | id in Undelivered(s.stream, s.last) :: id > s.last
  {
    UndeliveredProperties(s.stream, s.last);
  }

  ghost predicate OthersStay(t: State, u: State, r: ReaderId) {
    forall q: ReaderId | q in t.readers && q != r :: q in u.readers && u.readers[q] == t.readers[q]
  }

  lemma OwnStepOthers(s: State, a: Action, r: ReaderId)
    requires Enabled(s, a) && OwnStep(a, r)
    ensures OthersStay(s, Do(s, a), r)
  {
    hide OwnPending, Undelivered, Deliver;
  }

  lemma OwnStepFailed(s: State, a: Action, r: ReaderId)
    requires Enabled(s, a) && OwnStep(a, r) && a != Fail(r) && r in s.readers
    ensures Do(s, a).readers[r].failed == s.readers[r].failed
  {
    hide OwnPending, Undelivered, Deliver;
  }

  lemma {:induction false} OwnRunGiven(t: State, u: State, run: seq<Action>, w: State, r: ReaderId, c: Consumer)
    requires Invariant(u) && GivenPending(t, u, r, c) && IsRun(u, run, w) && OwnSteps(run, r)
    ensures GivenPending(t, w, r, c) && Invariant(w)
    ensures Fail(r) !in run ==> w.readers[r].failed == u.readers[r].failed
    ensures OthersStay(u, w, r)
    decreases |run|
  {
    hide Invariant, Enabled, Do, OwnStep;
    if run != [] {
      assert run == [run[0]] + run[1..];
      assert OwnSteps(run[1..], r) by { forall i | 0 <= i < |run| - 1 ensures OwnStep(run[1..][i], r) { assert OwnStep(run[i + 1], r); } }
      InvariantPlaced(u);
      StepKeepsInvariant(u, run[0]);
      OwnStepGiven(t, u, run[0], r, c);
      OwnStepOthers(u, run[0], r);
      if run[0] != Fail(r) { OwnStepFailed(u, run[0], r); }
      OwnRunGiven(t, Do(u, run[0]), run[1..], w, r, c);
    }
  }

  // ---- after a start ----

  lemma StartGiven(s: State, r: ReaderId, c: Consumer, claimed: set<nat>)
    requires Invariant(s) && Enabled(s, StartReader(r, c, claimed))
    ensures var t := Do(s, StartReader(r, c, claimed));
            Invariant(t) && GivenPending(t, t, r, c) && !t.readers[r].failed && t.readers[r].cursor == Numeric(0) && Idle(t, r) && t.readers[r].taken == []
  {
    hide ReaderInvariant, SharedKnown, Delivered;
    StepKeepsInvariant(s, StartReader(r, c, claimed));
    var t := Do(s, StartReader(r, c, claimed));
    forall id: nat | PendingFor(t.pending, c, id) ensures id > 0 { PendingPositive(t, id); }
  }

  lemma PendingPositive(s: State, id: nat)
    requires Placed(s) && id in s.pending
    ensures 0 < id <= s.last
  {
    assert id in s.stream;
  }

  /**
   A reader that starts, and makes any steps of its own without an error: it is given pending
   entries of its consumer in order, and by the time it changes over to new entries it was given
   exactly all of them.
   */
  lemma OwnRestartDrains(before: seq<Action>, s: State, r: ReaderId, c: Consumer, claimed: set<nat>, own: seq<Action>, u: State)
    requires IsRun(INITIAL, before, s) && Enabled(s, StartReader(r, c, claimed))
    requires IsRun(Do(s, StartReader(r, c, claimed)), own, u) && OwnSteps(own, r) && Fail(r) !in own
    ensures var t := Do(s, StartReader(r, c, claimed));
            && r in u.readers && Increasing(u.readers[r].taken)
            && (forall id: nat | id in u.readers[r].taken && id <= t.last :: PendingFor(t.pending, c, id))
            && (u.readers[r].cursor == New ==>
                  forall id: nat :: PendingFor(t.pending, c, id) <==> id in u.readers[r].taken && id <= t.last)
  {
    hide IsRun, ReaderInvariant, Delivered, SharedKnown, Placed;
    InitialInvariant();
    RunKeepsInvariant(INITIAL, before, s);
    StartGiven(s, r, c, claimed);
    var t := Do(s, StartReader(r, c, claimed));
    OwnRunGiven(t, t, own, u, r, c);
    OwnInOrder(u, r);
    forall id: nat | PendingFor(t.pending, c, id) ensures id <= t.last && (u.readers[r].cursor == New ==> id in u.readers[r].taken) {
      PendingPositive(t, id);
      OwnClaimsNothing(own, r, c, id);
      RestartDrains(before, s, r, c, claimed, own, u, id);
    }
  }

  lemma OwnInOrder(u: State, r: ReaderId)
    requires Invariant(u) && r in u.readers && !u.readers[r].failed
    ensures Increasing(u.readers[r].taken)
  {
    hide Placed, Delivered, SharedKnown;
    assert ReaderInvariant(u, r);
  }

  lemma OwnClaimsNothing(own: seq<Action>, r: ReaderId, c: Consumer, id: nat)
    requires OwnSteps(own, r)
    ensures Crash(r) !in own && forall i | 0 <= i < |own| :: !Claims(own[i], c, id)
  {
    forall i | 0 <= i < |own| ensures own[i] != Crash(r) && !Claims(own[i], c, id) { assert OwnStep(own[i], r); }
  }

  lemma {:induction false} HandleAll(s: State, r: ReaderId) returns (run: seq<Action>, t: State)
    requires r in s.readers && s.readers[r].reading
    ensures IsRun(s, run, t) && OwnSteps(run, r) && Fail(r) !in run
    ensures t == Update(s, r, s.readers[r].(batch := [], seen := LastOf(s.readers[r].batch, s.readers[r].seen)))
    decreases |s.readers[r].batch|
  {
    var reader := s.readers[r];
    if reader.batch == [] {
      run, t := [], s;
      assert s.readers[r := reader] == s.readers;
    } else {
      var next := Do(s, Handle(r));
      run, t := HandleAll(next, r);
      OwnFirst(Handle(r), run, r);
      run := Extended(s, Handle(r), next, run, t);
      assert s.readers[r := next.readers[r]][r := t.readers[r]] == s.readers[r := t.readers[r]];
    }
  }

  lemma OwnFirst(a: Action, run: seq<Action>, r: ReaderId)
    requires OwnStep(a, r) && a != Fail(r) && OwnSteps(run, r) && Fail(r) !in run
    ensures OwnSteps([a] + run, r) && Fail(r) !in [a] + run
  {
  }

  lemma OwnJoin(first: seq<Action>, second: seq<Action>, r: ReaderId)
    requires OwnSteps(first, r) && Fail(r) !in first && OwnSteps(second, r) && Fail(r) !in second
    ensures OwnSteps(first + second, r) && Fail(r) !in first + second
  {
  }

  /** One batch of pending entries from fetching to finishing moves the cursor behind it. */
  lemma DrainOne(s: State, r: ReaderId) returns (run: seq<Action>, t: State)
    requires Placed(s) && Enabled(s, FetchPending(r))
    ensures IsRun(s, run, t) && OwnSteps(run, r) && Fail(r) !in run && t.stream == s.stream
    ensures Idle(t, r) && t.readers[r].cursor.Numeric? && s.readers[r].cursor.id < t.readers[r].cursor.id <= LastOf(s.stream, 0)
  {
    hide OwnPending, IsRun, OwnStep, Placed;
    var fetched := Do(s, FetchPending(r));
    var handled;
    run, handled := HandleAll(fetched, r);
    t := Do(handled, Finish(r));
    FinishRun(handled, r);
    assert OwnSteps([Finish(r)], r) && OwnStep(FetchPending(r), r) by { OwnNames(r); }
    RunsJoin(fetched, run, handled, [Finish(r)], t);
    OwnJoin(run, [Finish(r)], r);
    OwnFirst(FetchPending(r), run + [Finish(r)], r);
    NextBounds(s, r);
    run := Extended(s, FetchPending(r), fetched, run + [Finish(r)], t);
  }

  lemma OwnNames(r: ReaderId)
    ensures OwnSteps([Finish(r)], r) && OwnSteps([FetchNothing(r)], r) && OwnStep(FetchPending(r), r)
  {
  }

  lemma FinishRun(s: State, r: ReaderId)
    requires Enabled(s, Finish(r))
    ensures IsRun(s, [Finish(r)], Do(s, Finish(r)))
  {
    assert [Finish(r)][1..] == [];
  }

  lemma NextBounds(s: State, r: ReaderId)
    requires Placed(s) && r in s.readers && s.readers[r].cursor.Numeric? && NextPending(s, r) != []
    ensures s.readers[r].cursor.id < LastOf(NextPending(s, r), 0) <= LastOf(s.stream, 0)
  {
    var ids := NextPending(s, r);
    OwnPendingProperties(s.stream, s.pending, s.readers[r].consumer, s.readers[r].cursor.id);
    LastIsGreatest(ids, 0);
    LastIsGreatest(s.stream, 0);
  }

  /** A reader with a numeric cursor can go on by itself until it changes over to new entries. */
  lemma {:induction false} DrainAll(s: State, r: ReaderId) returns (run: seq<Action>, t: State)
    requires Invariant(s) && Idle(s, r) && s.readers[r].cursor.Numeric?
    ensures IsRun(s, run, t) && OwnSteps(run, r) && Fail(r) !in run
    ensures Idle(t, r) && t.readers[r].cursor == New
    decreases LastOf(s.stream, 0) - s.readers[r].cursor.id
  {
    hide Invariant, IsRun, OwnStep, OwnPending;
    InvariantPlaced(s);
    if NextPending(s, r) == [] {
      t := Do(s, FetchNothing(r));
      OwnNames(r);
      EmptyRun(t);
      run := Extended(s, FetchNothing(r), t, [], t);
    } else {
      var first, next := DrainOne(s, r);
      RunKeepsInvariant(s, first, next);
      run, t := DrainAll(next, r);
      RunsJoin(s, first, next, run, t);
      OwnJoin(first, run, r);
      run := first + run;
    }
  }

  /** A reader that starts can do so, whatever happened before. */
  lemma RestartCanDrain(before: seq<Action>, s: State, r: ReaderId, c: Consumer, claimed: set<nat>)
    requires IsRun(INITIAL, before, s) && Enabled(s, StartReader(r, c, claimed))
    ensures exists own, u :: IsRun(Do(s, StartReader(r, c, claimed)), own, u) && OwnSteps(own, r) && Fail(r) !in own
              && Idle(u, r) && u.readers[r].cursor == New
  {
    hide Do, IsRun, OwnSteps, Invariant;
    InitialInvariant();
    RunKeepsInvariant(INITIAL, before, s);
    StartGiven(s, r, c, claimed);
    var own, u := DrainAll(Do(s, StartReader(r, c, claimed)), r);
  }

  // ---- when readers work on the same entry ----

  /** By steps of its own, while all others stand still, the reader can be given the entry. */
  ghost predicate CanBeGiven(t: State, r: ReaderId, id: nat) {
    exists own, u :: IsRun(t, own, u) && OwnSteps(own, r) && OthersStay(t, u, r) && r in u.readers && id in u.readers[r].taken
  }

  /**
   A reader that starts while another one works on an entry: it can be given that entry as well
   exactly if the entry is pending for its consumer once it has claimed entries of others.
   */
  lemma SharedEntryIff(before: seq<Action>, s: State, r: ReaderId, c: Consumer, claimed: set<nat>, q: ReaderId, id: nat)
    requires IsRun(INITIAL, before, s) && Enabled(s, StartReader(r, c, claimed))
    requires q in s.readers && id in s.readers[q].batch
    ensures var t := Do(s, StartReader(r, c, claimed));
            && q in t.readers && id in t.readers[q].batch
            && (CanBeGiven(t, r, id) <==> id in claimed || PendingFor(s.pending, c, id))
  {
    hide IsRun, OwnSteps, ReaderInvariant, SharedKnown, Placed, GivenPending, OthersStay;
    InitialInvariant();
    RunKeepsInvariant(INITIAL, before, s);
    StartGiven(s, r, c, claimed);
    var t := Do(s, StartReader(r, c, claimed));
    assert id <= t.last;
    if PendingFor(t.pending, c, id) {
      RestartCanDrain(before, s, r, c, claimed);
      var own, u :| IsRun(t, own, u) && OwnSteps(own, r) && Fail(r) !in own && Idle(u, r) && u.readers[r].cursor == New;
      OwnRestartDrains(before, s, r, c, claimed, own, u);
      OwnRunGiven(t, t, own, u, r, c);
      assert CanBeGiven(t, r, id);
    }
    if CanBeGiven(t, r, id) { GivenWasPending(t, r, c, id); }
  }

  lemma GivenWasPending(t: State, r: ReaderId, c: Consumer, id: nat)
    requires Invariant(t) && GivenPending(t, t, r, c) && CanBeGiven(t, r, id) && id <= t.last
    ensures PendingFor(t.pending, c, id)
  {
    hide Invariant, IsRun, OwnSteps, OthersStay;
    var own, u :| IsRun(t, own, u) && OwnSteps(own, r) && r in u.readers && id in u.readers[r].taken;
    OwnRunGiven(t, t, own, u, r, c);
  }

  /** A start takes a consumer that nobody reads as, and claims nothing that somebody works on. */
  ghost predicate Considerate(s: State, a: Action) {
    a.StartReader? ==>
      !Taken(s.readers, a.c) && forall q: ReaderId, id: nat | q in s.readers && id in s.readers[q].batch :: id !in a.claimed
  }

  ghost predicate IsConsiderateRun(s: State, run: seq<Action>, t: State)
    decreases |run|
  {
    if run == [] then s == t
    else Enabled(s, run[0]) && Considerate(s, run[0]) && IsConsiderateRun(Do(s, run[0]), run[1..], t)
  }

  /** No two readers have the same consumer, or work on the same entry; what one works on is not pending for others. */
  ghost predicate Apart(s: State) {
    && (forall q: ReaderId, r: ReaderId | q in s.readers && r in s.readers && q != r :: s.readers[q].consumer != s.readers[r].consumer)
    && (forall r: ReaderId, id: nat | r in s.readers && id in s.readers[r].batch && id in s.pending :: s.pending[id] == s.readers[r].consumer)
    && (forall q: ReaderId, r: ReaderId, id: nat | q in s.readers && r in s.readers && q != r && id in s.readers[q].batch ::
          id !in s.readers[r].batch)
  }

  lemma FetchPendingApart(s: State, r: ReaderId)
    requires Placed(s) && Apart(s) && Enabled(s, FetchPending(r))
    ensures Apart(Do(s, FetchPending(r)))
  {
    hide OwnPending, Placed;
    OwnPendingOnly(s, r);
  }

  lemma FetchNewApart(s: State, r: ReaderId)
    requires Placed(s) && Delivered(s) && Apart(s) && Enabled(s, FetchNew(r))
    ensures Apart(Do(s, FetchNew(r)))
  {
    hide Undelivered, Placed;
    NewOnly(s);
    forall q: ReaderId, id: nat | q in s.readers && id in s.readers[q].batch ensures id <= s.last { BatchDelivered(s, q, id); }
  }

  lemma BatchDelivered(s: State, q: ReaderId, id: nat)
    requires Delivered(s) && q in s.readers && id in s.readers[q].batch
    ensures id <= s.last
  {
  }

  lemma StepApart(s: State, a: Action)
    requires Invariant(s) && Apart(s) && Enabled(s, a) && Considerate(s, a)
    ensures Apart(Do(s, a))
  {
    hide OwnPending, Undelivered, Placed, ReaderInvariant, SharedKnown, Delivered;
    match a
    case FetchPending(r) => FetchPendingApart(s, r);
    case FetchNew(r) => FetchNewApart(s, r);
    case Handle(r) => HandleApart(s, r);
    case StartReader(_, _, _) => StartApart(s, a);
    case _ =>
  }

  lemma StartApart(s: State, a: Action)
    requires Apart(s) && a.StartReader? && Enabled(s, a) && Considerate(s, a)
    ensures Apart(Do(s, a))
  {
  }

  lemma HandleApart(s: State, r: ReaderId)
    requires Apart(s) && Enabled(s, Handle(r))
    ensures Apart(Do(s, Handle(r)))
  {
    var batch := s.readers[r].batch;
    assert batch == [batch[0]] + batch[1..];
  }

  lemma {:induction false} RunApart(s: State, run: seq<Action>, t: State)
    requires Invariant(s) && Apart(s) && IsConsiderateRun(s, run, t)
    ensures Invariant(t) && Apart(t)
    decreases |run|
  {
    hide Invariant, Apart, Enabled, Do, Considerate;
    if run != [] {
      StepKeepsInvariant(s, run[0]);
      StepApart(s, run[0]);
      RunApart(Do(s, run[0]), run[1..], t);
    }
  }

  /**
   If no reader starts with a consumer that is in use, or claims an entry that somebody works on,
   then in every run no entry is worked on by two readers.
   */
  lemma ReadersApart(run: seq<Action>, s: State, q: ReaderId, r: ReaderId, id: nat)
    requires IsConsiderateRun(INITIAL, run, s) && q in s.readers && r in s.readers && q != r && id in s.readers[q].batch
    ensures id !in s.readers[r].batch
  {
    hide Invariant, IsConsiderateRun;
    InitialInvariant();
    RunApart(INITIAL, run, s);
  }

  // ---- runs, step by step ----

  lemma Extended(s: State, a: Action, t: State, rest: seq<Action>, end: State) returns (run: seq<Action>)
    requires Enabled(s, a) && Do(s, a) == t && IsRun(t, rest, end)
    ensures IsRun(s, run, end) && run == [a] + rest
  {
    run := [a] + rest;
    assert run[1..] == rest;
  }

  lemma OneEntry(pending: map<nat, Consumer>)
    requires PendingFor(pending, 1, 1)
    ensures Undelivered([1], 0) == [1] && OwnPending([1], pending, 1, 0) == [1]
    ensures OwnPending([1], map[], 1, 0) == []
  {
    var stream: seq<nat> := [1];
    assert stream[1..] == [];
    assert Matching(stream[1..], pending, 1, 0) == [] && Newer(stream[1..], 0) == [];
    assert Matching(stream, pending, 1, 0) == [1] && Newer(stream, 0) == [1];
  }

  lemma AllPending()
    ensures Deliver(map[], 1, {}) == map[] && Deliver(map[], 1, Members([1])) == map[1 := 1]
    ensures Deliver(map[1 := 1], 1, {}) == map[1 := 1]
  {
  }

  const STARTED := Reader(1, Numeric(0), false, [], 0, [], false, false)
  const TAKENNEW := State([1], 1, map[1 := 1], {}, map[1 := Reader(1, New, true, [1], 0, [1], false, false)])
  const TAKENAGAIN := TAKENNEW.(readers := map[1 := STARTED.(reading := true, batch := [1], taken := [1, 1], failed := true)])

  lemma FirstLife(rest: seq<Action>, end: State) returns (run: seq<Action>)
    requires IsRun(TAKENNEW, rest, end)
    ensures IsRun(INITIAL, run, end)
  {
    hide IsRun, OwnPending, Undelivered, Deliver;
    OneEntry(map[1 := 1]);
    AllPending();
    var s0 := State([1], 0, map[], {}, map[]);
    var s1 := s0.(readers := map[1 := STARTED]);
    var s2 := s0.(readers := map[1 := STARTED.(cursor := New)]);
    var one, none: seq<nat> := [1], [];
    assert none + one == [1];
    run := Extended(s2, FetchNew(1), TAKENNEW, rest, end);
    run := Extended(s1, FetchNothing(1), s2, run, end);
    run := Extended(s0, StartReader(1, 1, {}), s1, run, end);
    run := Extended(INITIAL, Publish(1), s0, run, end);
  }

  lemma SecondLife() returns (run: seq<Action>)
    ensures IsRun(TAKENNEW, run, TAKENAGAIN)
  {
    hide IsRun, OwnPending, Undelivered, Deliver;
    OneEntry(map[1 := 1]);
    AllPending();
    var s4 := TAKENNEW.(readers := map[]);
    var s5 := TAKENNEW.(readers := map[1 := STARTED]);
    var s6 := TAKENNEW.(readers := map[1 := STARTED.(reading := true, batch := [1], taken := [1])]);
    var s7 := TAKENNEW.(readers := map[1 := STARTED.(taken := [1], failed := true)]);
    var one, none: seq<nat> := [1], [];
    assert none + one == [1] && one + one == [1, 1];
    EmptyRun(TAKENAGAIN);
    run := Extended(s7, FetchPending(1), TAKENAGAIN, [], TAKENAGAIN);
    run := Extended(s6, Fail(1), s7, run, TAKENAGAIN);
    run := Extended(s5, FetchPending(1), s6, run, TAKENAGAIN);
    run := Extended(s4, StartReader(1, 1, {}), s5, run, TAKENAGAIN);
    run := Extended(TAKENNEW, Crash(1), s4, run, TAKENAGAIN);
  }

  /** After a failed batch of pending entries the same entries are taken again. */
  lemma TakenTwiceAfterFailure()
    ensures exists run, s :: IsRun(INITIAL, run, s) && 1 in s.readers && s.readers[1].taken == [1, 1]
  {
    hide IsRun;
    var run := SecondLife();
    run := FirstLife(run, TAKENAGAIN);
  }

  // ---- what goes wrong, in runs ----

  const FAILEDNEW := State([1], 1, map[1 := 1], {}, map[1 := Reader(1, New, false, [], 0, [1], false, false)])
  const LEFTBEHIND := State([1, 2], 2, map[1 := 1], {2}, map[1 := Reader(1, Numeric(2), false, [], 2, [1, 2], false, false)])

  lemma SecondEntry()
    ensures Undelivered([1, 2], 1) == [2]
  {
    var stream: seq<nat> := [1, 2];
    assert stream[1..] == [2] && stream[1..][1..] == [];
    assert Newer(stream[1..][1..], 1) == [] && Newer(stream[1..], 1) == [2];
  }

  lemma GoesOn() returns (run: seq<Action>)
    ensures IsRun(FAILEDNEW, run, LEFTBEHIND)
  {
    hide IsRun, OwnPending, Undelivered, Deliver;
    SecondEntry();
    var one, two, none: seq<nat> := [1], [2], [];
    var reader := FAILEDNEW.readers[1];
    assert one + two == [1, 2] && two[1..] == none;
    assert Deliver(map[1 := 1], 1, Members(two)) == map[1 := 1, 2 := 1] by { AlsoPending(); }
    assert map[1 := 1, 2 := 1] - {2} == map[1 := 1];
    var s1 := FAILEDNEW.(stream := [1, 2]);
    var s2 := State([1, 2], 2, map[1 := 1, 2 := 1], {}, map[1 := reader.(reading := true, batch := [2], taken := [1, 2])]);
    var s3 := s2.(readers := map[1 := reader.(reading := true, batch := [], seen := 2, taken := [1, 2])]);
    var s4 := s3.(pending := map[1 := 1], acked := {2});
    EmptyRun(LEFTBEHIND);
    run := Extended(s4, Finish(1), LEFTBEHIND, [], LEFTBEHIND);
    run := Extended(s3, Acknowledge(2), s4, run, LEFTBEHIND);
    run := Extended(s2, Handle(1), s3, run, LEFTBEHIND);
    run := Extended(s1, FetchNew(1), s2, run, LEFTBEHIND);
    run := Extended(FAILEDNEW, Publish(2), s1, run, LEFTBEHIND);
  }

  lemma AlsoPending()
    ensures Deliver(map[1 := 1], 1, Members([2])) == map[1 := 1, 2 := 1]
  {
  }

  /** An entry is left behind: it was never handled, it is pending, and the reader is past it. */
  lemma NewBatchFails()
    ensures exists run, s :: IsRun(INITIAL, run, s) && s.pending == map[1 := 1] && s.acked == {2} && Passed(s, 1, 1)
  {
    hide IsRun;
    var run := GoesOn();
    run := Extended(TAKENNEW, Fail(1), FAILEDNEW, run, LEFTBEHIND);
    run := FirstLife(run, LEFTBEHIND);
  }

  /** A second reader of the same consumer is given what the first one is still working on. */
  lemma TwoReadersTakeTheSame()
    ensures exists run, s :: IsRun(INITIAL, run, s) && s.readers.Keys == {1, 2}
              && s.readers[1].batch == [1] && s.readers[2].batch == [1] && !s.readers[1].failed && !s.readers[2].failed
  {
    hide IsRun, OwnPending, Undelivered, Deliver;
    OneEntry(map[1 := 1]);
    AllPending();
    var one, none: seq<nat> := [1], [];
    assert none + one == [1];
    var first := TAKENNEW.readers[1].(shared := true);
    var second := STARTED.(shared := true);
    var s1 := TAKENNEW.(readers := map[1 := first, 2 := second]);
    var end := TAKENNEW.(readers := map[1 := first, 2 := second.(reading := true, batch := [1], taken := [1])]);
    assert Joined(TAKENNEW.readers, 1)[2 := second] == map[1 := first, 2 := second];
    EmptyRun(end);
    var run := Extended(s1, FetchPending(2), end, [], end);
    run := Extended(TAKENNEW, StartReader(2, 1, {}), s1, run, end);
    run := FirstLife(run, end);
  }

  const SHARING := STARTED.(shared := true)
  const CHANGED := SHARING.(cursor := New)
  const BOTHCHANGED := State([], 0, map[], {}, map[1 := CHANGED, 2 := CHANGED])
  const MISSED := State([1, 2], 1, map[1 := 1], {}, map[1 := CHANGED.(reading := true, batch := [1], taken := [1]), 2 := CHANGED])

  /** Two readers of one consumer change over to new entries. */
  lemma BothChange(rest: seq<Action>, end: State) returns (run: seq<Action>)
    requires IsRun(BOTHCHANGED, rest, end)
    ensures IsRun(INITIAL, run, end)
  {
    hide IsRun, OwnPending, Undelivered, Deliver;
    NothingPending();
    AllPending();
    var s1 := INITIAL.(readers := map[1 := STARTED]);
    var s2 := INITIAL.(readers := map[1 := SHARING, 2 := SHARING]);
    var s3 := INITIAL.(readers := map[1 := CHANGED, 2 := SHARING]);
    assert Joined(s1.readers, 1)[2 := SHARING] == s2.readers;
    run := Extended(s3, FetchNothing(2), BOTHCHANGED, rest, end);
    run := Extended(s2, FetchNothing(1), s3, run, end);
    run := Extended(s1, StartReader(2, 1, {}), s2, run, end);
    run := Extended(INITIAL, StartReader(1, 1, {}), s1, run, end);
  }

  /** A reader that shares its consumer takes new entries although it was not given one that is pending for it. */
  lemma SharedReaderMisses()
    ensures exists run, s :: IsRun(INITIAL, run, s) && Enabled(s, FetchNew(2))
              && PendingFor(s.pending, s.readers[2].consumer, 1) && s.readers[2].taken == []
  {
    hide IsRun, OwnPending, Undelivered, Deliver;
    OneEntry(map[1 := 1]);
    AllPending();
    SecondEntry();
    var one, none: seq<nat> := [1], [];
    assert none + one == [1] && one + [2] == [1, 2];
    var s1 := BOTHCHANGED.(stream := [1]);
    var s2 := MISSED.(stream := [1]);
    EmptyRun(MISSED);
    var run := Extended(s2, Publish(2), MISSED, [], MISSED);
    run := Extended(s1, FetchNew(1), s2, run, MISSED);
    run := Extended(BOTHCHANGED, Publish(1), s1, run, MISSED);
    run := BothChange(run, MISSED);
  }

  lemma NothingPending()
    ensures OwnPending([], map[], 1, 0) == []
  {
  }

  lemma EmptyRun(s: State)
    ensures IsRun(s, [], s)
  {
  }
}
