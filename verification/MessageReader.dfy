/**
 A plain messagebus reader: the channels it is asked to read, the stream positions it keeps for
 them, and the number of readers that redis counts for every channel.
 */
module MessageReader {
  import opened Wrappers
  import opened Dicts

  /** The id given for a channel: ">", "$", a number, or nothing. */
  datatype Start = Undelivered | OnlyNew | From(id: nat) | Missing

  type Channels = Dict<Start>

  /** The position in each stream that is read. */
  type Streams = Dict<nat>

  /** Where reading begins; `lastDelivered` is the id stored in redis, `now` that of the current time. */
  function Position(start: Start, lastDelivered: Option<nat>, now: nat): nat
    requires start != Missing
  {
    match start
    case Undelivered => if lastDelivered.Some? then lastDelivered.value else 0
    case OnlyNew => now
    case From(id) => id
  }

  function Stored(lastDelivered: map<string, nat>, channel: string): Option<nat> {
    if channel in lastDelivered then Some(lastDelivered[channel]) else None
  }

  /** The loop over the channels: streams that are new get a position, until a channel without id ends it. */
  function Opened(channels: Channels, streams: Streams, lastDelivered: map<string, nat>, now: nat): (Streams, bool)
    decreases |channels|
  {
    if channels == [] then (streams, true)
    else if Lookup(streams, channels[0].0).Some? then Opened(channels[1..], streams, lastDelivered, now)
    else if channels[0].1 == Missing then (streams, false)
    else
      var position := Position(channels[0].1, Stored(lastDelivered, channels[0].0), now);
      Opened(channels[1..], Put(streams, channels[0].0, position), lastDelivered, now)
  }

  predicate Has<V(==)>(d: Dict<V>, key: string) {
    Lookup(d, key).Some?
  }

  /** The streams of channels that are not read any more are dropped. */
  function Closed(streams: Streams, channels: Channels): Streams {
    if streams == [] then []
    else (if Has(channels, streams[0].0) then [streams[0]] else []) + Closed(streams[1..], channels)
  }

  function Updated(d: Channels, more: Channels): Channels
    decreases |more|
  {
    if more == [] then d else Updated(Put(d, more[0].0, more[0].1), more[1..])
  }

  function Removed(d: Channels, names: seq<string>): Channels
    decreases |names|
  {
    if names == [] then d else Removed(Delete(d, names[0]), names[1..])
  }

  function One(present: bool): int {
    if present then 1 else 0
  }

  // ---- the objects ----

  /** The hash that redis keeps for every channel. */
  class ChannelInfo {
    var readerCount: map<string, int>
    var lastDelivered: map<string, nat>

    constructor ()
      ensures readerCount == map[] && lastDelivered == map[]
    {
      readerCount, lastDelivered := map[], map[];
    }

    function Count(channel: string): int
      reads this
    {
      if channel in readerCount then readerCount[channel] else 0
    }

    /** HINCRBY */
    method Increase(channel: string, amount: int)
      modifies this`readerCount
      ensures forall c :: Count(c) == old(Count(c)) + (if c == channel then amount else 0)
    {
      readerCount := readerCount[channel := Count(channel) + amount];
    }
  }

  class MessageReader {
    const redis: ChannelInfo
    var channels: Channels
    var streams: Streams

    constructor (redis: ChannelInfo)
      ensures this.redis == redis && channels == [] && streams == []
    {
      this.redis := redis;
      channels, streams := [], [];
    }

    /** `_update_streams`; the reader count follows the streams on every exit. */
    method UpdateStreams(now: nat) returns (ok: bool)
      requires Distinct(streams)
      modifies this`streams, redis`readerCount
      ensures Distinct(streams)
      ensures ok == Opened(channels, old(streams), redis.lastDelivered, now).1
      ensures streams == (var open := Opened(channels, old(streams), redis.lastDelivered, now).0;
                          if ok then Closed(open, channels) else open)
      ensures ok <==> NoneBlocks(channels, old(streams))
      ensures ok ==> Follows(old(streams), streams, channels, redis.lastDelivered, now)
      ensures !ok ==> Stopped(old(streams), streams, channels, redis.lastDelivered, now)
      ensures forall c :: redis.Count(c) == old(redis.Count(c)) + One(Has(streams, c)) - One(Has(old(streams), c))
    {
      UpdateFollows(streams, channels, redis.lastDelivered, now);
      ok := OpenStreams(now);
      if ok {
        CloseStreams();
      }
    }

    method OpenStreams(now: nat) returns (ok: bool)
      requires Distinct(streams)
      modifies this`streams, redis`readerCount
      ensures Distinct(streams)
      ensures (streams, ok) == Opened(channels, old(streams), redis.lastDelivered, now)
      ensures forall c :: redis.Count(c) == old(redis.Count(c)) + One(Has(streams, c)) - One(Has(old(streams), c))
    {
      hide Distinct, Position;
      for k := 0 to |channels|
        invariant Distinct(streams) && channels == old(channels) && redis.lastDelivered == old(redis.lastDelivered)
        invariant Opened(channels[k..], streams, redis.lastDelivered, now) == Opened(channels, old(streams), redis.lastDelivered, now)
        invariant forall c :: redis.Count(c) == old(redis.Count(c)) + One(Has(streams, c)) - One(Has(old(streams), c))
      {
        var (channel, start) := channels[k];
        assert channels[k..][0] == (channel, start) && channels[k..][1..] == channels[k + 1..];
        if Lookup(streams, channel).Some? {
          continue;
        }
        if start == Missing {
          return false;
        }
        var position := Position(start, Stored(redis.lastDelivered, channel), now);
        redis.Increase(channel, 1);
        DistinctPut(streams, channel, position);
        forall c ensures Has(Put(streams, channel, position), c) <==> c == channel || Has(streams, c) {
          LookupPut(streams, channel, position, c);
        }
        streams := Put(streams, channel, position);
      }
      return true;
    }

    method CloseStreams()
      requires Distinct(streams)
      modifies this`streams, redis`readerCount
      ensures Distinct(streams) && streams == Closed(old(streams), channels)
      ensures forall c :: redis.Count(c) == old(redis.Count(c)) + One(Has(streams, c)) - One(Has(old(streams), c))
    {
      hide Distinct;
      var all := streams;
      ClosedProperties(all, channels);
      EmptyKeys();
      assert all[..0] == [];
      for k := 0 to |all|
        invariant Distinct(streams) && channels == old(channels)
        invariant forall c :: Lookup(streams, c) == if InFirst(all, k, c) && !Has(channels, c) then None else Lookup(all, c)
        invariant Closed(streams, channels) == Closed(all, channels)
        invariant forall c :: redis.Count(c) == old(redis.Count(c)) + One(Has(streams, c)) - One(Has(all, c))
      {
        var key := all[k].0;
        LookupKey(all, k);
        FirstNext(all, k);
        if !Has(channels, key) {
          redis.Increase(key, -1);
          DistinctDelete(streams, key);
          forall c ensures Lookup(Delete(streams, key), c) == if c == key then None else Lookup(streams, c) {
            LookupDelete(streams, key, c);
          }
          ClosedDelete(streams, key, channels);
          streams := Delete(streams, key);
        }
      }
      ClosedFixed(streams, channels, all);
    }

    method SetChannels(newChannels: Channels, now: nat) returns (ok: bool)
      requires Distinct(streams)
      modifies this, redis`readerCount
      ensures Distinct(streams) && channels == newChannels
      ensures ok <==> NoneBlocks(channels, old(streams))
      ensures ok ==> Follows(old(streams), streams, channels, redis.lastDelivered, now)
      ensures !ok ==> Stopped(old(streams), streams, channels, redis.lastDelivered, now)
      ensures forall c :: redis.Count(c) == old(redis.Count(c)) + One(Has(streams, c)) - One(Has(old(streams), c))
    {
      channels := newChannels;
      ok := UpdateStreams(now);
    }

    method AddChannels(more: Channels, now: nat) returns (ok: bool)
      requires Distinct(streams)
      modifies this, redis`readerCount
      ensures Distinct(streams) && channels == Updated(old(channels), more)
      ensures ok <==> NoneBlocks(channels, old(streams))
      ensures ok ==> Follows(old(streams), streams, channels, redis.lastDelivered, now)
      ensures !ok ==> Stopped(old(streams), streams, channels, redis.lastDelivered, now)
      ensures forall c :: redis.Count(c) == old(redis.Count(c)) + One(Has(streams, c)) - One(Has(old(streams), c))
    {
      channels := Updated(channels, more);
      ok := UpdateStreams(now);
    }

    method RemoveChannels(names: seq<string>, now: nat) returns (ok: bool)
      requires Distinct(streams)
      modifies this, redis`readerCount
      ensures Distinct(streams) && channels == Removed(old(channels), names)
      ensures ok <==> NoneBlocks(channels, old(streams))
      ensures ok ==> Follows(old(streams), streams, channels, redis.lastDelivered, now)
      ensures !ok ==> Stopped(old(streams), streams, channels, redis.lastDelivered, now)
      ensures forall c :: redis.Count(c) == old(redis.Count(c)) + One(Has(streams, c)) - One(Has(old(streams), c))
    {
      for k := 0 to |names|
        invariant streams == old(streams) && redis.readerCount == old(redis.readerCount) && redis.lastDelivered == old(redis.lastDelivered)
        invariant Removed(channels, names[k..]) == Removed(old(channels), names)
      {
        assert names[k..][0] == names[k] && names[k..][1..] == names[k + 1..];
        channels := Delete(channels, names[k]);
      }
      ok := UpdateStreams(now);
    }

    /** The end of `get_messages`: the reader stops counting for every stream it still has. */
    method FinishReading()
      requires Distinct(streams)
      modifies redis`readerCount
      ensures forall c :: redis.Count(c) == old(redis.Count(c)) - One(Has(streams, c))
    {
      hide Distinct;
      EmptyKeys();
      for k := 0 to |streams|
        invariant forall c :: redis.Count(c) == old(redis.Count(c)) - One(InFirst(streams, k, c))
      {
        FirstNext(streams, k);
        redis.Increase(streams[k].0, -1);
      }
      AllKeys(streams);
    }

    method AckMessage(channel: string, id: nat) returns (ok: bool)
      modifies redis`lastDelivered
      ensures ok <==> Has(streams, channel)
      ensures redis.lastDelivered == if ok then old(redis.lastDelivered)[channel := id] else old(redis.lastDelivered)
    {
      if Lookup(streams, channel) == None {
        return false;
      }
      redis.lastDelivered := redis.lastDelivered[channel := id];
      return true;
    }
  }

  // ---- keys ----

  predicate InFirst<V>(d: Dict<V>, k: nat, c: string)
    requires k <= |d|
  {
    exists i | 0 <= i < k :: d[i].0 == c
  }

  lemma EmptyKeys()
    ensures forall c :: !Has<nat>([], c)
  {
  }

  lemma FirstNext(d: Streams, k: nat)
    requires Distinct(d) && k < |d|
    ensures forall c :: InFirst(d, k + 1, c) <==> InFirst(d, k, c) || c == d[k].0
    ensures !InFirst(d, k, d[k].0)
  {
    forall c ensures InFirst(d, k + 1, c) <==> InFirst(d, k, c) || c == d[k].0 {
      if c == d[k].0 { assert d[k].0 == c; }
    }
  }

  lemma LookupKey(d: Streams, k: nat)
    requires Distinct(d) && k < |d|
    ensures Has(d, d[k].0)
  {
    LookupMember(d, k);
  }

  lemma AllKeys(d: Streams)
    ensures forall c :: InFirst(d, |d|, c) <==> Has(d, c)
  {
    forall c ensures InFirst(d, |d|, c) <==> Has(d, c) { LookupAbsent(d, c); }
  }

  // ---- what an update does to the streams ----

  /** The streams are those of the channels: known ones keep their position, new ones begin where they should. */
  ghost predicate Follows(before: Streams, after: Streams, channels: Channels, lastDelivered: map<string, nat>, now: nat) {
    forall c ::
      && (Has(after, c) <==> Has(channels, c))
      && (Has(channels, c) && Has(before, c) ==> Lookup(after, c) == Lookup(before, c))
      && (Has(channels, c) && !Has(before, c) ==> exists start :: BeginsAt(after, channels, lastDelivered, now, c, start))
  }

  /**
   The new stream begins where one of the entries for the channel asks for: ">" behind the stored
   id, or before the first entry if none is stored, "$" at the current time, and a number at itself.
   */
  ghost predicate BeginsAt(after: Streams, channels: Channels, lastDelivered: map<string, nat>, now: nat, c: string, start: Start) {
    && start != Missing && Asked(channels, c, start) && Lookup(after, c).Some?
    && var position := Lookup(after, c).value;
       && (start == Undelivered && c in lastDelivered ==> position == lastDelivered[c])
       && (start == Undelivered && c !in lastDelivered ==> position == 0)
       && (start == OnlyNew ==> position == now)
       && (start.From? ==> position == start.id)
  }

  /** This channel has no id, and is not read and not opened before. */
  predicate Blocks(channels: Channels, before: Streams, k: nat)
    requires k < |channels|
  {
    channels[k].1 == Missing && !Has(before, channels[k].0) && !InFirst(channels, k, channels[k].0)
  }

  ghost predicate NoneBlocks(channels: Channels, before: Streams) {
    forall k: nat | k < |channels| :: !Blocks(channels, before, k)
  }

  /** The first channel without id ended the update: the channels before it were opened, and nothing was closed. */
  ghost predicate Stopped(before: Streams, after: Streams, channels: Channels, lastDelivered: map<string, nat>, now: nat) {
    exists k: nat | k < |channels| :: StoppedAt(before, after, channels, lastDelivered, now, k)
  }

  ghost predicate StoppedAt(before: Streams, after: Streams, channels: Channels, lastDelivered: map<string, nat>, now: nat, k: nat)
    requires k < |channels|
  {
    && Blocks(channels, before, k) && (forall j: nat | j < k :: !Blocks(channels, before, j))
    && forall c ::
         && (Has(after, c) <==> Has(before, c) || Has(channels[..k], c))
         && (Has(before, c) ==> Lookup(after, c) == Lookup(before, c))
         && (Has(channels[..k], c) && !Has(before, c) ==> exists start :: BeginsAt(after, channels[..k], lastDelivered, now, c, start))
  }

  lemma BlocksLater(channels: Channels, streams: Streams, position: nat, k: nat)
    requires channels != [] && k < |channels| - 1
    ensures var next: Streams := if Has(streams, channels[0].0) then streams else Put(streams, channels[0].0, position);
            Blocks(channels[1..], next, k) <==> Blocks(channels, streams, k + 1)
  {
    var name := channels[k + 1].0;
    LookupPut(streams, channels[0].0, position, name);
    if InFirst(channels, k + 1, name) && channels[0].0 != name {
      var i :| 0 <= i < k + 1 && channels[i].0 == name;
      assert channels[1..][i - 1].0 == name;
    }
    if InFirst(channels[1..], k, name) {
      var i :| 0 <= i < k && channels[1..][i].0 == name;
      assert channels[i + 1].0 == name;
    }
    if channels[0].0 == name { assert InFirst(channels, k + 1, name) by { assert channels[0].0 == name; } }
  }

  /** Opening goes through exactly if no channel blocks; otherwise it is that of the channels before the first one that does. */
  lemma {:induction false} OpenedUntil(channels: Channels, streams: Streams, lastDelivered: map<string, nat>, now: nat) returns (k: nat)
    ensures var (after, ok) := Opened(channels, streams, lastDelivered, now);
            && k <= |channels| && (ok <==> k == |channels|)
            && (k < |channels| ==> Blocks(channels, streams, k)) && (forall j: nat | j < k :: !Blocks(channels, streams, j))
            && Opened(channels[..k], streams, lastDelivered, now) == (after, true)
    decreases |channels|
  {
    hide Position, Blocks, Lookup;
    if channels == [] {
      k := 0;
      assert channels[..0] == channels;
    } else {
      FirstBlocks(channels, streams);
      if !Has(streams, channels[0].0) && channels[0].1 == Missing {
        k := 0;
        assert channels[..0] == [];
      } else {
        var position: nat := if channels[0].1 == Missing then 0 else Position(channels[0].1, Stored(lastDelivered, channels[0].0), now);
        var next: Streams := if Has(streams, channels[0].0) then streams else Put(streams, channels[0].0, position);
        var n := OpenedUntil(channels[1..], next, lastDelivered, now);
        k := n + 1;
        assert channels[..k][1..] == channels[1..][..n] && channels[..k][0] == channels[0];
        OpenedStep(channels, streams, lastDelivered, now, position);
        OpenedStep(channels[..k], streams, lastDelivered, now, position);
        if k < |channels| { BlocksLater(channels, streams, position, n); }
        forall j: nat | j < k ensures !Blocks(channels, streams, j) {
          if j > 0 { BlocksLater(channels, streams, position, j - 1); }
        }
      }
    }
  }

  lemma FirstBlocks(channels: Channels, streams: Streams)
    requires channels != []
    ensures Blocks(channels, streams, 0) <==> !Has(streams, channels[0].0) && channels[0].1 == Missing
  {
  }

  lemma OpenedStep(channels: Channels, streams: Streams, lastDelivered: map<string, nat>, now: nat, position: nat)
    requires channels != [] && (Has(streams, channels[0].0) || channels[0].1 != Missing)
    requires channels[0].1 != Missing ==> position == Position(channels[0].1, Stored(lastDelivered, channels[0].0), now)
    ensures Opened(channels, streams, lastDelivered, now) ==
              Opened(channels[1..], if Has(streams, channels[0].0) then streams else Put(streams, channels[0].0, position), lastDelivered, now)
  {
  }

  lemma BeginsAtPosition(after: Streams, channels: Channels, lastDelivered: map<string, nat>, now: nat, c: string, start: Start)
    requires start != Missing && Asked(channels, c, start)
    requires Lookup(after, c) == Some(Position(start, Stored(lastDelivered, c), now))
    ensures BeginsAt(after, channels, lastDelivered, now, c, start)
  {
  }

  lemma BeginsElsewhere(after: Streams, channels: Channels, other: Streams, more: Channels, lastDelivered: map<string, nat>, now: nat,
      c: string, start: Start)
    requires BeginsAt(after, channels, lastDelivered, now, c, start) && Asked(more, c, start) && Lookup(other, c) == Lookup(after, c)
    ensures BeginsAt(other, more, lastDelivered, now, c, start)
  {
  }

  ghost predicate Asked(channels: Channels, c: string, start: Start) {
    exists i | 0 <= i < |channels| :: channels[i] == (c, start)
  }

  lemma BeginsAsked(after: Streams, channels: Channels, lastDelivered: map<string, nat>, now: nat, c: string, start: Start)
    requires BeginsAt(after, channels, lastDelivered, now, c, start)
    ensures Asked(channels, c, start)
  {
  }

  lemma {:induction false} OpenedLookup(channels: Channels, streams: Streams, lastDelivered: map<string, nat>, now: nat, c: string)
    requires Opened(channels, streams, lastDelivered, now).1
    ensures var after := Opened(channels, streams, lastDelivered, now).0;
            && (Has(after, c) <==> Has(streams, c) || Has(channels, c))
            && (Has(streams, c) ==> Lookup(after, c) == Lookup(streams, c))
            && (!Has(streams, c) && Has(channels, c) ==> exists start :: BeginsAt(after, channels, lastDelivered, now, c, start))
    decreases |channels|
  {
    hide Position, BeginsAt;
    if channels != [] {
      var after := Opened(channels, streams, lastDelivered, now).0;
      var (name, first) := channels[0];
      var next := if Has(streams, name) then streams else Put(streams, name, Position(first, Stored(lastDelivered, name), now));
      if !Has(streams, name) { LookupPut(streams, name, Position(first, Stored(lastDelivered, name), now), c); }
      OpenedLookup(channels[1..], next, lastDelivered, now, c);
      if !Has(streams, c) && Has(channels, c) {
        if c == name {
          assert channels[0] == (c, first);
          BeginsAtPosition(after, channels, lastDelivered, now, c, first);
        } else {
          var start :| BeginsAt(after, channels[1..], lastDelivered, now, c, start);
          BeginsAsked(after, channels[1..], lastDelivered, now, c, start);
          assert Asked(channels[1..], c, start);
          var i :| 0 <= i < |channels[1..]| && channels[1..][i] == (c, start);
          assert channels[i + 1] == (c, start);
          BeginsElsewhere(after, channels[1..], after, channels, lastDelivered, now, c, start);
        }
      }
    }
  }

  lemma {:induction false} ClosedLookup(streams: Streams, channels: Channels, c: string)
    ensures Lookup(Closed(streams, channels), c) == if Has(channels, c) then Lookup(streams, c) else None
  {
    if streams != [] {
      var more := Closed(streams[1..], channels);
      ClosedLookup(streams[1..], channels, c);
      assert ([streams[0]] + more)[1..] == more && [] + more == more;
    }
  }

  lemma {:induction false} ClosedMembers(streams: Streams, channels: Channels, i: nat)
    requires i < |Closed(streams, channels)|
    ensures Closed(streams, channels)[i] in streams
  {
    assert streams == [streams[0]] + streams[1..];
    if Has(channels, streams[0].0) {
      if i > 0 { ClosedMembers(streams[1..], channels, i - 1); }
    } else {
      ClosedMembers(streams[1..], channels, i);
    }
  }

  lemma {:induction false} ClosedProperties(streams: Streams, channels: Channels)
    requires Distinct(streams)
    ensures Distinct(Closed(streams, channels))
  {
    if streams != [] {
      var more := Closed(streams[1..], channels);
      ClosedProperties(streams[1..], channels);
      forall i | 0 <= i < |more| ensures more[i].0 != streams[0].0 {
        ClosedMembers(streams[1..], channels, i);
        var j :| 0 <= j < |streams[1..]| && streams[1..][j] == more[i];
        assert streams[j + 1] == more[i];
      }
    }
  }

  lemma {:induction false} ClosedDelete(streams: Streams, key: string, channels: Channels)
    requires !Has(channels, key)
    ensures Closed(Delete(streams, key), channels) == Closed(streams, channels)
  {
    if streams != [] {
      assert [] + Closed(streams[1..], channels) == Closed(streams[1..], channels);
      if streams[0].0 != key {
        ClosedDelete(streams[1..], key, channels);
        assert Delete(streams, key)[1..] == Delete(streams[1..], key);
      }
    }
  }

  lemma {:induction false} ClosedSame(streams: Streams, channels: Channels)
    requires forall i | 0 <= i < |streams| :: Has(channels, streams[i].0)
    ensures Closed(streams, channels) == streams
  {
    if streams != [] {
      ClosedSame(streams[1..], channels);
      assert streams == [streams[0]] + streams[1..];
    }
  }

  /** When only streams of channels are left, nothing more is dropped. */
  lemma ClosedFixed(streams: Streams, channels: Channels, all: Streams)
    requires Closed(streams, channels) == Closed(all, channels)
    requires forall c :: Lookup(streams, c) == if InFirst(all, |all|, c) && !Has(channels, c) then None else Lookup(all, c)
    ensures streams == Closed(all, channels)
  {
    AllKeys(all);
    forall i | 0 <= i < |streams| ensures Has(channels, streams[i].0) {
      LookupAbsent(streams, streams[i].0);
    }
    ClosedSame(streams, channels);
  }

  lemma UpdateStops(streams: Streams, channels: Channels, lastDelivered: map<string, nat>, now: nat)
    ensures Opened(channels, streams, lastDelivered, now).1 <==> NoneBlocks(channels, streams)
    ensures !Opened(channels, streams, lastDelivered, now).1 ==>
              Stopped(streams, Opened(channels, streams, lastDelivered, now).0, channels, lastDelivered, now)
  {
    hide Opened, Blocks, Has, BeginsAt;
    var k := OpenedUntil(channels, streams, lastDelivered, now);
    if k < |channels| {
      var after := Opened(channels, streams, lastDelivered, now).0;
      forall c
        ensures Has(after, c) <==> Has(streams, c) || Has(channels[..k], c)
        ensures Has(streams, c) ==> Lookup(after, c) == Lookup(streams, c)
        ensures Has(channels[..k], c) && !Has(streams, c) ==> exists start :: BeginsAt(after, channels[..k], lastDelivered, now, c, start)
      {
        OpenedLookup(channels[..k], streams, lastDelivered, now, c);
      }
      assert StoppedAt(streams, after, channels, lastDelivered, now, k);
    }
  }

  /**
   What an update does to the streams, on both of its exits: it goes through exactly if no channel
   blocks it, and then the streams are those of the channels.
   */
  lemma UpdateFollows(streams: Streams, channels: Channels, lastDelivered: map<string, nat>, now: nat)
    ensures Opened(channels, streams, lastDelivered, now).1 <==> NoneBlocks(channels, streams)
    ensures !Opened(channels, streams, lastDelivered, now).1 ==>
              Stopped(streams, Opened(channels, streams, lastDelivered, now).0, channels, lastDelivered, now)
    ensures Opened(channels, streams, lastDelivered, now).1 ==>
              Follows(streams, Closed(Opened(channels, streams, lastDelivered, now).0, channels), channels, lastDelivered, now)
  {
    hide Asked, Position, BeginsAt, Stopped, NoneBlocks;
    UpdateStops(streams, channels, lastDelivered, now);
    if Opened(channels, streams, lastDelivered, now).1 {
      var open := Opened(channels, streams, lastDelivered, now).0;
      var after := Closed(open, channels);
      forall c
        ensures Lookup(after, c) == (if Has(channels, c) then Lookup(open, c) else None)
        ensures Has(open, c) <==> Has(streams, c) || Has(channels, c)
        ensures Has(streams, c) ==> Lookup(open, c) == Lookup(streams, c)
        ensures !Has(streams, c) && Has(channels, c) ==> exists start :: BeginsAt(after, channels, lastDelivered, now, c, start)
      {
        ClosedLookup(open, channels, c);
        OpenedLookup(channels, streams, lastDelivered, now, c);
        if !Has(streams, c) && Has(channels, c) {
          var start :| BeginsAt(open, channels, lastDelivered, now, c, start);
          BeginsAsked(open, channels, lastDelivered, now, c, start);
          BeginsElsewhere(open, channels, after, channels, lastDelivered, now, c, start);
        }
      }
    }
  }

  /** Adding channels: the last entry for a channel counts, and others stay. */
  lemma {:induction false} UpdatedChannels(d: Channels, more: Channels, c: string)
    requires Distinct(more)
    ensures Lookup(Updated(d, more), c) == if Has(more, c) then Lookup(more, c) else Lookup(d, c)
    decreases |more|
  {
    if more != [] {
      var next := Put(d, more[0].0, more[0].1);
      LookupPut(d, more[0].0, more[0].1, c);
      UpdatedChannels(next, more[1..], c);
      if c == more[0].0 { LookupAbsent(more[1..], c); }
    }
  }

  /** Removing channels: just the named ones are gone. */
  lemma {:induction false} RemovedChannels(d: Channels, names: seq<string>, c: string)
    requires Distinct(d)
    ensures Lookup(Removed(d, names), c) == if c in names then None else Lookup(d, c)
    decreases |names|
  {
    if names != [] {
      assert names == [names[0]] + names[1..];
      LookupDelete(d, names[0], c);
      DistinctDelete(d, names[0]);
      RemovedChannels(Delete(d, names[0]), names[1..], c);
    }
  }

  // ---- many readers ----

  /** A channel and the amount by which its reader count is increased. */
  type Increment = (string, int)

  /** The HINCRBY commands of opening streams. */
  function OpenIncrements(channels: Channels, streams: Streams, lastDelivered: map<string, nat>, now: nat): seq<Increment>
    decreases |channels|
  {
    if channels == [] then []
    else if Has(streams, channels[0].0) then OpenIncrements(channels[1..], streams, lastDelivered, now)
    else if channels[0].1 == Missing then []
    else
      var position := Position(channels[0].1, Stored(lastDelivered, channels[0].0), now);
      [(channels[0].0, 1)] + OpenIncrements(channels[1..], Put(streams, channels[0].0, position), lastDelivered, now)
  }

  /** The commands for streams whose channel is not read any more. */
  function CloseIncrements(streams: Streams, channels: Channels): seq<Increment> {
    if streams == [] then []
    else (if Has(channels, streams[0].0) then [] else [(streams[0].0, -1)]) + CloseIncrements(streams[1..], channels)
  }

  /** The increments of one channel in a list of commands. */
  function SumFor(increments: seq<Increment>, c: string): int {
    if increments == [] then 0 else (if increments[0].0 == c then increments[0].1 else 0) + SumFor(increments[1..], c)
  }

  /** The streams after an update, and its commands; a channel without id ends it before streams are dropped. */
  function AfterUpdate(channels: Channels, streams: Streams, lastDelivered: map<string, nat>, now: nat): (Streams, seq<Increment>) {
    var (open, ok) := Opened(channels, streams, lastDelivered, now);
    var opening := OpenIncrements(channels, streams, lastDelivered, now);
    if ok then (Closed(open, channels), opening + CloseIncrements(open, channels)) else (open, opening)
  }

  lemma {:induction false} SumConcat(a: seq<Increment>, b: seq<Increment>, c: string)
    ensures SumFor(a + b, c) == SumFor(a, c) + SumFor(b, c)
  {
    if a == [] {
      assert a + b == b;
    } else {
      assert (a + b)[1..] == a[1..] + b;
      SumConcat(a[1..], b, c);
    }
  }

  lemma {:induction false} OpeningCounts(channels: Channels, streams: Streams, lastDelivered: map<string, nat>, now: nat, c: string)
    requires Distinct(streams)
    ensures var open := Opened(channels, streams, lastDelivered, now).0;
            Distinct(open) && SumFor(OpenIncrements(channels, streams, lastDelivered, now), c) == One(Has(open, c)) - One(Has(streams, c))
    decreases |channels|
  {
    hide Position, Distinct;
    if channels != [] {
      var (name, first) := channels[0];
      if Has(streams, name) {
        OpeningCounts(channels[1..], streams, lastDelivered, now, c);
      } else if first != Missing {
        var position := Position(first, Stored(lastDelivered, name), now);
        LookupPut(streams, name, position, c);
        DistinctPut(streams, name, position);
        OpeningCounts(channels[1..], Put(streams, name, position), lastDelivered, now, c);
        var more := OpenIncrements(channels[1..], Put(streams, name, position), lastDelivered, now);
        assert ([(name, 1)] + more)[1..] == more;
      }
    }
  }

  lemma {:induction false} ClosingCounts(streams: Streams, channels: Channels, c: string)
    requires Distinct(streams)
    ensures SumFor(CloseIncrements(streams, channels), c) == if Has(channels, c) then 0 else -One(Has(streams, c))
  {
    if streams != [] {
      var key, more := streams[0].0, CloseIncrements(streams[1..], channels);
      ClosingCounts(streams[1..], channels, c);
      if key == c { LookupAbsent(streams[1..], c); }
      if !Has(channels, key) {
        assert ([(key, -1)] + more)[1..] == more;
      } else {
        assert [] + more == more;
      }
    }
  }

  /** Whatever the channels, the commands of an update move the count by what the update changes for this reader. */
  lemma UpdateCounts(channels: Channels, streams: Streams, lastDelivered: map<string, nat>, now: nat, c: string)
    requires Distinct(streams)
    ensures var (after, increments) := AfterUpdate(channels, streams, lastDelivered, now);
            Distinct(after) && SumFor(increments, c) == One(Has(after, c)) - One(Has(streams, c))
  {
    hide Distinct;
    OpeningCounts(channels, streams, lastDelivered, now, c);
    var (open, ok) := Opened(channels, streams, lastDelivered, now);
    ClosedProperties(open, channels);
    ClosedLookup(open, channels, c);
    ClosingCounts(open, channels, c);
    SumConcat(OpenIncrements(channels, streams, lastDelivered, now), CloseIncrements(open, channels), c);
  }

  type ReaderId = nat

  /**
   The streams of every open reader, those that readers had when their process was killed, the
   commands redis was given, and the ids it has stored.
   */
  datatype State = State(
    open: map<ReaderId, Streams>, crashed: seq<Streams>, commands: seq<Increment>, lastDelivered: map<string, nat>)

  /** An update comes with any channels: set, added, or what is left after some were removed. */
  datatype Action =
    | Create(r: ReaderId)
    | Update(r: ReaderId, channels: Channels, now: nat)
    | Acknowledge(channel: string, id: nat)
    | Finish(r: ReaderId)
    | Crash(r: ReaderId)

  const INITIAL := State(map[], [], [], map[])

  predicate Enabled(s: State, a: Action) {
    match a
    case Create(r) => r !in s.open
    case Update(r, _, _) => r in s.open
    case Acknowledge(_, _) => true
    case Finish(r) => r in s.open
    case Crash(r) => r in s.open
  }

  function Do(s: State, a: Action): State
    requires Enabled(s, a)
  {
    match a
    case Create(r) => s.(open := s.open[r := []])
    case Update(r, channels, now) =>
      var (after, increments) := AfterUpdate(channels, s.open[r], s.lastDelivered, now);
      s.(open := s.open[r := after], commands := s.commands + increments)
    case Acknowledge(channel, id) => s.(lastDelivered := s.lastDelivered[channel := id])
    case Finish(r) => s.(open := s.open - {r}, commands := s.commands + CloseIncrements(s.open[r], []))
    case Crash(r) => s.(open := s.open - {r}, crashed := s.crashed + [s.open[r]])
  }

  /** The readers that read a channel. */
  function ReadersOf(open: map<ReaderId, Streams>, c: string): set<ReaderId> {
    set r | r in open && Has(open[r], c)
  }

  /** How many of the killed readers read a channel. */
  function CrashedOn(crashed: seq<Streams>, c: string): nat {
    if crashed == [] then 0 else One(Has(crashed[|crashed| - 1], c)) + CrashedOn(crashed[..|crashed| - 1], c)
  }

  ghost predicate Counted(s: State, c: string) {
    SumFor(s.commands, c) == |ReadersOf(s.open, c)| + CrashedOn(s.crashed, c)
  }

  ghost predicate AllDistinct(s: State) {
    forall r | r in s.open :: Distinct(s.open[r])
  }

  lemma ReplacedReader(open: map<ReaderId, Streams>, r: ReaderId, after: Streams, c: string)
    requires r in open
    ensures |ReadersOf(open[r := after], c)| == |ReadersOf(open, c)| + One(Has(after, c)) - One(Has(open[r], c))
    ensures |ReadersOf(open - {r}, c)| == |ReadersOf(open, c)| - One(Has(open[r], c))
  {
    hide Has;
    var others := ReadersOf(open - {r}, c);
    assert ReadersOf(open, c) == others + if Has(open[r], c) then {r} else {};
    assert ReadersOf(open[r := after], c) == others + if Has(after, c) then {r} else {};
  }

  lemma NewReader(open: map<ReaderId, Streams>, r: ReaderId, c: string)
    requires r !in open
    ensures ReadersOf(open[r := []], c) == ReadersOf(open, c)
  {
  }

  lemma StepCounted(s: State, a: Action, c: string)
    requires AllDistinct(s) && Counted(s, c) && Enabled(s, a)
    ensures AllDistinct(Do(s, a)) && Counted(Do(s, a), c)
  {
    hide Has, Distinct, ReadersOf, AfterUpdate, CloseIncrements;
    match a
    case Create(r) =>
      NewReader(s.open, r, c);
      NoStreams();
    case Update(r, channels, now) =>
      var (after, increments) := AfterUpdate(channels, s.open[r], s.lastDelivered, now);
      UpdateCounts(channels, s.open[r], s.lastDelivered, now, c);
      SumConcat(s.commands, increments, c);
      ReplacedReader(s.open, r, after, c);
    case Acknowledge(_, _) =>
    case Finish(r) =>
      ClosingCounts(s.open[r], [], c);
      NothingRead(c);
      SumConcat(s.commands, CloseIncrements(s.open[r], []), c);
      ReplacedReader(s.open, r, [], c);
    case Crash(r) =>
      ReplacedReader(s.open, r, [], c);
      assert (s.crashed + [s.open[r]])[..|s.crashed|] == s.crashed;
  }

  lemma NoStreams()
    ensures Distinct<nat>([])
  {
  }

  lemma NothingRead(c: string)
    ensures !Has<Start>([], c)
  {
  }

  ghost predicate IsRun(s: State, run: seq<Action>, t: State)
    decreases |run|
  {
    if run == [] then s == t else Enabled(s, run[0]) && IsRun(Do(s, run[0]), run[1..], t)
  }

  lemma {:induction false} RunCounted(s: State, run: seq<Action>, t: State, c: string)
    requires AllDistinct(s) && Counted(s, c) && IsRun(s, run, t)
    ensures AllDistinct(t) && Counted(t, c)
    decreases |run|
  {
    hide AllDistinct, Counted, Enabled, Do;
    if run != [] {
      StepCounted(s, run[0], c);
      RunCounted(Do(s, run[0]), run[1..], t, c);
    }
  }

  lemma {:induction false} NoneCrashed(crashed: seq<Streams>, c: string)
    ensures CrashedOn(crashed, c) == 0 <==> forall i | 0 <= i < |crashed| :: !Has(crashed[i], c)
  {
    hide Has;
    if crashed != [] {
      var init := crashed[..|crashed| - 1];
      NoneCrashed(init, c);
      assert forall i | 0 <= i < |init| :: init[i] == crashed[i];
    }
  }

  /**
   In every run of any number of readers, through every change of their channels, failed updates
   and killed processes, the reader count of a channel in redis is the number of open readers that
   read it and of the killed ones that did: it is right exactly if none of the killed ones did.
   */
  lemma CountsAreKept(run: seq<Action>, s: State, c: string)
    requires IsRun(INITIAL, run, s)
    ensures SumFor(s.commands, c) == |ReadersOf(s.open, c)| + CrashedOn(s.crashed, c)
    ensures SumFor(s.commands, c) == |ReadersOf(s.open, c)| <==> forall i | 0 <= i < |s.crashed| :: !Has(s.crashed[i], c)
  {
    hide IsRun;
    RunCounted(INITIAL, run, s, c);
    NoneCrashed(s.crashed, c);
  }
}
