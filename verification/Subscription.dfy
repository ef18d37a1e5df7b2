/**
 The channel subscriptions of one messagebus websocket: a list of readers, of which each
 service channel has one of its own and all other channels share one plain reader. A request
 may stop half way, because access to a channel is denied or a channel name is invalid.
 */
module Subscription {
  import opened Wrappers
  import opened Dicts

  /** A reader object; `id` stands for its identity, and `channels` are the keys of its channel dictionary. */
  datatype Reader = Reader(id: nat, service: bool, channels: seq<string>)

  datatype Operation = ADD | SET | REMOVE | Other

  datatype Access = Granted | Denied | InvalidName

  datatype Outcome =
    | Reply(subscribed: seq<string>)
    | InvalidOperation
    | AccessDenied(channel: string)
    | InvalidChannel(channel: string)

  const SERVICE := "service:"

  predicate IsService(channel: string) {
    SERVICE <= channel
  }

  // ---- the steps of a request, as functions ----

  function PutAll(d: Dict<nat>, channels: seq<string>, id: nat): Dict<nat>
    decreases |channels|
  {
    if channels == [] then d else PutAll(Put(d, channels[0], id), channels[1..], id)
  }

  /** Which reader holds each channel; the last one counts. */
  function SubscribedIn(readers: seq<Reader>, d: Dict<nat>): Dict<nat>
    decreases |readers|
  {
    if readers == [] then d else SubscribedIn(readers[1..], PutAll(d, readers[0].channels, readers[0].id))
  }

  function Keys(d: Dict<nat>): (r: seq<string>)
    ensures |r| == |d| && forall i | 0 <= i < |d| :: r[i] == d[i].0
  {
    if d == [] then [] else [d[0].0] + Keys(d[1..])
  }

  /** The requested channels that are to be removed, without the session channel. */
  function Requested(channels: seq<string>, subscribed: Dict<nat>, session: string): seq<string> {
    if channels == [] then []
    else
      (if channels[0] != session && Lookup(subscribed, channels[0]).Some? then [channels[0]] else [])
      + Requested(channels[1..], subscribed, session)
  }

  /** The subscribed channels that are not requested any more, without the session channel. */
  function Obsolete(names: seq<string>, channels: seq<string>, session: string): seq<string> {
    if names == [] then []
    else (if names[0] != session && names[0] !in channels then [names[0]] else []) + Obsolete(names[1..], channels, session)
  }

  function RemoveList(op: Operation, channels: seq<string>, subscribed: Dict<nat>, session: string): seq<string> {
    match op
    case REMOVE => Requested(channels, subscribed, session)
    case SET => Obsolete(Keys(subscribed), channels, session)
    case _ => []
  }

  /** The channels to remove that a reader holds. */
  function ChannelsOf(remove: seq<string>, subscribed: Dict<nat>, id: nat): seq<string> {
    if remove == [] then []
    else (if Lookup(subscribed, remove[0]) == Some(id) then [remove[0]] else []) + ChannelsOf(remove[1..], subscribed, id)
  }

  function Minus(channels: seq<string>, remove: seq<string>): seq<string> {
    if channels == [] then []
    else (if channels[0] in remove then [] else [channels[0]]) + Minus(channels[1..], remove)
  }

  /** A reader all of whose channels are removed is stopped; another one goes on with the rest. */
  function Reduced(r: Reader, remove: seq<string>): seq<Reader> {
    if remove == [] then [r]
    else if multiset(remove) == multiset(r.channels) then []
    else [r.(channels := Minus(r.channels, remove))]
  }

  function AfterRemoval(readers: seq<Reader>, remove: seq<string>, subscribed: Dict<nat>): seq<Reader> {
    if readers == [] then []
    else Reduced(readers[0], ChannelsOf(remove, subscribed, readers[0].id)) + AfterRemoval(readers[1..], remove, subscribed)
  }

  function WithKeys(channels: seq<string>, more: seq<string>): seq<string>
    decreases |more|
  {
    if more == [] then channels
    else WithKeys(if more[0] in channels then channels else channels + [more[0]], more[1..])
  }

  /** Where the loop over the requested channels stops: the readers, the next id, the plain channels and a failure. */
  datatype Added = Added(readers: seq<Reader>, next: nat, plain: seq<string>, failure: Option<Outcome>)

  function AddLoop(readers: seq<Reader>, next: nat, plain: seq<string>, channels: seq<string>, access: string -> Access): Added
    decreases |channels|
  {
    if channels == [] then Added(readers, next, plain, None)
    else
      match access(channels[0])
      case Denied => Added(readers, next, plain, Some(AccessDenied(channels[0])))
      case InvalidName => Added(readers, next, plain, Some(InvalidChannel(channels[0])))
      case Granted =>
        if IsService(channels[0]) then
          AddLoop(readers + [Reader(next, true, [channels[0]])], next + 1, plain, channels[1..], access)
        else AddLoop(readers, next, WithKeys(plain, [channels[0]]), channels[1..], access)
  }

  /** The plain channels go to the first plain reader, or to a new one. */
  function AddPlain(readers: seq<Reader>, plain: seq<string>, next: nat): seq<Reader> {
    if readers == [] then [Reader(next, false, WithKeys([], plain))]
    else if !readers[0].service then [readers[0].(channels := WithKeys(readers[0].channels, plain))] + readers[1..]
    else [readers[0]] + AddPlain(readers[1..], plain, next)
  }

  function Subscribe(readers: seq<Reader>, next: nat, channels: seq<string>, access: string -> Access): Added {
    var added := AddLoop(readers, next, [], channels, access);
    if added.failure != None || added.plain == [] then added
    else added.(readers := AddPlain(added.readers, added.plain, added.next), next := added.next + 1)
  }

  /** One request: the readers afterwards, the next id, and how it ended. */
  function Process(readers: seq<Reader>, next: nat, session: string, op: Operation, channels: seq<string>, access: string -> Access)
    : (r: (seq<Reader>, nat, Outcome))
  {
    if op == Other then (readers, next, InvalidOperation)
    else
      var subscribed := SubscribedIn(readers, []);
      var kept := AfterRemoval(readers, RemoveList(op, channels, subscribed, session), subscribed);
      if op == REMOVE then (kept, next, Reply(Keys(SubscribedIn(kept, []))))
      else
        var added := Subscribe(kept, next, channels, access);
        (added.readers, added.next,
          if added.failure == None then Reply(Keys(SubscribedIn(added.readers, []))) else added.failure.value)
  }

  // ---- the subscription invariant ----

  predicate Distinct(names: seq<string>) {
    forall i, j | 0 <= i < j < |names| :: names[i] != names[j]
  }

  /** A service reader has one service channel; a plain reader has the session channel and no service channel. */
  predicate WellShaped(r: Reader, session: string) {
    && Distinct(r.channels)
    && (if r.service then |r.channels| == 1 && IsService(r.channels[0])
        else session in r.channels && forall c | c in r.channels :: !IsService(c))
  }

  predicate Shaped(readers: seq<Reader>, session: string) {
    forall i | 0 <= i < |readers| :: WellShaped(readers[i], session)
  }

  /** No channel has two readers. */
  ghost predicate Separate(readers: seq<Reader>) {
    forall i, j, c | 0 <= i < |readers| && 0 <= j < |readers| && c in readers[i].channels && c in readers[j].channels :: i == j
  }

  predicate Identified(readers: seq<Reader>, next: nat) {
    && (forall i | 0 <= i < |readers| :: readers[i].id < next)
    && (forall i, j | 0 <= i < j < |readers| :: readers[i].id != readers[j].id)
  }

  predicate HasPlain(readers: seq<Reader>) {
    exists i | 0 <= i < |readers| :: !readers[i].service
  }

  /** The readers partition the subscribed channels, exactly one is plain and has the session channel, and none is empty. */
  ghost predicate Partitioned(readers: seq<Reader>, session: string) {
    Shaped(readers, session) && Separate(readers) && HasPlain(readers)
  }

  ghost predicate Subscribes(readers: seq<Reader>, c: string) {
    exists i | 0 <= i < |readers| :: c in readers[i].channels
  }

  /** There is exactly one plain reader, and no reader is empty. */
  lemma OnePlainReader(readers: seq<Reader>, session: string)
    requires Partitioned(readers, session)
    ensures exists i | 0 <= i < |readers| ::
              !readers[i].service && session in readers[i].channels && forall j | 0 <= j < |readers| && j != i :: readers[j].service
    ensures forall i | 0 <= i < |readers| :: readers[i].channels != []
  {
    var i :| 0 <= i < |readers| && !readers[i].service;
    assert WellShaped(readers[i], session);
    forall j | 0 <= j < |readers| && j != i ensures readers[j].service {
      assert WellShaped(readers[j], session);
    }
    forall j | 0 <= j < |readers| ensures readers[j].channels != [] { assert WellShaped(readers[j], session); }
  }

  // ---- which reader holds a channel ----

  lemma {:induction false} LookupPutAll(d: Dict<nat>, channels: seq<string>, id: nat, c: string)
    ensures Lookup(PutAll(d, channels, id), c) == if c in channels then Some(id) else Lookup(d, c)
    decreases |channels|
  {
    if channels != [] {
      assert channels == [channels[0]] + channels[1..];
      LookupPutAll(Put(d, channels[0], id), channels[1..], id, c);
      LookupPut(d, channels[0], id, c);
    }
  }

  lemma {:induction false} LookupElsewhere(readers: seq<Reader>, d: Dict<nat>, c: string)
    requires forall i | 0 <= i < |readers| :: c !in readers[i].channels
    ensures Lookup(SubscribedIn(readers, d), c) == Lookup(d, c)
    decreases |readers|
  {
    if readers != [] {
      LookupPutAll(d, readers[0].channels, readers[0].id, c);
      LookupElsewhere(readers[1..], PutAll(d, readers[0].channels, readers[0].id), c);
    }
  }

  lemma {:induction false} LookupHolder(readers: seq<Reader>, d: Dict<nat>, i: nat, c: string)
    requires i < |readers| && c in readers[i].channels
    requires forall j | 0 <= j < |readers| && j != i :: c !in readers[j].channels
    ensures Lookup(SubscribedIn(readers, d), c) == Some(readers[i].id)
    decreases |readers|
  {
    var e := PutAll(d, readers[0].channels, readers[0].id);
    LookupPutAll(d, readers[0].channels, readers[0].id, c);
    if i == 0 {
      LookupElsewhere(readers[1..], e, c);
    } else {
      LookupHolder(readers[1..], e, i - 1, c);
    }
  }

  /** The channels to remove that one reader of a partition holds. */
  lemma HolderIs(readers: seq<Reader>, next: nat, i: nat, c: string)
    requires Separate(readers) && Identified(readers, next) && i < |readers|
    ensures Lookup(SubscribedIn(readers, []), c) == Some(readers[i].id) <==> c in readers[i].channels
  {
    if Subscribes(readers, c) {
      var j :| 0 <= j < |readers| && c in readers[j].channels;
      LookupHolder(readers, [], j, c);
    } else {
      LookupElsewhere(readers, [], c);
    }
  }

  // ---- removing channels ----

  /** The channels listed for each reader are those of the channels to remove that it holds. */
  ghost predicate Fits(readers: seq<Reader>, remove: seq<string>, subscribed: Dict<nat>) {
    forall i | 0 <= i < |readers| :: FitsReader(readers[i], remove, subscribed)
  }

  ghost predicate FitsReader(r: Reader, remove: seq<string>, subscribed: Dict<nat>) {
    forall c :: c in ChannelsOf(remove, subscribed, r.id) <==> c in remove && c in r.channels
  }

  lemma {:induction false} ChannelsOfMember(remove: seq<string>, subscribed: Dict<nat>, id: nat, c: string)
    ensures c in ChannelsOf(remove, subscribed, id) <==> c in remove && Lookup(subscribed, c) == Some(id)
  {
    if remove != [] {
      assert remove == [remove[0]] + remove[1..];
      ChannelsOfMember(remove[1..], subscribed, id, c);
    }
  }

  lemma PartitionFits(readers: seq<Reader>, next: nat, remove: seq<string>)
    requires Separate(readers) && Identified(readers, next)
    ensures Fits(readers, remove, SubscribedIn(readers, []))
  {
    hide Separate, Identified, ChannelsOf;
    var subscribed := SubscribedIn(readers, []);
    forall i | 0 <= i < |readers| ensures FitsReader(readers[i], remove, subscribed) {
      forall c ensures c in ChannelsOf(remove, subscribed, readers[i].id) <==> c in remove && c in readers[i].channels {
        ChannelsOfMember(remove, subscribed, readers[i].id, c);
        HolderIs(readers, next, i, c);
      }
    }
  }

  lemma {:induction false} MinusMembers(channels: seq<string>, remove: seq<string>)
    requires Distinct(channels)
    ensures Distinct(Minus(channels, remove))
    ensures forall c :: c in Minus(channels, remove) <==> c in channels && c !in remove
  {
    if channels != [] {
      assert channels == [channels[0]] + channels[1..];
      assert channels[0] !in channels[1..];
      MinusMembers(channels[1..], remove);
    }
  }

  /** A service reader that is asked to remove its channel more than once is left without channels. */
  ghost predicate NoDoubles(readers: seq<Reader>, remove: seq<string>, subscribed: Dict<nat>) {
    forall i | 0 <= i < |readers| && readers[i].service :: |ChannelsOf(remove, subscribed, readers[i].id)| <= 1
  }

  /** What is left of one reader. */
  ghost predicate ReducedTo(r: Reader, session: string, remove: seq<string>, chans: seq<string>, result: seq<Reader>) {
    && |result| <= 1
    && (forall c :: Subscribes(result, c) <==> c in r.channels && c !in remove)
    && (result != [] ==> result[0].id == r.id && result[0].service == r.service)
    && (!r.service ==> result != [])
    && (Shaped(result, session) <==> !r.service || |chans| <= 1)
  }

  lemma SubscribesOne(r: Reader)
    ensures forall c :: Subscribes([r], c) <==> c in r.channels
    ensures forall c :: !Subscribes([], c)
  {
    assert [r][0] == r;
  }

  lemma ReducedService(r: Reader, session: string, remove: seq<string>, chans: seq<string>)
    requires WellShaped(r, session) && r.service && forall c :: c in chans <==> c in remove && c in r.channels
    ensures ReducedTo(r, session, remove, chans, Reduced(r, chans))
  {
    var c := r.channels[0];
    assert r.channels == [c];
    SubscribesOne(r);
    if chans != [] {
      forall i | 0 <= i < |chans| ensures chans[i] == c { assert chans[i] in chans; }
      if |chans| == 1 {
        assert chans == r.channels;
      } else {
        assert |multiset(chans)| == |chans| && |multiset(r.channels)| == 1;
        assert chans[0] in chans && Minus(r.channels, chans) == [];
        SubscribesOne(r.(channels := []));
      }
    } else {
      assert c in r.channels;
    }
  }

  lemma ReducedPlain(r: Reader, session: string, remove: seq<string>, chans: seq<string>)
    requires WellShaped(r, session) && !r.service && session !in remove && forall c :: c in chans <==> c in remove && c in r.channels
    ensures ReducedTo(r, session, remove, chans, Reduced(r, chans))
  {
    SubscribesOne(r);
    if chans != [] {
      assert session in multiset(r.channels) && session !in multiset(chans);
      MinusMembers(r.channels, chans);
      SubscribesOne(r.(channels := Minus(r.channels, chans)));
    }
  }

  lemma SubscribesConcat(a: seq<Reader>, b: seq<Reader>, c: string)
    ensures Subscribes(a + b, c) <==> Subscribes(a, c) || Subscribes(b, c)
  {
    if i: nat :| i < |a| && c in a[i].channels { assert (a + b)[i] == a[i]; }
    if i: nat :| i < |b| && c in b[i].channels { assert (a + b)[|a| + i] == b[i]; }
  }

  lemma ShapedConcat(a: seq<Reader>, b: seq<Reader>, session: string)
    ensures Shaped(a + b, session) <==> Shaped(a, session) && Shaped(b, session)
  {
    forall i | 0 <= i < |a| ensures (a + b)[i] == a[i] { }
    forall i | 0 <= i < |b| ensures (a + b)[|a| + i] == b[i] { }
  }

  /** Two separate lists of readers that share no channel. */
  lemma SeparateConcat(a: seq<Reader>, b: seq<Reader>)
    ensures Separate(a + b) <==> Separate(a) && Separate(b) && forall c :: !(Subscribes(a, c) && Subscribes(b, c))
  {
    if Separate(a + b) {
      SeparateParts(a, b);
    } else {
      var i, j, c :| 0 <= i < |a + b| && 0 <= j < |a + b| && c in (a + b)[i].channels && c in (a + b)[j].channels && i != j;
      if i < |a| && j >= |a| {
        assert c in b[j - |a|].channels && Subscribes(a, c) && Subscribes(b, c);
      } else if i >= |a| && j < |a| {
        assert c in b[i - |a|].channels && Subscribes(a, c) && Subscribes(b, c);
      } else if i >= |a| {
        assert c in b[i - |a|].channels && c in b[j - |a|].channels;
      }
    }
  }

  lemma SeparateParts(a: seq<Reader>, b: seq<Reader>)
    requires Separate(a + b)
    ensures Separate(a) && Separate(b) && forall c :: !(Subscribes(a, c) && Subscribes(b, c))
  {
    var all := a + b;
    forall i, j, c | 0 <= i < |a| && 0 <= j < |a| && c in a[i].channels && c in a[j].channels ensures i == j {
      assert c in all[i].channels && c in all[j].channels;
    }
    forall i, j, c | 0 <= i < |b| && 0 <= j < |b| && c in b[i].channels && c in b[j].channels ensures i == j {
      assert c in all[|a| + i].channels && c in all[|a| + j].channels;
    }
    forall c | Subscribes(a, c) ensures !Subscribes(b, c) {
      var i :| 0 <= i < |a| && c in a[i].channels;
      forall j | 0 <= j < |b| ensures c !in b[j].channels {
        assert all[i] == a[i] && all[|a| + j] == b[j];
      }
    }
  }

  ghost predicate UsesId(readers: seq<Reader>, id: nat) {
    exists i | 0 <= i < |readers| :: readers[i].id == id
  }

  lemma IdentifiedConcat(a: seq<Reader>, b: seq<Reader>, next: nat)
    requires Identified(a, next) && Identified(b, next) && forall id :: !(UsesId(a, id) && UsesId(b, id))
    ensures Identified(a + b, next)
  {
    forall i, j | 0 <= i < j < |a + b| ensures (a + b)[i].id != (a + b)[j].id {
      if i < |a| && j >= |a| {
        assert UsesId(a, a[i].id);
        assert UsesId(b, b[j - |a|].id);
      }
    }
  }

  lemma ReducedSeparate(r: Reader, chans: seq<string>, next: nat)
    requires r.id < next && |Reduced(r, chans)| <= 1
    ensures Separate(Reduced(r, chans)) && Identified(Reduced(r, chans), next)
    ensures forall id :: UsesId(Reduced(r, chans), id) ==> id == r.id
  {
  }

  /** What a removal leaves of a partition. */
  ghost predicate CutTo(readers: seq<Reader>, next: nat, session: string, remove: seq<string>, doubles: bool, result: seq<Reader>) {
    && Separate(result) && Identified(result, next)
    && (forall id :: UsesId(result, id) ==> UsesId(readers, id))
    && (forall c :: Subscribes(result, c) <==> Subscribes(readers, c) && c !in remove)
    && (HasPlain(readers) ==> HasPlain(result))
    && (Shaped(result, session) <==> !doubles)
  }

  lemma HasPlainConcat(a: seq<Reader>, b: seq<Reader>)
    ensures HasPlain(a + b) <==> HasPlain(a) || HasPlain(b)
  {
    if i: nat :| i < |a| && !a[i].service { assert (a + b)[i] == a[i]; }
    if i: nat :| i < |b| && !b[i].service { assert (a + b)[|a| + i] == b[i]; }
  }

  lemma UsesIdConcat(a: seq<Reader>, b: seq<Reader>, id: nat)
    ensures UsesId(a + b, id) <==> UsesId(a, id) || UsesId(b, id)
  {
    if i: nat :| i < |a| && a[i].id == id { assert (a + b)[i] == a[i]; }
    if i: nat :| i < |b| && b[i].id == id { assert (a + b)[|a| + i] == b[i]; }
  }

  lemma CutConcat(a: seq<Reader>, b: seq<Reader>, next: nat, session: string, remove: seq<string>, da: bool, db: bool, ra: seq<Reader>, rb: seq<Reader>)
    requires CutTo(a, next, session, remove, da, ra) && CutTo(b, next, session, remove, db, rb)
    requires Separate(a + b) && forall id :: !(UsesId(a, id) && UsesId(b, id))
    ensures CutTo(a + b, next, session, remove, da || db, ra + rb)
  {
    hide Separate, Identified, Subscribes, HasPlain, Shaped, UsesId;
    SeparateParts(a, b);
    SeparateConcat(ra, rb);
    IdentifiedConcat(ra, rb, next);
    ShapedConcat(ra, rb, session);
    HasPlainConcat(a, b);
    HasPlainConcat(ra, rb);
    forall id ensures UsesId(ra + rb, id) ==> UsesId(a + b, id) {
      UsesIdConcat(a, b, id);
      UsesIdConcat(ra, rb, id);
    }
    forall c ensures Subscribes(ra + rb, c) <==> Subscribes(a + b, c) && c !in remove {
      SubscribesConcat(a, b, c);
      SubscribesConcat(ra, rb, c);
    }
  }

  lemma ReducedCut(r: Reader, next: nat, session: string, remove: seq<string>, chans: seq<string>)
    requires WellShaped(r, session) && r.id < next && session !in remove && forall c :: c in chans <==> c in remove && c in r.channels
    ensures CutTo([r], next, session, remove, r.service && |chans| > 1, Reduced(r, chans))
  {
    hide WellShaped, Separate, Identified;
    if r.service { ReducedService(r, session, remove, chans); } else { ReducedPlain(r, session, remove, chans); }
    ReducedSeparate(r, chans, next);
    SubscribesOne(r);
  }

  /** Removing channels from a partition. */
  lemma {:induction false} RemovalCut(readers: seq<Reader>, next: nat, session: string, remove: seq<string>, subscribed: Dict<nat>)
    requires Separate(readers) && Identified(readers, next) && Shaped(readers, session)
    requires session !in remove && Fits(readers, remove, subscribed)
    ensures CutTo(readers, next, session, remove, !NoDoubles(readers, remove, subscribed), AfterRemoval(readers, remove, subscribed))
    decreases |readers|
  {
    if readers == [] {
      CutNothing(next, session, remove);
    } else {
      var r, rest := readers[0], readers[1..];
      var chans := ChannelsOf(remove, subscribed, r.id);
      assert readers == [r] + rest;
      HeadAndTail(readers, next, session, remove, subscribed);
      RemovalCut(rest, next, session, remove, subscribed);
      ReducedCut(r, next, session, remove, chans);
      CutConcat([r], rest, next, session, remove, r.service && |chans| > 1, !NoDoubles(rest, remove, subscribed),
                Reduced(r, chans), AfterRemoval(rest, remove, subscribed));
    }
  }

  lemma CutNothing(next: nat, session: string, remove: seq<string>)
    ensures CutTo([], next, session, remove, false, [])
  {
  }

  lemma HeadAndTail(readers: seq<Reader>, next: nat, session: string, remove: seq<string>, subscribed: Dict<nat>)
    requires readers != [] && Separate(readers) && Identified(readers, next) && Shaped(readers, session)
    requires Fits(readers, remove, subscribed)
    ensures var r, rest := readers[0], readers[1..];
            && Separate(rest) && Identified(rest, next) && Shaped(rest, session) && Fits(rest, remove, subscribed)
            && WellShaped(r, session) && r.id < next && FitsReader(r, remove, subscribed)
            && (forall id :: !(UsesId([r], id) && UsesId(rest, id)))
            && (NoDoubles(readers, remove, subscribed)
                <==> (r.service ==> |ChannelsOf(remove, subscribed, r.id)| <= 1) && NoDoubles(rest, remove, subscribed))
  {
    hide WellShaped, FitsReader, ChannelsOf;
    var r, rest := readers[0], readers[1..];
    SeparateParts([r], rest);
    assert readers == [r] + rest;
    forall i | 0 <= i < |rest| ensures rest[i] == readers[i + 1] { }
    if NoDoubles(rest, remove, subscribed) && (r.service ==> |ChannelsOf(remove, subscribed, r.id)| <= 1) {
      forall i | 0 <= i < |readers| && readers[i].service ensures |ChannelsOf(remove, subscribed, readers[i].id)| <= 1 {
        if i > 0 { assert rest[i - 1] == readers[i]; }
      }
    }
    if NoDoubles(readers, remove, subscribed) {
      forall i | 0 <= i < |rest| && rest[i].service ensures |ChannelsOf(remove, subscribed, rest[i].id)| <= 1 {
        assert rest[i] == readers[i + 1];
      }
    }
  }

  // ---- which channels a request removes ----

  lemma {:induction false} RequestedMembers(channels: seq<string>, subscribed: Dict<nat>, session: string, c: string)
    ensures c in Requested(channels, subscribed, session) <==> c in channels && c != session && Lookup(subscribed, c).Some?
  {
    if channels != [] {
      assert channels == [channels[0]] + channels[1..];
      RequestedMembers(channels[1..], subscribed, session, c);
    }
  }

  lemma {:induction false} ObsoleteMembers(names: seq<string>, channels: seq<string>, session: string)
    ensures forall c :: c in Obsolete(names, channels, session) <==> c in names && c != session && c !in channels
    ensures Distinct(names) ==> Distinct(Obsolete(names, channels, session))
  {
    if names != [] {
      assert names == [names[0]] + names[1..];
      ObsoleteMembers(names[1..], channels, session);
      if Distinct(names) { assert names[0] !in names[1..]; }
    }
  }

  lemma KeysMembers(readers: seq<Reader>, c: string)
    ensures c in Keys(SubscribedIn(readers, [])) <==> Subscribes(readers, c)
    ensures Lookup(SubscribedIn(readers, []), c).Some? <==> Subscribes(readers, c)
  {
    var d := SubscribedIn(readers, []);
    LookupAbsent(d, c);
    if Subscribes(readers, c) {
      SubscribedLookup(readers, [], c);
    } else {
      LookupElsewhere(readers, [], c);
    }
    if c in Keys(d) { var i :| 0 <= i < |d| && Keys(d)[i] == c; }
    if i: nat :| i < |d| && d[i].0 == c { assert Keys(d)[i] == c; }
  }

  lemma {:induction false} SubscribedLookup(readers: seq<Reader>, d: Dict<nat>, c: string)
    requires Subscribes(readers, c)
    ensures Lookup(SubscribedIn(readers, d), c).Some?
    decreases |readers|
  {
    var e := PutAll(d, readers[0].channels, readers[0].id);
    LookupPutAll(d, readers[0].channels, readers[0].id, c);
    var i :| 0 <= i < |readers| && c in readers[i].channels;
    if i > 0 { assert c in readers[1..][i - 1].channels; }
    if Subscribes(readers[1..], c) {
      SubscribedLookup(readers[1..], e, c);
    } else {
      LookupElsewhere(readers[1..], e, c);
    }
  }

  lemma {:induction false} DistinctSubscribed(readers: seq<Reader>, d: Dict<nat>)
    requires Dicts.Distinct(d)
    ensures Dicts.Distinct(SubscribedIn(readers, d))
    decreases |readers|
  {
    if readers != [] {
      DistinctPutAll(d, readers[0].channels, readers[0].id);
      DistinctSubscribed(readers[1..], PutAll(d, readers[0].channels, readers[0].id));
    }
  }

  lemma {:induction false} DistinctPutAll(d: Dict<nat>, channels: seq<string>, id: nat)
    requires Dicts.Distinct(d)
    ensures Dicts.Distinct(PutAll(d, channels, id))
    decreases |channels|
  {
    if channels != [] {
      DistinctPut(d, channels[0], id);
      DistinctPutAll(Put(d, channels[0], id), channels[1..], id);
    }
  }

  /** The channels that a request unsubscribes. */
  lemma RemoveMembers(readers: seq<Reader>, op: Operation, channels: seq<string>, session: string, c: string)
    ensures c in RemoveList(op, channels, SubscribedIn(readers, []), session) <==>
              && c != session && Subscribes(readers, c)
              && ((op == REMOVE && c in channels) || (op == SET && c !in channels))
  {
    var subscribed := SubscribedIn(readers, []);
    KeysMembers(readers, c);
    RequestedMembers(channels, subscribed, session, c);
    ObsoleteMembers(Keys(subscribed), channels, session);
  }

  // ---- which requests leave no reader without channels ----

  /** No subscribed service channel is listed more than once. */
  ghost predicate ListedOnce(channels: seq<string>, readers: seq<Reader>) {
    forall i, j | 0 <= i < j < |channels| && channels[i] == channels[j] && IsService(channels[i]) :: !Subscribes(readers, channels[i])
  }

  function Occurrences(channels: seq<string>, c: string): nat {
    if channels == [] then 0 else (if channels[0] == c then 1 else 0) + Occurrences(channels[1..], c)
  }

  lemma {:induction false} OccursOnce(channels: seq<string>, c: string)
    ensures Occurrences(channels, c) == 0 <==> c !in channels
    ensures Occurrences(channels, c) <= 1 <==> forall i, j | 0 <= i < j < |channels| :: !(channels[i] == c && channels[j] == c)
  {
    if channels != [] {
      var rest := channels[1..];
      assert channels == [channels[0]] + rest;
      OccursOnce(rest, c);
      if i: nat, j: nat :| i < j < |channels| && channels[i] == c && channels[j] == c {
        assert rest[j - 1] == c;
        if i > 0 { assert rest[i - 1] == c; }
      }
      if i: nat, j: nat :| i < j < |rest| && rest[i] == c && rest[j] == c {
        assert channels[i + 1] == c && channels[j + 1] == c;
      }
      if channels[0] == c && c in rest {
        var j :| 0 <= j < |rest| && rest[j] == c;
        assert channels[j + 1] == c;
      }
    }
  }

  /** The channels of a service reader that a list names: as many as the reader's channel occurs in it. */
  lemma {:induction false} ServiceCount(remove: seq<string>, subscribed: Dict<nat>, id: nat, c: string)
    requires forall x :: Lookup(subscribed, x) == Some(id) <==> x == c
    ensures |ChannelsOf(remove, subscribed, id)| == Occurrences(remove, c)
  {
    if remove != [] { ServiceCount(remove[1..], subscribed, id, c); }
  }

  lemma {:induction false} RequestedCount(channels: seq<string>, subscribed: Dict<nat>, session: string, c: string)
    requires c != session && Lookup(subscribed, c).Some?
    ensures Occurrences(Requested(channels, subscribed, session), c) == Occurrences(channels, c)
  {
    if channels != [] {
      var more := Requested(channels[1..], subscribed, session);
      RequestedCount(channels[1..], subscribed, session, c);
      assert ([channels[0]] + more)[1..] == more && [] + more == more;
    }
  }

  lemma DistinctOccurs(names: seq<string>, c: string)
    requires Distinct(names)
    ensures Occurrences(names, c) <= 1
  {
    OccursOnce(names, c);
  }

  /** How often a request removes the channel of a service reader. */
  lemma ServiceReaderCount(readers: seq<Reader>, next: nat, session: string, op: Operation, channels: seq<string>, i: nat)
    requires Separate(readers) && Identified(readers, next) && Shaped(readers, session) && !IsService(session)
    requires i < |readers| && readers[i].service
    ensures |readers[i].channels| == 1
    ensures var subscribed, c := SubscribedIn(readers, []), readers[i].channels[0];
            var count := |ChannelsOf(RemoveList(op, channels, subscribed, session), subscribed, readers[i].id)|;
            && Subscribes(readers, c) && IsService(c)
            && (op == REMOVE ==> count == Occurrences(channels, c))
            && (op != REMOVE ==> count <= 1)
  {
    hide Separate, Identified, IsService, ChannelsOf, Requested, Obsolete;
    var subscribed, c := SubscribedIn(readers, []), readers[i].channels[0];
    assert WellShaped(readers[i], session);
    assert readers[i].channels == [c] && c in readers[i].channels;
    forall x ensures Lookup(subscribed, x) == Some(readers[i].id) <==> x == c { HolderIs(readers, next, i, x); }
    var remove := RemoveList(op, channels, subscribed, session);
    ServiceCount(remove, subscribed, readers[i].id, c);
    match op
    case REMOVE => RequestedCount(channels, subscribed, session, c);
    case SET =>
      DistinctSubscribed(readers, []);
      DistinctKeys(subscribed);
      ObsoleteMembers(Keys(subscribed), channels, session);
      DistinctOccurs(remove, c);
    case _ =>
  }

  lemma DistinctKeys(d: Dict<nat>)
    requires Dicts.Distinct(d)
    ensures Distinct(Keys(d))
  {
  }

  /** A removal leaves no reader without channels exactly when it lists no subscribed service channel twice. */
  lemma NoDoublesIff(readers: seq<Reader>, next: nat, session: string, op: Operation, channels: seq<string>)
    requires Separate(readers) && Identified(readers, next) && Shaped(readers, session) && !IsService(session)
    ensures var subscribed := SubscribedIn(readers, []);
            NoDoubles(readers, RemoveList(op, channels, subscribed, session), subscribed) <==> (op == REMOVE ==> ListedOnce(channels, readers))
  {
    hide Separate, Identified, Shaped, ChannelsOf, RemoveList, IsService;
    var subscribed := SubscribedIn(readers, []);
    var remove := RemoveList(op, channels, subscribed, session);
    forall i | 0 <= i < |readers| && readers[i].service
      ensures op != REMOVE ==> |ChannelsOf(remove, subscribed, readers[i].id)| <= 1
    {
      ServiceReaderCount(readers, next, session, op, channels, i);
    }
    if op == REMOVE {
      if ListedOnce(channels, readers) {
        forall i | 0 <= i < |readers| && readers[i].service ensures |ChannelsOf(remove, subscribed, readers[i].id)| <= 1 {
          ServiceReaderCount(readers, next, session, op, channels, i);
          OccursOnce(channels, readers[i].channels[0]);
        }
      } else {
        var i, j :| 0 <= i < j < |channels| && channels[i] == channels[j] && IsService(channels[i]) && Subscribes(readers, channels[i]);
        var k := ServiceHolder(readers, session, channels[i]);
        ServiceReaderCount(readers, next, session, op, channels, k);
        OccursOnce(channels, channels[i]);
      }
    }
  }

  lemma ServiceHolder(readers: seq<Reader>, session: string, c: string) returns (i: nat)
    requires Shaped(readers, session) && IsService(c) && Subscribes(readers, c)
    ensures i < |readers| && readers[i].service && |readers[i].channels| == 1 && readers[i].channels[0] == c
  {
    i :| 0 <= i < |readers| && c in readers[i].channels;
    assert WellShaped(readers[i], session);
  }

  // ---- adding channels ----

  /** How many of the channels are granted before one is not. */
  function GrantedCount(channels: seq<string>, access: string -> Access): (n: nat)
    ensures n <= |channels|
  {
    if channels == [] || access(channels[0]) != Granted then 0 else 1 + GrantedCount(channels[1..], access)
  }

  /** The channels that a request gets to. */
  function Reached(channels: seq<string>, access: string -> Access): seq<string> {
    channels[..GrantedCount(channels, access)]
  }

  /** No service channel is listed twice or subscribed already. */
  ghost predicate NewServices(channels: seq<string>, readers: seq<Reader>) {
    && (forall i | 0 <= i < |channels| && IsService(channels[i]) :: !Subscribes(readers, channels[i]))
    && (forall i, j | 0 <= i < j < |channels| && IsService(channels[i]) :: channels[i] != channels[j])
  }

  lemma {:induction false} PutKeysMembers(channels: seq<string>, more: seq<string>)
    ensures forall c :: c in WithKeys(channels, more) <==> c in channels || c in more
    ensures Distinct(channels) ==> Distinct(WithKeys(channels, more))
    ensures |WithKeys(channels, more)| >= |channels|
    decreases |more|
  {
    if more != [] {
      assert more == [more[0]] + more[1..];
      PutKeysMembers(if more[0] in channels then channels else channels + [more[0]], more[1..]);
    }
  }

  /** A new reader for one service channel. */
  lemma OneMoreService(readers: seq<Reader>, next: nat, session: string, c: string)
    requires Identified(readers, next) && Shaped(readers, session) && IsService(c)
    ensures var more := readers + [Reader(next, true, [c])];
            && Identified(more, next + 1) && Shaped(more, session)
            && (Separate(more) <==> Separate(readers) && !Subscribes(readers, c))
            && (forall x :: Subscribes(more, x) <==> Subscribes(readers, x) || x == c)
            && (HasPlain(readers) ==> HasPlain(more))
            && (OnlyOnePlain(readers) ==> OnlyOnePlain(more))
  {
    var r := Reader(next, true, [c]);
    SubscribesOne(r);
    SeparateConcat(readers, [r]);
    assert Separate([r]);
    ShapedConcat(readers, [r], session);
    HasPlainConcat(readers, [r]);
    assert Shaped([r], session);
    assert forall x :: x in r.channels <==> x == c;
    forall x ensures Subscribes(readers + [r], x) <==> Subscribes(readers, x) || x == c { SubscribesConcat(readers, [r], x); }
  }

  ghost predicate OnlyOnePlain(readers: seq<Reader>) {
    forall i, j | 0 <= i < |readers| && 0 <= j < |readers| && !readers[i].service && !readers[j].service :: i == j
  }

  /** What the loop over the requested channels does. */
  ghost predicate AddsTo(readers: seq<Reader>, session: string, plain: seq<string>, reached: seq<string>, added: Added) {
    && Identified(added.readers, added.next) && Shaped(added.readers, session)
    && (HasPlain(readers) ==> HasPlain(added.readers)) && (OnlyOnePlain(readers) ==> OnlyOnePlain(added.readers))
    && (Separate(added.readers) <==> Separate(readers) && NewServices(reached, readers))
    && (forall c :: Subscribes(added.readers, c) <==> Subscribes(readers, c) || (IsService(c) && c in reached))
    && (forall c :: c in added.plain <==> c in plain || (!IsService(c) && c in reached))
  }

  lemma NewServicesCons(readers: seq<Reader>, more: seq<Reader>, c: string, rest: seq<string>)
    requires IsService(c) && forall x :: Subscribes(more, x) <==> Subscribes(readers, x) || x == c
    ensures !Subscribes(readers, c) && NewServices(rest, more) <==> NewServices([c] + rest, readers)
  {
    hide IsService, Subscribes;
    var all := [c] + rest;
    forall i | 0 <= i < |rest| ensures all[i + 1] == rest[i] { }
    if NewServices(all, readers) {
      assert all[0] == c;
      forall i | 0 <= i < |rest| && IsService(rest[i]) ensures !Subscribes(more, rest[i]) {
        assert all[0] != all[i + 1];
      }
      forall i, j | 0 <= i < j < |rest| && IsService(rest[i]) ensures rest[i] != rest[j] { assert all[i + 1] != all[j + 1]; }
    }
    if !Subscribes(readers, c) && NewServices(rest, more) {
      forall i, j | 0 <= i < j < |all| && IsService(all[i]) ensures all[i] != all[j] {
        if i == 0 { assert all[j] == rest[j - 1]; } else { assert all[i] == rest[i - 1] && all[j] == rest[j - 1]; }
      }
      forall i | 0 <= i < |all| && IsService(all[i]) ensures !Subscribes(readers, all[i]) {
        if i > 0 { assert all[i] == rest[i - 1]; }
      }
    }
  }

  lemma NewServicesPlain(readers: seq<Reader>, c: string, rest: seq<string>)
    requires !IsService(c)
    ensures NewServices(rest, readers) <==> NewServices([c] + rest, readers)
  {
    hide IsService, Subscribes;
    var all := [c] + rest;
    forall i | 0 <= i < |rest| ensures all[i + 1] == rest[i] { }
    if NewServices(all, readers) {
      forall i | 0 <= i < |rest| && IsService(rest[i]) ensures !Subscribes(readers, rest[i]) { assert all[i + 1] == rest[i]; }
      forall i, j | 0 <= i < j < |rest| && IsService(rest[i]) ensures rest[i] != rest[j] { assert all[i + 1] != all[j + 1]; }
    }
  }

  lemma {:induction false} AddLoopAdds(readers: seq<Reader>, next: nat, session: string, plain: seq<string>, channels: seq<string>, access: string -> Access)
    requires Identified(readers, next) && Shaped(readers, session)
    ensures AddsTo(readers, session, plain, Reached(channels, access), AddLoop(readers, next, plain, channels, access))
    ensures AddLoop(readers, next, plain, channels, access).failure == None <==> Reached(channels, access) == channels
    decreases |channels|
  {
    hide Identified, Shaped, HasPlain, OnlyOnePlain, Separate, Subscribes, NewServices, IsService;
    if channels == [] || access(channels[0]) != Granted {
      NothingReached(readers);
    } else {
      var c, rest := channels[0], channels[1..];
      var reached := Reached(rest, access);
      assert channels == [c] + rest && Reached(channels, access) == [c] + reached;
      if IsService(c) {
        var more := readers + [Reader(next, true, [c])];
        OneMoreService(readers, next, session, c);
        AddLoopAdds(more, next + 1, session, plain, rest, access);
        NewServicesCons(readers, more, c, reached);
      } else {
        PutKeysMembers(plain, [c]);
        AddLoopAdds(readers, next, session, WithKeys(plain, [c]), rest, access);
        NewServicesPlain(readers, c, reached);
      }
    }
  }

  lemma NothingReached(readers: seq<Reader>)
    ensures NewServices([], readers)
  {
  }

  lemma OnlyOne(readers: seq<Reader>, session: string)
    requires Shaped(readers, session) && Separate(readers)
    ensures OnlyOnePlain(readers)
  {
    forall i, j | 0 <= i < |readers| && 0 <= j < |readers| && !readers[i].service && !readers[j].service ensures i == j {
      assert WellShaped(readers[i], session) && WellShaped(readers[j], session);
    }
  }

  /** Channels that are not service channels are held by plain readers only, and the other way round. */
  lemma ServiceApart(readers: seq<Reader>, session: string, r: Reader)
    requires Shaped(readers, session) && WellShaped(r, session) && forall i | 0 <= i < |readers| :: readers[i].service != r.service
    ensures forall c :: !(Subscribes([r], c) && Subscribes(readers, c))
  {
    SubscribesOne(r);
    forall c | c in r.channels ensures !Subscribes(readers, c) {
      forall i | 0 <= i < |readers| ensures c !in readers[i].channels { assert WellShaped(readers[i], session); }
    }
  }

  ghost predicate PlainsOnly(plain: seq<string>) {
    forall c | c in plain :: !IsService(c)
  }

  /** What giving the plain channels to the plain reader does. */
  ghost predicate Shares(readers: seq<Reader>, next: nat, session: string, plain: seq<string>, result: seq<Reader>) {
    && Identified(result, next) && Shaped(result, session) && HasPlain(result)
    && (forall id :: UsesId(result, id) ==> UsesId(readers, id))
    && (Separate(result) <==> Separate(readers))
    && (forall c :: Subscribes(result, c) <==> Subscribes(readers, c) || c in plain)
  }

  lemma WidenedReader(r: Reader, session: string, plain: seq<string>)
    requires WellShaped(r, session) && !r.service && PlainsOnly(plain)
    ensures WellShaped(r.(channels := WithKeys(r.channels, plain)), session)
    ensures forall c :: c in WithKeys(r.channels, plain) <==> c in r.channels || c in plain
  {
    PutKeysMembers(r.channels, plain);
  }

  lemma Alone(r: Reader, next: nat)
    requires r.id < next
    ensures Separate([r]) && Identified([r], next) && forall id :: UsesId([r], id) <==> id == r.id
  {
    assert [r][0] == r;
  }

  lemma HeadIds(r: Reader, rest: seq<Reader>, next: nat)
    requires Identified([r] + rest, next)
    ensures r.id < next && Identified(rest, next) && forall id :: !(UsesId([r], id) && UsesId(rest, id))
  {
    IdsApart([r] + rest, next);
    assert ([r] + rest)[0] == r && ([r] + rest)[1..] == rest;
  }

  lemma IdsApart(readers: seq<Reader>, next: nat)
    requires Identified(readers, next) && readers != []
    ensures readers[0].id < next && Identified(readers[1..], next)
    ensures forall id :: !(UsesId([readers[0]], id) && UsesId(readers[1..], id))
  {
    var rest := readers[1..];
    forall i | 0 <= i < |rest| ensures rest[i].id < next && rest[i].id != readers[0].id { assert rest[i] == readers[i + 1]; }
    forall i, j | 0 <= i < j < |rest| ensures rest[i].id != rest[j].id {
      assert rest[i] == readers[i + 1] && rest[j] == readers[j + 1];
    }
  }

  lemma RestServices(r: Reader, rest: seq<Reader>)
    requires OnlyOnePlain([r] + rest) && !r.service
    ensures forall i | 0 <= i < |rest| :: rest[i].service
  {
    var all := [r] + rest;
    assert !all[0].service;
    forall i | 0 <= i < |rest| ensures rest[i].service { assert all[i + 1] == rest[i]; }
  }

  lemma SharesPlain(r: Reader, rest: seq<Reader>, next: nat, session: string, plain: seq<string>)
    requires Identified([r] + rest, next) && Shaped([r] + rest, session) && OnlyOnePlain([r] + rest) && !r.service && PlainsOnly(plain)
    ensures Shares([r] + rest, next, session, plain, [r.(channels := WithKeys(r.channels, plain))] + rest)
  {
    hide Separate, PlainsOnly, WellShaped, Identified, OnlyOnePlain, UsesId, Subscribes, Shaped;
    var wide := r.(channels := WithKeys(r.channels, plain));
    var all, result := [r] + rest, [wide] + rest;
    ShapedConcat([r], rest, session);
    ShapedOne(r, session);
    WidenedReader(r, session, plain);
    OneShaped(wide, session);
    ShapedConcat([wide], rest, session);
    HeadIds(r, rest, next);
    RestServices(r, rest);
    ServiceApart(rest, session, r);
    ServiceApart(rest, session, wide);
    SeparateConcat([r], rest);
    SeparateConcat([wide], rest);
    Alone(r, next);
    Alone(wide, next);
    IdentifiedConcat([wide], rest, next);
    SubscribesOne(r);
    SubscribesOne(wide);
    forall c ensures Subscribes(result, c) <==> Subscribes(all, c) || c in plain {
      SubscribesConcat([r], rest, c);
      SubscribesConcat([wide], rest, c);
    }
    forall id ensures UsesId(result, id) ==> UsesId(all, id) {
      UsesIdConcat([r], rest, id);
      UsesIdConcat([wide], rest, id);
    }
    assert !result[0].service;
  }

  lemma ShapedOne(r: Reader, session: string)
    requires Shaped([r], session)
    ensures WellShaped(r, session)
  {
    assert [r][0] == r;
  }

  lemma SharesService(r: Reader, rest: seq<Reader>, next: nat, session: string, plain: seq<string>, more: seq<Reader>)
    requires Identified([r] + rest, next) && WellShaped(r, session) && r.service && PlainsOnly(plain)
    requires Shares(rest, next, session, plain, more)
    ensures Shares([r] + rest, next, session, plain, [r] + more)
  {
    hide Separate, Shaped, HasPlain;
    var all := [r] + rest;
    Alone(r, next);
    SubscribesOne(r);
    SeparateConcat([r], rest);
    SeparateConcat([r], more);
    ShapedConcat([r], more, session);
    OneShaped(r, session);
    HasPlainConcat([r], more);
    forall id ensures !(UsesId([r], id) && UsesId(more, id)) {
      if UsesId(rest, id) {
        var i :| 0 <= i < |rest| && rest[i].id == id;
        assert all[0].id == r.id && all[i + 1].id == id;
      }
    }
    assert r.id < next by { assert all[0] == r; }
    IdentifiedConcat([r], more, next);
    forall c ensures Subscribes([r] + more, c) <==> Subscribes(all, c) || c in plain {
      SubscribesConcat([r], rest, c);
      SubscribesConcat([r], more, c);
    }
    forall id ensures UsesId([r] + more, id) ==> UsesId(all, id) {
      UsesIdConcat([r], rest, id);
      UsesIdConcat([r], more, id);
    }
    forall c | Subscribes([r], c) ensures IsService(c) && c !in plain { }
  }

  lemma OneShaped(r: Reader, session: string)
    requires WellShaped(r, session)
    ensures Shaped([r], session)
  {
  }

  /** Behind a service reader, the other readers are shaped in the same way. */
  lemma ServiceRest(readers: seq<Reader>, session: string)
    requires readers != [] && readers[0].service && Shaped(readers, session) && HasPlain(readers) && OnlyOnePlain(readers)
    ensures Shaped(readers[1..], session) && HasPlain(readers[1..]) && OnlyOnePlain(readers[1..])
  {
    hide WellShaped;
    var rest := readers[1..];
    forall i | 0 <= i < |rest| ensures WellShaped(rest[i], session) { assert WellShaped(readers[i + 1], session); }
    var i :| 0 <= i < |readers| && !readers[i].service;
    assert !rest[i - 1].service;
    forall i, j | 0 <= i < |rest| && 0 <= j < |rest| && !rest[i].service && !rest[j].service ensures i == j {
      assert !readers[i + 1].service && !readers[j + 1].service;
    }
  }

  lemma HeadShaped(readers: seq<Reader>, session: string)
    requires readers != [] && Shaped(readers, session)
    ensures WellShaped(readers[0], session)
  {
  }

  lemma {:induction false} AddPlainShares(readers: seq<Reader>, next: nat, session: string, plain: seq<string>)
    requires Identified(readers, next) && Shaped(readers, session) && HasPlain(readers) && OnlyOnePlain(readers) && PlainsOnly(plain)
    ensures Shares(readers, next, session, plain, AddPlain(readers, plain, next))
    decreases |readers|
  {
    hide Shares, PlainsOnly, WellShaped, Shaped, Identified, OnlyOnePlain;
    var r, rest := readers[0], readers[1..];
    assert readers == [r] + rest;
    if !r.service {
      SharesPlain(r, rest, next, session, plain);
    } else {
      IdsApart(readers, next);
      ServiceRest(readers, session);
      assert WellShaped(r, session) by { HeadShaped(readers, session); }
      AddPlainShares(rest, next, session, plain);
      SharesService(r, rest, next, session, plain, AddPlain(rest, plain, next));
    }
  }

  // ---- the main results ----

  /**
   The requests that keep the readers a partition. A removal lists no subscribed service channel
   more than once; otherwise the service channels that the request gets to are new and distinct.
   */
  ghost predicate KeepsPartition(readers: seq<Reader>, op: Operation, channels: seq<string>, access: string -> Access) {
    match op
    case REMOVE => ListedOnce(channels, readers)
    case Other => true
    case _ => NewServices(Reached(channels, access), readers)
  }

  ghost predicate ValidReaders(readers: seq<Reader>, next: nat, session: string) {
    Partitioned(readers, session) && Identified(readers, next) && !IsService(session)
  }

  lemma KeptReaders(readers: seq<Reader>, next: nat, session: string, op: Operation, channels: seq<string>)
    requires ValidReaders(readers, next, session)
    ensures var subscribed := SubscribedIn(readers, []);
            var remove := RemoveList(op, channels, subscribed, session);
            CutTo(readers, next, session, remove, op == REMOVE && !ListedOnce(channels, readers), AfterRemoval(readers, remove, subscribed))
  {
    hide Separate, Identified, Shaped, HasPlain, RemoveList, AfterRemoval, CutTo;
    var subscribed := SubscribedIn(readers, []);
    var remove := RemoveList(op, channels, subscribed, session);
    RemoveMembers(readers, op, channels, session, session);
    PartitionFits(readers, next, remove);
    RemovalCut(readers, next, session, remove, subscribed);
    NoDoublesIff(readers, next, session, op, channels);
  }

  lemma SameNewServices(readers: seq<Reader>, kept: seq<Reader>, reached: seq<string>)
    requires forall c | c in reached :: Subscribes(kept, c) <==> Subscribes(readers, c)
    ensures NewServices(reached, kept) <==> NewServices(reached, readers)
  {
    hide Subscribes, IsService;
    forall i | 0 <= i < |reached| ensures Subscribes(kept, reached[i]) <==> Subscribes(readers, reached[i]) { assert reached[i] in reached; }
  }

  /** What subscribing does to a list of readers with one plain reader. */
  lemma SubscribeAdds(readers: seq<Reader>, next: nat, session: string, channels: seq<string>, access: string -> Access)
    requires Identified(readers, next) && Shaped(readers, session) && Separate(readers) && HasPlain(readers)
    ensures var added, reached := Subscribe(readers, next, channels, access), Reached(channels, access);
            && Identified(added.readers, added.next) && Shaped(added.readers, session) && HasPlain(added.readers)
            && (Separate(added.readers) <==> NewServices(reached, readers))
            && (added.failure == None ==> forall c :: Subscribes(added.readers, c) <==> Subscribes(readers, c) || c in channels)
  {
    hide Identified, Shaped, HasPlain, Separate, Subscribes, IsService, NewServices, AddLoop, AddPlain, Reached, OnlyOnePlain, UsesId;
    OnlyOne(readers, session);
    AddLoopAdds(readers, next, session, [], channels, access);
    var looped := AddLoop(readers, next, [], channels, access);
    if looped.failure == None && looped.plain != [] {
      assert PlainsOnly(looped.plain);
      AddPlainShares(looped.readers, looped.next, session, looped.plain);
      MoreIds(AddPlain(looped.readers, looped.plain, looped.next), looped.next);
      forall c ensures Subscribes(AddPlain(looped.readers, looped.plain, looped.next), c) <==> Subscribes(readers, c) || c in channels { }
    } else if looped.failure == None {
      forall c ensures Subscribes(looped.readers, c) <==> Subscribes(readers, c) || c in channels { assert c in looped.plain <==> false; }
    }
  }

  lemma MoreIds(readers: seq<Reader>, next: nat)
    requires Identified(readers, next)
    ensures Identified(readers, next + 1)
  {
  }

  /**
   Every exit path: after a request the readers still partition the subscribed channels, with
   exactly one plain reader and no empty one, if and only if the request is one of those above.
   */
  lemma PartitionIff(readers: seq<Reader>, next: nat, session: string, op: Operation, channels: seq<string>, access: string -> Access)
    requires ValidReaders(readers, next, session)
    ensures var (after, next', _) := Process(readers, next, session, op, channels, access);
            && Identified(after, next')
            && (Partitioned(after, session) <==> KeepsPartition(readers, op, channels, access))
  {
    hide Identified, Shaped, HasPlain, Separate, Subscribes, IsService, NewServices, AfterRemoval, RemoveList, Subscribe, Reached, ListedOnce, UsesId;
    KeptReaders(readers, next, session, op, channels);
    if op == ADD || op == SET {
      var subscribed := SubscribedIn(readers, []);
      var kept := AfterRemoval(readers, RemoveList(op, channels, subscribed, session), subscribed);
      SubscribeAdds(kept, next, session, channels, access);
      ReachedMembers(channels, access);
      forall c | c in Reached(channels, access) ensures Subscribes(kept, c) <==> Subscribes(readers, c) {
        RemoveMembers(readers, op, channels, session, c);
      }
      SameNewServices(readers, kept, Reached(channels, access));
    }
  }

  lemma ReachedMembers(channels: seq<string>, access: string -> Access)
    ensures forall c | c in Reached(channels, access) :: c in channels
  {
  }

  /** The channels subscribed after a request that succeeds. */
  ghost predicate Expected(readers: seq<Reader>, session: string, op: Operation, channels: seq<string>, c: string) {
    match op
    case ADD => Subscribes(readers, c) || c in channels
    case SET => c in channels || c == session
    case REMOVE => Subscribes(readers, c) && (c !in channels || c == session)
    case Other => Subscribes(readers, c)
  }

  /** A successful request yields exactly the channels it asks for, and reports them. */
  lemma SubscribedSets(readers: seq<Reader>, next: nat, session: string, op: Operation, channels: seq<string>, access: string -> Access, c: string)
    requires ValidReaders(readers, next, session)
    requires Process(readers, next, session, op, channels, access).2.Reply?
    ensures var (after, _, outcome) := Process(readers, next, session, op, channels, access);
            && (Subscribes(after, c) <==> Expected(readers, session, op, channels, c))
            && (c in outcome.subscribed <==> Subscribes(after, c))
  {
    hide Identified, Shaped, HasPlain, Separate, Subscribes, IsService, NewServices, AfterRemoval, RemoveList, Subscribe, Reached, UsesId, SubscribedIn, Keys;
    KeptReaders(readers, next, session, op, channels);
    RemoveMembers(readers, op, channels, session, c);
    SessionSubscribed(readers, session);
    var subscribed := SubscribedIn(readers, []);
    var kept := AfterRemoval(readers, RemoveList(op, channels, subscribed, session), subscribed);
    KeysMembers(kept, c);
    if op == ADD || op == SET {
      SubscribeAdds(kept, next, session, channels, access);
      FailureIsNoReply(kept, next, channels, access);
      KeysMembers(Subscribe(kept, next, channels, access).readers, c);
    }
  }

  /** The first channel that is not granted. */
  ghost predicate FirstRefused(channels: seq<string>, access: string -> Access, n: nat) {
    n < |channels| && access(channels[n]) != Granted && forall i | 0 <= i < n :: access(channels[i]) == Granted
  }

  function Refusal(channel: string, access: Access): Outcome
    requires access != Granted
  {
    if access == Denied then AccessDenied(channel) else InvalidChannel(channel)
  }

  lemma {:induction false} RefusedAt(readers: seq<Reader>, next: nat, plain: seq<string>, channels: seq<string>, access: string -> Access, n: nat)
    requires FirstRefused(channels, access, n)
    ensures Reached(channels, access) == channels[..n]
    ensures AddLoop(readers, next, plain, channels, access).failure == Some(Refusal(channels[n], access(channels[n])))
    decreases |channels|
  {
    if n > 0 {
      var rest := channels[1..];
      forall i | 0 <= i < n - 1 ensures access(rest[i]) == Granted { assert rest[i] == channels[i + 1]; }
      if IsService(channels[0]) {
        RefusedAt(readers + [Reader(next, true, [channels[0]])], next + 1, plain, rest, access, n - 1);
      } else {
        RefusedAt(readers, next, WithKeys(plain, [channels[0]]), rest, access, n - 1);
      }
      assert channels[..n] == [channels[0]] + rest[..n - 1];
    }
  }

  lemma {:induction false} AllReached(readers: seq<Reader>, next: nat, plain: seq<string>, channels: seq<string>, access: string -> Access)
    requires forall i | 0 <= i < |channels| :: access(channels[i]) == Granted
    ensures AddLoop(readers, next, plain, channels, access).failure == None
    decreases |channels|
  {
    if channels != [] {
      var rest := channels[1..];
      forall i | 0 <= i < |rest| ensures access(rest[i]) == Granted { assert rest[i] == channels[i + 1]; }
      if IsService(channels[0]) {
        AllReached(readers + [Reader(next, true, [channels[0]])], next + 1, plain, rest, access);
      } else {
        AllReached(readers, next, WithKeys(plain, [channels[0]]), rest, access);
      }
    }
  }

  /** A request succeeds exactly if it is a removal, or adds or sets channels all of which are granted; an invalid one changes nothing. */
  lemma RequestSucceedsIff(readers: seq<Reader>, next: nat, session: string, op: Operation, channels: seq<string>, access: string -> Access)
    ensures var (after, _, outcome) := Process(readers, next, session, op, channels, access);
            && (outcome.Reply? <==>
                  op == REMOVE || ((op == ADD || op == SET) && forall i | 0 <= i < |channels| :: access(channels[i]) == Granted))
            && (op == Other ==> outcome == InvalidOperation && after == readers)
  {
    hide AfterRemoval, RemoveList, SubscribedIn, AddLoop, AddPlain, Keys;
    var subscribed := SubscribedIn(readers, []);
    var kept := AfterRemoval(readers, RemoveList(op, channels, subscribed, session), subscribed);
    if forall i | 0 <= i < |channels| :: access(channels[i]) == Granted {
      AllReached(kept, next, [], channels, access);
    } else {
      var n := FindRefused(channels, access);
      RefusedAt(kept, next, [], channels, access, n);
    }
  }

  lemma {:induction false} FindRefused(channels: seq<string>, access: string -> Access) returns (n: nat)
    requires exists i :: 0 <= i < |channels| && access(channels[i]) != Granted
    ensures FirstRefused(channels, access, n)
    decreases |channels|
  {
    if access(channels[0]) != Granted {
      n := 0;
    } else {
      var i :| 0 <= i < |channels| && access(channels[i]) != Granted;
      assert channels[1..][i - 1] == channels[i];
      var m := FindRefused(channels[1..], access);
      n := m + 1;
      forall j | 0 <= j < n ensures access(channels[j]) == Granted { if j > 0 { assert channels[1..][j - 1] == channels[j]; } }
    }
  }

  /**
   A request that fails names the first channel that is not granted, with the reason. What is
   subscribed then: the channels kept by the request, and the service channels it got to before
   the failure. None of its plain channels is added.
   */
  lemma FailedSets(readers: seq<Reader>, next: nat, session: string, op: Operation, channels: seq<string>, access: string -> Access,
      n: nat, c: string)
    requires ValidReaders(readers, next, session) && (op == ADD || op == SET) && FirstRefused(channels, access, n)
    ensures var (after, _, outcome) := Process(readers, next, session, op, channels, access);
            && outcome == Refusal(channels[n], access(channels[n]))
            && (Subscribes(after, c) <==>
                  || (Subscribes(readers, c) && (op == ADD || c in channels || c == session))
                  || (IsService(c) && c in channels[..n]))
  {
    hide Identified, Shaped, HasPlain, Separate, Subscribes, IsService, NewServices, AfterRemoval, RemoveList, Reached, UsesId, SubscribedIn, Keys,
      AddLoop, AddPlain, OnlyOnePlain;
    KeptReaders(readers, next, session, op, channels);
    RemoveMembers(readers, op, channels, session, c);
    var subscribed := SubscribedIn(readers, []);
    var kept := AfterRemoval(readers, RemoveList(op, channels, subscribed, session), subscribed);
    RefusedAt(kept, next, [], channels, access, n);
    AddLoopAdds(kept, next, session, [], channels, access);
  }

  lemma SessionSubscribed(readers: seq<Reader>, session: string)
    requires Shaped(readers, session) && HasPlain(readers)
    ensures Subscribes(readers, session)
  {
    var i :| 0 <= i < |readers| && !readers[i].service;
    assert WellShaped(readers[i], session);
  }

  lemma {:induction false} FailureIsNoReply(readers: seq<Reader>, next: nat, channels: seq<string>, access: string -> Access)
    ensures Subscribe(readers, next, channels, access).failure.Some? ==> !Subscribe(readers, next, channels, access).failure.value.Reply?
  {
    LoopFailure(readers, next, [], channels, access);
  }

  lemma {:induction false} LoopFailure(readers: seq<Reader>, next: nat, plain: seq<string>, channels: seq<string>, access: string -> Access)
    ensures AddLoop(readers, next, plain, channels, access).failure.Some? ==> !AddLoop(readers, next, plain, channels, access).failure.value.Reply?
    decreases |channels|
  {
    if channels != [] && access(channels[0]) == Granted {
      if IsService(channels[0]) {
        LoopFailure(readers + [Reader(next, true, [channels[0]])], next + 1, plain, channels[1..], access);
      } else {
        LoopFailure(readers, next, WithKeys(plain, [channels[0]]), channels[1..], access);
      }
    }
  }

  /** The first subscription of a connection: the user channel and the session channel share one plain reader. */
  lemma Connected(session: string, user: string, access: string -> Access)
    requires !IsService(session) && !IsService(user) && access(session) == Granted && access(user) == Granted && user != session
    ensures var (readers, next, outcome) := Process([], 0, session, ADD, [user, session], access);
            ValidReaders(readers, next, session) && outcome == Reply([user, session])
  {
    var channels, none: seq<string> := [user, session], [];
    var r := Reader(0, false, channels);
    assert channels[1..] == [session] && [session][1..] == none && none + [user] == [user] && [user] + [session] == channels;
    assert WithKeys(none, channels) == channels by {
      assert WithKeys([user], [session]) == WithKeys(channels, none);
      assert WithKeys(none, channels) == WithKeys([user], [session]);
    }
    assert WithKeys(none, [user]) == [user] by { assert WithKeys([user], none) == [user] && [user][1..] == none; }
    assert WithKeys([user], [session]) == channels by { assert WithKeys(channels, none) == channels; }
    assert AddLoop([], 0, none, channels, access) == Added([], 0, channels, None) by {
      assert AddLoop([], 0, channels, none, access) == Added([], 0, channels, None);
      assert AddLoop([], 0, [user], [session], access) == AddLoop([], 0, channels, none, access);
    }
    assert Process([], 0, session, ADD, channels, access).0 == [r];
    ConnectedReply(r, user, session);
    Alone(r, 1);
    OneShaped(r, session);
    assert ![r][0].service;
  }

  lemma ConnectedReply(r: Reader, user: string, session: string)
    requires r == Reader(0, false, [user, session]) && user != session
    ensures Keys(SubscribedIn([r], [])) == [user, session]
  {
    var one: Dict<nat> := [(user, 0)];
    var both: Dict<nat> := [(user, 0), (session, 0)];
    assert [user, session][1..] == [session] && [session][1..] == [] && [r][1..] == [];
    assert Put([], user, 0) == one && one[1..] == [] && Put(one, session, 0) == both;
    assert PutAll(one, [session], 0) == PutAll(both, [], 0) == both;
    assert PutAll([], r.channels, 0) == PutAll(one, [session], 0);
    assert SubscribedIn([r], []) == SubscribedIn([], both) == both;
  }

  // ---- the websocket object ----

  function MapAll(names: seq<string>, f: string -> string): (r: seq<string>)
    ensures |r| == |names| && forall i | 0 <= i < |names| :: r[i] == f(names[i])
  {
    seq(|names|, i requires 0 <= i < |names| => f(names[i]))
  }

  /** The readers after those in `order` had their channels removed. */
  function AfterSome(readers: seq<Reader>, lists: map<nat, seq<string>>): seq<Reader> {
    if readers == [] then []
    else Reduced(readers[0], if readers[0].id in lists then lists[readers[0].id] else []) + AfterSome(readers[1..], lists)
  }

  class MessagebusWebsocket {
    var readers: seq<Reader>
    var nextId: nat
    const session: string

    constructor (session: string)
      ensures readers == [] && nextId == 0 && this.session == session
    {
      this.session := session;
      readers, nextId := [], 0;
    }

    method GetSubscribedChannels() returns (channels: Dict<nat>)
      ensures channels == SubscribedIn(readers, [])
    {
      channels := [];
      for k := 0 to |readers|
        invariant SubscribedIn(readers[k..], channels) == SubscribedIn(readers, [])
      {
        var reader := readers[k];
        ghost var before := channels;
        for j := 0 to |reader.channels|
          invariant PutAll(channels, reader.channels[j..], reader.id) == PutAll(before, reader.channels, reader.id)
        {
          assert reader.channels[j..][0] == reader.channels[j] && reader.channels[j..][1..] == reader.channels[j + 1..];
          channels := Put(channels, reader.channels[j], reader.id);
        }
        assert readers[k..][0] == reader && readers[k..][1..] == readers[k + 1..];
      }
    }

    method RequestedToRemove(channels: seq<string>, subscribed: Dict<nat>) returns (remove: seq<string>)
      ensures remove == Requested(channels, subscribed, session)
    {
      hide Lookup, Requested;
      remove := [];
      assert channels[0..] == channels;
      for k := 0 to |channels|
        invariant remove + Requested(channels[k..], subscribed, session) == Requested(channels, subscribed, session)
      {
        RequestedNext(channels, k, subscribed, session, remove);
        if channels[k] != session && Lookup(subscribed, channels[k]).Some? {
          remove := remove + [channels[k]];
        }
      }
      RequestedEnd(channels, subscribed, session, remove);
    }

    method ObsoleteToRemove(channels: seq<string>, subscribed: Dict<nat>) returns (remove: seq<string>)
      ensures remove == Obsolete(Keys(subscribed), channels, session)
    {
      var names := Keys(subscribed);
      remove := [];
      for k := 0 to |names|
        invariant remove + Obsolete(names[k..], channels, session) == Obsolete(names, channels, session)
      {
        assert names[k..][0] == names[k] && names[k..][1..] == names[k + 1..];
        ghost var more := Obsolete(names[k + 1..], channels, session);
        assert remove + ([names[k]] + more) == (remove + [names[k]]) + more && remove + ([] + more) == remove + more;
        if names[k] != session && names[k] !in channels {
          remove := remove + [names[k]];
        }
      }
    }

    method ChannelsToRemove(op: Operation, channels: seq<string>, subscribed: Dict<nat>) returns (remove: seq<string>)
      ensures remove == RemoveList(op, channels, subscribed, session)
    {
      remove := [];
      if op == REMOVE {
        remove := RequestedToRemove(channels, subscribed);
      } else if op == SET {
        remove := ObsoleteToRemove(channels, subscribed);
      }
    }

    /** The loop that collects, reader by reader, the channels to remove. */
    method ByReader(remove: seq<string>, subscribed: Dict<nat>) returns (order: seq<nat>, lists: map<nat, seq<string>>)
      ensures Collected(order, lists, remove, subscribed)
    {
      hide Collected, ChannelsOf, Lookup;
      order, lists := [], map[];
      NothingCollected(subscribed);
      assert remove[..0] == [];
      for k := 0 to |remove|
        invariant Collected(order, lists, remove[..k], subscribed)
      {
        assert remove[..k + 1] == remove[..k] + [remove[k]];
        OneMoreCollected(order, lists, remove[..k], remove[k], subscribed);
        match Lookup(subscribed, remove[k])
        case None =>
        case Some(id) =>
          ghost var was := lists;
          if id !in lists {
            lists := lists[id := []];
            order := order + [id];
          }
          lists := lists[id := lists[id] + [remove[k]]];
          assert lists == was[id := (if id in was then was[id] else []) + [remove[k]]];
      }
      assert remove[..|remove|] == remove;
    }

    /** Stopping a reader, or removing some of its channels. */
    method ReduceReader(id: nat, chans: seq<string>)
      requires chans != [] && Identified(readers, nextId)
      modifies this`readers
      ensures readers == AfterSome(old(readers), map[id := chans]) && Identified(readers, nextId)
    {
      hide AfterSome, Minus;
      SomeIdentified(readers, nextId, map[id := chans]);
      var k := 0;
      while k < |readers| && readers[k].id != id
        invariant 0 <= k <= |readers| && forall j | 0 <= j < k :: readers[j].id != id
      {
        k := k + 1;
      }
      if k == |readers| {
        NoneAffected(readers, map[id := chans]);
        return;
      }
      OneAffected(readers, nextId, k, chans);
      var reader := readers[k];
      if multiset(chans) == multiset(reader.channels) {
        readers := readers[..k] + [] + readers[k + 1..];
      } else {
        readers := readers[..k] + [reader.(channels := Minus(reader.channels, chans))] + readers[k + 1..];
      }
    }

    /** The loop over the readers that lose channels. */
    method RemoveChannels(remove: seq<string>, subscribed: Dict<nat>)
      requires Identified(readers, nextId)
      modifies this`readers
      ensures readers == AfterRemoval(old(readers), remove, subscribed) && Identified(readers, nextId)
    {
      hide AfterSome, AfterRemoval, ChannelsOf, Identified, FirstLists;
      var order, lists := ByReader(remove, subscribed);
      ghost var before := readers;
      NoneAffected(readers, map[]);
      FirstListsEnds(order, lists);
      for k := 0 to |order|
        invariant readers == AfterSome(before, FirstLists(order[..k], lists)) && Identified(readers, nextId)
      {
        NextLists(order, k, lists);
        SomeTwice(before, FirstLists(order[..k], lists), map[order[k] := lists[order[k]]]);
        ReduceReader(order[k], lists[order[k]]);
      }
      SomeIsRemoval(before, order, lists, remove, subscribed);
    }

    /** The loop over the channels to subscribe; it stops at the first one that is not granted. */
    method AddChannels(channels: seq<string>, access: string -> Access) returns (plain: seq<string>, failure: Option<Outcome>)
      modifies this`readers, this`nextId
      ensures Added(readers, nextId, plain, failure) == AddLoop(old(readers), old(nextId), [], channels, access)
    {
      plain, failure := [], None;
      ghost var result := AddLoop(readers, nextId, [], channels, access);
      for k := 0 to |channels|
        invariant AddLoop(readers, nextId, plain, channels[k..], access) == result
      {
        assert channels[k..][0] == channels[k] && channels[k..][1..] == channels[k + 1..];
        match access(channels[k])
        case Denied =>
          return plain, Some(AccessDenied(channels[k]));
        case InvalidName =>
          return plain, Some(InvalidChannel(channels[k]));
        case Granted =>
          if IsService(channels[k]) {
            readers, nextId := readers + [Reader(nextId, true, [channels[k]])], nextId + 1;
          } else {
            plain := WithKeys(plain, [channels[k]]);
          }
      }
    }

    /** The plain channels go to the first plain reader, or to a new one. */
    method AddPlainChannels(plain: seq<string>)
      modifies this`readers
      ensures readers == AddPlain(old(readers), plain, nextId)
    {
      hide AddPlain, WithKeys;
      var k := 0;
      while k < |readers| && readers[k].service
        invariant 0 <= k <= |readers| && readers == old(readers)
        invariant forall i | 0 <= i < k :: readers[i].service
      {
        k := k + 1;
      }
      AddPlainAt(readers, plain, nextId, k);
      if k < |readers| {
        readers := readers[..k] + [readers[k].(channels := WithKeys(readers[k].channels, plain))] + readers[k + 1..];
      } else {
        readers := readers + [Reader(nextId, false, WithKeys([], plain))];
      }
    }

    /** One subscription request, from the names in the message to the outcome that is reported. */
    method ProcessSubscription(op: Operation, names: seq<string>, canonical: string -> string, access: string -> Access)
      returns (outcome: Outcome)
      requires Identified(readers, nextId)
      modifies this`readers, this`nextId
      ensures (readers, nextId, outcome) == Process(old(readers), old(nextId), session, op, MapAll(names, canonical), access)
    {
      hide AfterRemoval, RemoveList, AddLoop, AddPlain, SubscribedIn, Keys, Identified;
      if op == Other {
        return InvalidOperation;
      }
      var subscribed := GetSubscribedChannels();
      var channels := MapAll(names, canonical);
      var remove := ChannelsToRemove(op, channels, subscribed);
      RemoveChannels(remove, subscribed);
      if op == SET || op == ADD {
        var plain, failure := AddChannels(channels, access);
        if failure.Some? {
          return failure.value;
        }
        if plain != [] {
          AddPlainChannels(plain);
          nextId := nextId + 1;
        }
      }
      subscribed := GetSubscribedChannels();
      return Reply(Keys(subscribed));
    }
  }

  lemma NothingCollected(subscribed: Dict<nat>)
    ensures Collected([], map[], [], subscribed)
  {
  }

  lemma OneMoreChannel(remove: seq<string>, c: string, subscribed: Dict<nat>)
    ensures forall id: nat :: ChannelsOf(remove + [c], subscribed, id)
              == if Lookup(subscribed, c) == Some(id) then ChannelsOf(remove, subscribed, id) + [c] else ChannelsOf(remove, subscribed, id)
  {
    hide Lookup, ChannelsOf;
    forall id: nat
      ensures ChannelsOf(remove + [c], subscribed, id)
                == if Lookup(subscribed, c) == Some(id) then ChannelsOf(remove, subscribed, id) + [c] else ChannelsOf(remove, subscribed, id)
    {
      ChannelsOfConcat(remove, [c], subscribed, id);
      LastChannel(c, subscribed, id);
      assert ChannelsOf(remove, subscribed, id) + [] == ChannelsOf(remove, subscribed, id);
    }
  }

  lemma OneMoreCollected(order: seq<nat>, lists: map<nat, seq<string>>, remove: seq<string>, c: string, subscribed: Dict<nat>)
    requires Collected(order, lists, remove, subscribed)
    ensures var holder := Lookup(subscribed, c);
            && (holder == None ==> Collected(order, lists, remove + [c], subscribed))
            && (holder.Some? && holder.value in lists ==>
                  Collected(order, lists[holder.value := lists[holder.value] + [c]], remove + [c], subscribed))
            && (holder.Some? && holder.value !in lists ==>
                  Collected(order + [holder.value], lists[holder.value := [] + [c]], remove + [c], subscribed))
  {
    hide Lookup, ChannelsOf;
    OneMoreChannel(remove, c, subscribed);
    var holder := Lookup(subscribed, c);
    if holder.Some? && holder.value !in lists {
      assert ChannelsOf(remove, subscribed, holder.value) == [];
      assert forall id :: id in order + [holder.value] <==> id in order || id == holder.value;
    }
  }

  lemma LastChannel(c: string, subscribed: Dict<nat>, id: nat)
    ensures ChannelsOf([c], subscribed, id) == if Lookup(subscribed, c) == Some(id) then [c] else []
  {
    assert [c][1..] == [];
  }

  function FirstLists(order: seq<nat>, lists: map<nat, seq<string>>): map<nat, seq<string>> {
    map id | id in order && id in lists :: lists[id]
  }

  lemma FirstListsEnds(order: seq<nat>, lists: map<nat, seq<string>>)
    ensures FirstLists(order[..0], lists) == map[]
    ensures (forall id :: id in lists <==> id in order) ==> FirstLists(order[..|order|], lists) == lists
  {
    assert order[..|order|] == order;
  }

  lemma RequestedNext(channels: seq<string>, k: nat, subscribed: Dict<nat>, session: string, before: seq<string>)
    requires k < |channels|
    ensures before + Requested(channels[k..], subscribed, session) ==
              (if channels[k] != session && Lookup(subscribed, channels[k]).Some? then before + [channels[k]] else before)
              + Requested(channels[k + 1..], subscribed, session)
  {
    hide Lookup;
    assert channels[k..][0] == channels[k] && channels[k..][1..] == channels[k + 1..];
  }

  lemma RequestedEnd(channels: seq<string>, subscribed: Dict<nat>, session: string, before: seq<string>)
    ensures before + Requested(channels[|channels|..], subscribed, session) == before
  {
    assert channels[|channels|..] == [];
  }

  lemma ConsSlices(readers: seq<Reader>, k: nat)
    requires 0 < k < |readers|
    ensures readers[1..][k - 1] == readers[k] && readers[1..][k..] == readers[k + 1..]
    ensures readers[..k] == [readers[0]] + readers[1..][..k - 1]
  {
  }

  lemma ConsSplit(first: Reader, a: seq<Reader>, mid: seq<Reader>, b: seq<Reader>)
    ensures [first] + (a + mid + b) == ([first] + a) + mid + b
  {
  }

  /** The readers with the plain channels added at a place, or in a new reader at the end. */
  function PlainAt(readers: seq<Reader>, plain: seq<string>, next: nat, k: nat): seq<Reader>
    requires k <= |readers|
  {
    if k < |readers| then readers[..k] + [readers[k].(channels := WithKeys(readers[k].channels, plain))] + readers[k + 1..]
    else readers + [Reader(next, false, WithKeys([], plain))]
  }

  lemma PlainAtHead(readers: seq<Reader>, plain: seq<string>, next: nat)
    requires readers != []
    ensures PlainAt(readers, plain, next, 0) == [readers[0].(channels := WithKeys(readers[0].channels, plain))] + readers[1..]
  {
    hide WithKeys;
    assert readers[..0] == [];
  }

  lemma PlainAtLater(readers: seq<Reader>, plain: seq<string>, next: nat, k: nat)
    requires 0 < k <= |readers|
    ensures PlainAt(readers, plain, next, k) == [readers[0]] + PlainAt(readers[1..], plain, next, k - 1)
  {
    hide WithKeys;
    if k < |readers| {
      ConsSlices(readers, k);
      ConsSplit(readers[0], readers[1..][..k - 1], [readers[k].(channels := WithKeys(readers[k].channels, plain))], readers[k + 1..]);
    } else {
      assert readers == [readers[0]] + readers[1..];
      ConsSplit(readers[0], readers[1..], [Reader(next, false, WithKeys([], plain))], []);
    }
  }

  /** The plain channels go to the first plain reader, or to a new one at the end. */
  lemma {:induction false} AddPlainAt(readers: seq<Reader>, plain: seq<string>, next: nat, k: nat)
    requires k <= |readers| && (forall i | 0 <= i < k :: readers[i].service) && (k < |readers| ==> !readers[k].service)
    ensures AddPlain(readers, plain, next) == PlainAt(readers, plain, next, k)
  {
    hide WithKeys, PlainAt;
    if k > 0 {
      PlainAtLater(readers, plain, next, k);
      assert forall i | 0 <= i < |readers[1..]| :: readers[1..][i] == readers[i + 1];
      AddPlainAt(readers[1..], plain, next, k - 1);
    } else if readers != [] {
      PlainAtHead(readers, plain, next);
    } else {
      PlainAtNone(plain, next);
    }
  }

  lemma PlainAtNone(plain: seq<string>, next: nat)
    ensures PlainAt([], plain, next, 0) == [Reader(next, false, WithKeys([], plain))]
  {
  }

  lemma NextLists(order: seq<nat>, k: nat, lists: map<nat, seq<string>>)
    requires k < |order| && order[k] in lists && forall i, j | 0 <= i < j < |order| :: order[i] != order[j]
    ensures FirstLists(order[..k + 1], lists) == FirstLists(order[..k], lists) + map[order[k] := lists[order[k]]]
    ensures order[k] !in FirstLists(order[..k], lists)
    ensures forall id | id in FirstLists(order[..k], lists) :: id in lists && FirstLists(order[..k], lists)[id] == lists[id]
  {
    assert order[..k + 1] == order[..k] + [order[k]];
  }

  lemma {:induction false} OneAffected(readers: seq<Reader>, next: nat, k: nat, chans: seq<string>)
    requires k < |readers| && Identified(readers, next) && forall j | 0 <= j < k :: readers[j].id != readers[k].id
    ensures AfterSome(readers, map[readers[k].id := chans]) == readers[..k] + Reduced(readers[k], chans) + readers[k + 1..]
  {
    hide Reduced;
    var lists := map[readers[k].id := chans];
    assert readers == readers[..k] + ([readers[k]] + readers[k + 1..]);
    SomeConcat(readers[..k], [readers[k]] + readers[k + 1..], lists);
    SomeConcat([readers[k]], readers[k + 1..], lists);
    NoneAffected(readers[..k], lists);
    NoneAffected(readers[k + 1..], lists);
    assert [readers[k]][1..] == [] && AfterSome([readers[k]], lists) == Reduced(readers[k], chans) + AfterSome([], lists);
  }

  ghost predicate Collected(order: seq<nat>, lists: map<nat, seq<string>>, remove: seq<string>, subscribed: Dict<nat>) {
    && (forall i, j | 0 <= i < j < |order| :: order[i] != order[j])
    && (forall id :: id in order <==> id in lists)
    && (forall id | id in lists :: lists[id] == ChannelsOf(remove, subscribed, id) && lists[id] != [])
    && (forall id: nat | id !in lists :: ChannelsOf(remove, subscribed, id) == [])
  }

  lemma {:induction false} ChannelsOfConcat(a: seq<string>, b: seq<string>, subscribed: Dict<nat>, id: nat)
    ensures ChannelsOf(a + b, subscribed, id) == ChannelsOf(a, subscribed, id) + ChannelsOf(b, subscribed, id)
  {
    if a == [] {
      assert a + b == b;
    } else {
      assert (a + b)[1..] == a[1..] + b;
      ChannelsOfConcat(a[1..], b, subscribed, id);
    }
  }

  lemma {:induction false} SomeIdentified(readers: seq<Reader>, next: nat, lists: map<nat, seq<string>>)
    requires Identified(readers, next)
    ensures Identified(AfterSome(readers, lists), next) && forall id :: UsesId(AfterSome(readers, lists), id) ==> UsesId(readers, id)
  {
    if readers != [] {
      var r, rest := readers[0], readers[1..];
      assert readers == [r] + rest;
      HeadIds(r, rest, next);
      SomeIdentified(rest, next, lists);
      var chans := if r.id in lists then lists[r.id] else [];
      assert |Reduced(r, chans)| <= 1;
      ReducedSeparate(r, chans, next);
      IdentifiedConcat(Reduced(r, chans), AfterSome(rest, lists), next);
      Alone(r, next);
      forall id ensures UsesId(AfterSome(readers, lists), id) ==> UsesId(readers, id) {
        UsesIdConcat(Reduced(r, chans), AfterSome(rest, lists), id);
        UsesIdConcat([r], rest, id);
      }
    }
  }

  lemma {:induction false} NoneAffected(readers: seq<Reader>, lists: map<nat, seq<string>>)
    requires forall i | 0 <= i < |readers| :: readers[i].id !in lists
    ensures AfterSome(readers, lists) == readers
  {
    if readers != [] {
      NoneAffected(readers[1..], lists);
      assert readers == [readers[0]] + readers[1..];
    }
  }

  lemma {:induction false} SomeConcat(a: seq<Reader>, b: seq<Reader>, lists: map<nat, seq<string>>)
    ensures AfterSome(a + b, lists) == AfterSome(a, lists) + AfterSome(b, lists)
  {
    if a == [] {
      assert a + b == b;
    } else {
      assert (a + b)[1..] == a[1..] + b;
      SomeConcat(a[1..], b, lists);
    }
  }

  /** Removing from different readers one after the other. */
  lemma {:induction false} SomeTwice(readers: seq<Reader>, lists: map<nat, seq<string>>, more: map<nat, seq<string>>)
    requires lists.Keys !! more.Keys && forall id | id in lists :: lists[id] != []
    ensures AfterSome(AfterSome(readers, lists), more) == AfterSome(readers, lists + more)
  {
    if readers != [] {
      var r := readers[0];
      var chans := if r.id in lists then lists[r.id] else [];
      SomeTwice(readers[1..], lists, more);
      SomeConcat(Reduced(r, chans), AfterSome(readers[1..], lists), more);
      SomeOne(r, lists, more);
    }
  }

  lemma SomeOne(r: Reader, lists: map<nat, seq<string>>, more: map<nat, seq<string>>)
    requires lists.Keys !! more.Keys
    ensures var chans := if r.id in lists then lists[r.id] else [];
            AfterSome(Reduced(r, chans), more) == Reduced(r, if r.id in lists + more then (lists + more)[r.id] else [])
  {
    var chans := if r.id in lists then lists[r.id] else [];
    var result := Reduced(r, chans);
    if result != [] {
      assert result[1..] == [] && AfterSome(result[1..], more) == [];
      assert r.id in lists ==> r.id !in more;
      assert AfterSome(result, more) == Reduced(result[0], if r.id in more then more[r.id] else []) + [];
    }
  }

  lemma {:induction false} SomeIsRemoval(readers: seq<Reader>, order: seq<nat>, lists: map<nat, seq<string>>, remove: seq<string>, subscribed: Dict<nat>)
    requires Collected(order, lists, remove, subscribed)
    ensures AfterSome(readers, lists) == AfterRemoval(readers, remove, subscribed)
  {
    hide ChannelsOf;
    if readers != [] { SomeIsRemoval(readers[1..], order, lists, remove, subscribed); }
  }
}
