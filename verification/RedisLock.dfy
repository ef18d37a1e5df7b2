/**
 The lock in redis: a key that is set only if it does not exist, may expire, and is deleted in
 a transaction that redis performs only if the watched key was not modified. Any number of
 clients acquire, lose and release it at the same time.
 */
module RedisLock {
  import opened Wrappers

  type Client = nat

  /** The key; `expires` is the time at which redis forgets it. `version` counts the modifications that WATCH notices. */
  datatype Key = Key(value: Option<nat>, expires: Option<nat>, version: nat)

  /**
   Where a client stands: trying to set the key until a deadline, in the critical section, about
   to watch the key, after WATCH, or after it read its own identifier. `until` is when the lock
   that the client took expires.
   */
  datatype Phase =
    | Trying(deadline: nat, refused: bool)
    | Holding(until: Option<nat>)
    | Releasing(until: Option<nat>)
    | Watched(until: Option<nat>, version: nat)
    | Matched(until: Option<nat>, version: nat)

  /** One use of the lock: the unique identifier, and the lock timeout. */
  datatype Use = Use(id: nat, timeout: Option<nat>, phase: Phase)

  datatype State = State(key: Key, clients: map<Client, Use>, nextId: nat, now: nat)

  const INITIAL := State(Key(None, None, 0), map[], 0, 0)

  datatype Action =
    | Tick(time: nat)
    | Begin(c: Client, patience: nat, timeout: Option<nat>)
    | SetIfAbsent(c: Client)
    | GiveUp(c: Client)
    | Leave(c: Client)
    | Watch(c: Client)
    | Get(c: Client)
    | Execute(c: Client, expiryNoticed: bool)
    | Crash(c: Client)

  predicate Past(time: Option<nat>, now: nat) {
    time.Some? && time.value <= now
  }

  /** The key exists for redis. */
  predicate Live(s: State) {
    s.key.value.Some? && !Past(s.key.expires, s.now)
  }

  predicate In(s: State, c: Client) {
    c in s.clients
  }

  predicate Enabled(s: State, a: Action) {
    match a
    case Tick(time) => time >= s.now
    case Begin(c, _, timeout) => c !in s.clients && (timeout.Some? ==> timeout.value > 0)
    case SetIfAbsent(c) => In(s, c) && s.clients[c].phase.Trying?
    case GiveUp(c) => In(s, c) && s.clients[c].phase.Trying? && s.clients[c].phase.refused && s.clients[c].phase.deadline <= s.now
    case Leave(c) => In(s, c) && s.clients[c].phase.Holding?
    case Watch(c) => In(s, c) && s.clients[c].phase.Releasing?
    case Get(c) => In(s, c) && s.clients[c].phase.Watched?
    case Execute(c, noticed) =>
      In(s, c) && s.clients[c].phase.Matched? && (noticed ==> Past(s.key.expires, s.now))
    case Crash(c) => In(s, c)
  }

  function Move(s: State, c: Client, phase: Phase): State
    requires In(s, c)
  {
    s.(clients := s.clients[c := s.clients[c].(phase := phase)])
  }

  function Gone(s: State, c: Client): State {
    s.(clients := s.clients - {c})
  }

  function Do(s: State, a: Action): State
    requires Enabled(s, a)
  {
    match a
    case Tick(time) => s.(now := time)
    case Begin(c, patience, timeout) =>
      s.(clients := s.clients[c := Use(s.nextId, timeout, Trying(s.now + patience, false))], nextId := s.nextId + 1)
    case SetIfAbsent(c) =>
      var u := s.clients[c];
      if Live(s) then Move(s, c, Trying(u.phase.deadline, true))
      else
        var expires := if u.timeout.Some? then Some(s.now + u.timeout.value) else None;
        Move(s, c, Holding(expires)).(key := Key(Some(u.id), expires, s.key.version + 1))
    case GiveUp(c) => Gone(s, c)
    case Leave(c) => Move(s, c, Releasing(s.clients[c].phase.until))
    case Watch(c) => Move(s, c, Watched(s.clients[c].phase.until, s.key.version))
    case Get(c) =>
      var u := s.clients[c];
      if Live(s) && s.key.value == Some(u.id) then Move(s, c, Matched(u.phase.until, u.phase.version)) else Gone(s, c)
    case Execute(c, noticed) =>
      var u := s.clients[c];
      if s.key.version == u.phase.version && !noticed then Gone(s, c).(key := Key(None, None, s.key.version + 1))
      else Move(s, c, Releasing(u.phase.until))
    case Crash(c) => Gone(s, c)
  }

  // ---- the invariant ----

  predicate Owns(u: Use) {
    !u.phase.Trying?
  }

  /** The client took the lock, and its time has not run out. */
  predicate HoldsUnexpired(s: State, c: Client) {
    In(s, c) && Owns(s.clients[c]) && !Past(s.clients[c].phase.until, s.now)
  }

  ghost predicate UseInvariant(s: State, u: Use) {
    && u.id < s.nextId
    && (Owns(u) && !Past(u.phase.until, s.now) ==> s.key.value == Some(u.id) && s.key.expires == u.phase.until)
    && (u.phase.Watched? || u.phase.Matched? ==> u.phase.version <= s.key.version)
    && (u.phase.Matched? && u.phase.version == s.key.version ==> s.key.value == Some(u.id))
  }

  ghost predicate Invariant(s: State) {
    && (s.key.value.Some? ==> s.key.value.value < s.nextId)
    && (forall c: Client | c in s.clients :: UseInvariant(s, s.clients[c]))
    && (forall c: Client, d: Client | c in s.clients && d in s.clients && c != d :: s.clients[c].id != s.clients[d].id)
    && (forall c: Client | c in s.clients && s.clients[c].phase.Trying? :: s.key.value != Some(s.clients[c].id))
  }

  lemma SetKeeps(s: State, c: Client)
    requires Invariant(s) && Enabled(s, SetIfAbsent(c))
    ensures Invariant(Do(s, SetIfAbsent(c)))
  {
    var t := Do(s, SetIfAbsent(c));
    if !Live(s) {
      forall d: Client | d in t.clients ensures UseInvariant(t, t.clients[d]) {
        assert UseInvariant(s, s.clients[d]);
      }
    } else {
      forall d: Client | d in t.clients ensures UseInvariant(t, t.clients[d]) { assert UseInvariant(s, s.clients[d]); }
    }
  }

  lemma ExecuteKeeps(s: State, c: Client, noticed: bool)
    requires Invariant(s) && Enabled(s, Execute(c, noticed))
    ensures Invariant(Do(s, Execute(c, noticed)))
  {
    var t := Do(s, Execute(c, noticed));
    assert UseInvariant(s, s.clients[c]);
    forall d: Client | d in t.clients ensures UseInvariant(t, t.clients[d]) {
      assert UseInvariant(s, s.clients[d]);
    }
  }

  lemma StepKeepsInvariant(s: State, a: Action)
    requires Invariant(s) && Enabled(s, a)
    ensures Invariant(Do(s, a))
  {
    hide Invariant;
    match a
    case SetIfAbsent(c) => SetKeeps(s, c);
    case Execute(c, noticed) => ExecuteKeeps(s, c, noticed);
    case _ => KeyKeeps(s, a);
  }

  /** What every step that leaves the key alone does to the clients. */
  ghost predicate Moved(s: State, t: State) {
    && t.key == s.key && s.nextId <= t.nextId && s.now <= t.now
    && (forall c: Client | c in t.clients && c !in s.clients ::
          t.clients[c].id >= s.nextId && t.clients[c].id < t.nextId && t.clients[c].phase.Trying?)
    && (forall c: Client | c in t.clients && c in s.clients ::
          && t.clients[c].id == s.clients[c].id
          && (t.clients[c].phase.Trying? ==> s.clients[c].phase.Trying?)
          && (!t.clients[c].phase.Trying? ==> StillHeld(s, s.clients[c], t.clients[c])))
    && (forall c: Client, d: Client | c in t.clients && d in t.clients && c !in s.clients && d !in s.clients :: c == d)
  }

  ghost predicate StillHeld(s: State, u: Use, v: Use) {
    && !u.phase.Trying? && !v.phase.Trying? && v.phase.until == u.phase.until
    && (v.phase.Watched? ==> v.phase.version == s.key.version || (u.phase.Watched? && v.phase.version == u.phase.version))
    && (v.phase.Matched? ==>
          && (u.phase.Watched? || u.phase.Matched?) && v.phase.version == u.phase.version
          && (u.phase.Watched? ==> s.key.value == Some(u.id)))
  }

  lemma KeyKeeps(s: State, a: Action)
    requires Invariant(s) && Enabled(s, a) && !a.SetIfAbsent? && !a.Execute?
    ensures Invariant(Do(s, a))
  {
    hide Invariant;
    StepMoves(s, a);
    MovedKeeps(s, Do(s, a));
  }

  lemma StepMoves(s: State, a: Action)
    requires Enabled(s, a) && !a.SetIfAbsent? && !a.Execute?
    ensures Moved(s, Do(s, a))
  {
  }

  lemma MovedKeeps(s: State, t: State)
    requires Invariant(s) && Moved(s, t)
    ensures Invariant(t)
  {
    forall c: Client | c in t.clients ensures UseInvariant(t, t.clients[c]) {
      if c in s.clients { assert UseInvariant(s, s.clients[c]); }
    }
    forall c: Client, d: Client | c in t.clients && d in t.clients && c != d ensures t.clients[c].id != t.clients[d].id {
      if c in s.clients { assert UseInvariant(s, s.clients[c]); }
      if d in s.clients { assert UseInvariant(s, s.clients[d]); }
    }
  }

  // ---- runs ----

  ghost predicate IsRun(s: State, run: seq<Action>, t: State)
    decreases |run|
  {
    if run == [] then s == t else Enabled(s, run[0]) && IsRun(Do(s, run[0]), run[1..], t)
  }

  lemma {:induction false} RunKeepsInvariant(s: State, run: seq<Action>, t: State)
    requires Invariant(s) && IsRun(s, run, t)
    ensures Invariant(t)
    decreases |run|
  {
    hide Invariant, Enabled, Do;
    if run != [] {
      StepKeepsInvariant(s, run[0]);
      RunKeepsInvariant(Do(s, run[0]), run[1..], t);
    }
  }

  lemma InitialInvariant()
    ensures Invariant(INITIAL)
  {
  }

  /** At most one client has a lock whose time has not run out, and redis holds its identifier. */
  lemma MutualExclusion(run: seq<Action>, s: State, c: Client, d: Client)
    requires IsRun(INITIAL, run, s) && HoldsUnexpired(s, c) && HoldsUnexpired(s, d)
    ensures c == d && Live(s) && s.key.value == Some(s.clients[c].id)
  {
    hide Enabled, Do;
    InitialInvariant();
    RunKeepsInvariant(INITIAL, run, s);
    assert UseInvariant(s, s.clients[c]) && UseInvariant(s, s.clients[d]);
  }

  /** Without timeouts, at most one client is between acquiring and releasing. */
  lemma ExclusiveWithoutTimeouts(run: seq<Action>, s: State, c: Client, d: Client)
    requires IsRun(INITIAL, run, s) && In(s, c) && In(s, d) && Owns(s.clients[c]) && Owns(s.clients[d])
    requires s.clients[c].phase.until == None && s.clients[d].phase.until == None
    ensures c == d
  {
    MutualExclusion(run, s, c, d);
  }

  /** A release never deletes a lock that carries another identifier, whatever happened between GET and EXEC. */
  lemma DeletesOwnLockOnly(run: seq<Action>, s: State, c: Client, noticed: bool)
    requires IsRun(INITIAL, run, s) && Enabled(s, Execute(c, noticed))
    ensures var t := Do(s, Execute(c, noticed));
            t.key == s.key || (s.key.value == Some(s.clients[c].id) && t.key.value == None)
  {
    hide IsRun;
    InitialInvariant();
    RunKeepsInvariant(INITIAL, run, s);
    assert UseInvariant(s, s.clients[c]);
  }

  /** No step of another client takes the key away from a client whose time has not run out. */
  lemma NobodyElseTakesIt(run: seq<Action>, s: State, a: Action, c: Client)
    requires IsRun(INITIAL, run, s) && Enabled(s, a) && HoldsUnexpired(s, c)
    requires match a case Tick(_) => true case _ => a.c != c
    ensures Do(s, a).key == s.key
  {
    hide IsRun;
    InitialInvariant();
    RunKeepsInvariant(INITIAL, run, s);
    assert UseInvariant(s, s.clients[c]);
    if a.Execute? { assert UseInvariant(s, s.clients[a.c]); }
  }

  /** A release that nobody disturbs frees the lock in one round. */
  lemma UndisturbedRelease(run: seq<Action>, s: State, c: Client)
    requires IsRun(INITIAL, run, s) && HoldsUnexpired(s, c) && s.clients[c].phase.Releasing?
    ensures IsRun(s, [Watch(c), Get(c), Execute(c, false)], Gone(s, c).(key := Key(None, None, s.key.version + 1)))
  {
    InitialInvariant();
    RunKeepsInvariant(INITIAL, run, s);
    assert UseInvariant(s, s.clients[c]);
    var s1 := Do(s, Watch(c));
    var s2 := Do(s1, Get(c));
    var s3 := Do(s2, Execute(c, false));
    var end := Gone(s, c).(key := Key(None, None, s.key.version + 1));
    assert s3.clients == end.clients;
    var r0, r1, r2: seq<Action> := [Watch(c), Get(c), Execute(c, false)], [Get(c), Execute(c, false)], [Execute(c, false)];
    assert r0[1..] == r1 && r1[1..] == r2 && r2[1..] == [];
    assert IsRun(s3, [], end) && IsRun(s2, r2, end) && IsRun(s1, r1, end);
  }

  // ---- waiting for the lock ----

  /** An attempt takes the lock exactly if redis does not have the key or its time has run out; otherwise the key stays. */
  lemma TakenIffFree(s: State, c: Client)
    requires Enabled(s, SetIfAbsent(c))
    ensures var t, u := Do(s, SetIfAbsent(c)), s.clients[c];
            && (t.clients[c].phase.Holding? <==>
                  s.key.value == None || (s.key.expires.Some? && s.key.expires.value <= s.now))
            && (t.clients[c].phase.Holding? ==>
                  && t.key.value == Some(u.id) && t.clients[c].phase.until == t.key.expires
                  && (u.timeout == None ==> t.key.expires == None)
                  && (u.timeout.Some? ==> t.key.expires == Some(s.now + u.timeout.value)))
            && (!t.clients[c].phase.Holding? ==> t.key == s.key && t.clients[c].phase.Trying?)
  {
  }

  /** A waiting client gets the lock at its first attempt after a release that nobody disturbs. */
  lemma ReleasedIsTaken(run: seq<Action>, s: State, c: Client, d: Client)
    requires IsRun(INITIAL, run, s) && HoldsUnexpired(s, c) && s.clients[c].phase.Releasing?
    requires d != c && In(s, d) && s.clients[d].phase.Trying?
    ensures exists t :: IsRun(s, [Watch(c), Get(c), Execute(c, false)] + [SetIfAbsent(d)], t)
              && In(t, d) && t.clients[d].phase.Holding? && t.key.value == Some(s.clients[d].id)
  {
    UndisturbedRelease(run, s, c);
    var free := Gone(s, c).(key := Key(None, None, s.key.version + 1));
    var t := Do(free, SetIfAbsent(d));
    OneStep(free, SetIfAbsent(d));
    RunsJoin(s, [Watch(c), Get(c), Execute(c, false)], free, [SetIfAbsent(d)], t);
  }

  lemma OneStep(s: State, a: Action)
    requires Enabled(s, a)
    ensures IsRun(s, [a], Do(s, a))
  {
    assert [a][1..] == [];
  }

  lemma {:induction false} RunsJoin(s: State, first: seq<Action>, m: State, second: seq<Action>, t: State)
    requires IsRun(s, first, m) && IsRun(m, second, t)
    ensures IsRun(s, first + second, t)
    decreases |first|
  {
    hide Enabled, Do;
    if first == [] {
      assert first + second == second;
    } else {
      assert (first + second)[1..] == first[1..] + second;
      RunsJoin(Do(s, first[0]), first[1..], m, second, t);
    }
  }

  /** The use with this identifier, as long as it waits, waits until the deadline. */
  predicate WaitsUntil(s: State, c: Client, id: nat, deadline: nat) {
    id < s.nextId && (In(s, c) && s.clients[c].id == id && s.clients[c].phase.Trying? ==> s.clients[c].phase.deadline == deadline)
  }

  lemma StepWaits(s: State, a: Action, c: Client, id: nat, deadline: nat)
    requires Enabled(s, a) && WaitsUntil(s, c, id, deadline)
    ensures WaitsUntil(Do(s, a), c, id, deadline)
  {
  }

  lemma {:induction false} RunWaits(s: State, run: seq<Action>, t: State, c: Client, id: nat, deadline: nat)
    requires IsRun(s, run, t) && WaitsUntil(s, c, id, deadline)
    ensures WaitsUntil(t, c, id, deadline)
    decreases |run|
  {
    hide Enabled, Do, WaitsUntil;
    if run != [] {
      StepWaits(s, run[0], c, id, deadline);
      RunWaits(Do(s, run[0]), run[1..], t, c, id, deadline);
    }
  }

  /** In every run, a client that gives up has waited for as long as it was asked to. */
  lemma PatienceIsKept(s: State, c: Client, patience: nat, timeout: Option<nat>, run: seq<Action>, t: State)
    requires Enabled(s, Begin(c, patience, timeout)) && IsRun(Do(s, Begin(c, patience, timeout)), run, t)
    requires In(t, c) && t.clients[c].id == s.nextId && Enabled(t, GiveUp(c))
    ensures t.now >= s.now + patience
  {
    RunWaits(Do(s, Begin(c, patience, timeout)), run, t, c, s.nextId, s.now + patience);
  }
}
