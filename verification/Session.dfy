/**
 The session record that several worker processes share in redis. Every worker keeps an object
 of its own, remembers which attributes were modified since it was loaded or stored, and
 writes only these.
 */
module Session {
  import opened Wrappers

  type Attributes = map<string, int>

  const VERSION := "version"

  /** The attributes of a worker's session object, and the names of those modified. */
  datatype Local = Local(attributes: Attributes, modifications: set<string>)

  /** A setter: an equal value is no modification. */
  function Assigned(l: Local, a: string, v: int): Local {
    if a in l.attributes && l.attributes[a] == v then l
    else Local(l.attributes[a := v], l.modifications + {a})
  }

  /** Loading takes over every attribute of the record that the object has. */
  function Loaded(l: Local, record: Attributes): Local {
    if record == map[] then l
    else Local(map a | a in l.attributes :: if a in record then record[a] else l.attributes[a], {})
  }

  /** The attributes after some of the record's were taken over. */
  ghost function Taken(attributes: Attributes, record: Attributes, names: set<string>): (t: Attributes)
    ensures t.Keys == attributes.Keys
  {
    map a | a in attributes :: if a in record && a in names then record[a] else attributes[a]
  }

  lemma TakenNothing(attributes: Attributes, record: Attributes)
    ensures Taken(attributes, record, record.Keys - record.Keys) == attributes
  {
  }

  lemma TakenOneMore(attributes: Attributes, record: Attributes, names: set<string>, a: string)
    requires a in record
    ensures Taken(attributes, record, names + {a}) ==
              var t := Taken(attributes, record, names); if a in attributes then t[a := record[a]] else t
  {
  }

  lemma TakenAll(l: Local, record: Attributes)
    requires record != map[]
    ensures Loaded(l, record) == Local(Taken(l.attributes, record, record.Keys - {}), {})
  {
    assert Loaded(l, record).attributes == Taken(l.attributes, record, record.Keys - {});
  }

  function Restricted(attributes: Attributes, names: set<string>): Attributes {
    map a | a in attributes && a in names :: attributes[a]
  }

  /** What storing writes: everything if there is no record yet, otherwise the modifications. */
  function Written(l: Local, record: Attributes, modificationsOnly: bool, version: int): Attributes {
    var l1 := Assigned(l, VERSION, version);
    if modificationsOnly && record != map[] then Restricted(l1.attributes, l1.modifications) else l1.attributes
  }

  /** `modifications_only` with nothing modified does nothing. */
  predicate StoresNothing(l: Local, modificationsOnly: bool) {
    modificationsOnly && l.modifications == {}
  }

  function AfterStore(l: Local, version: int): Local {
    Local(Assigned(l, VERSION, version).attributes, {})
  }

  // ---- the objects ----

  class Redis {
    var record: Attributes

    constructor ()
      ensures record == map[]
    {
      record := map[];
    }
  }

  class OPSISession {
    var attributes: Attributes
    var modifications: set<string>
    var usable: bool

    constructor (attributes: Attributes)
      requires VERSION in attributes
      ensures Value() == Local(attributes, {}) && usable
    {
      this.attributes, modifications, usable := attributes, {}, true;
    }

    function Value(): Local
      reads this
    {
      Local(attributes, modifications)
    }

    method SetAttribute(a: string, v: int)
      modifies this`attributes, this`modifications
      ensures Value() == Assigned(old(Value()), a, v)
    {
      if a in attributes && attributes[a] == v {
        return;
      }
      attributes := attributes[a := v];
      modifications := modifications + {a};
    }

    method Load(redis: Redis) returns (found: bool)
      modifies this`attributes, this`modifications
      ensures found == (redis.record != map[])
      ensures Value() == Loaded(old(Value()), redis.record)
    {
      if redis.record == map[] {
        return false;
      }
      hide Loaded;
      var names := redis.record.Keys;
      TakenNothing(attributes, redis.record);
      while names != {}
        invariant names <= redis.record.Keys
        invariant attributes == Taken(old(attributes), redis.record, redis.record.Keys - names)
        decreases |names|
      {
        var a :| a in names;
        TakenOneMore(old(attributes), redis.record, redis.record.Keys - names, a);
        assert redis.record.Keys - (names - {a}) == (redis.record.Keys - names) + {a};
        names := names - {a};
        if a in attributes {
          SetAttribute(a, redis.record[a]);
        }
      }
      modifications := {};
      TakenAll(old(Value()), redis.record);
      return true;
    }

    /** `version` is the fresh identifier that the store creates. */
    method Store(redis: Redis, modificationsOnly: bool, version: int)
      modifies this`attributes, this`modifications, redis
      ensures !usable || StoresNothing(old(Value()), modificationsOnly) ==> Value() == old(Value()) && redis.record == old(redis.record)
      ensures usable && !StoresNothing(old(Value()), modificationsOnly) ==>
                && Value() == AfterStore(old(Value()), version)
                && redis.record == old(redis.record) + Written(old(Value()), old(redis.record), modificationsOnly, version)
    {
      if !usable {
        return;
      }
      if modificationsOnly && modifications == {} {
        return;
      }
      SetAttribute(VERSION, version);
      var data := attributes;
      if modificationsOnly && redis.record != map[] {
        data := map a | a in data && a in modifications :: data[a];
      }
      redis.record := redis.record + data;
      modifications := {};
    }
  }

  // ---- several workers ----

  type Worker = nat

  datatype Entry = Stored(writer: Worker, data: Attributes) | Removed

  /** The record, the workers' objects, the stores and deletions so far, and the next version identifier. */
  datatype State = State(record: Attributes, workers: map<Worker, Local>, log: seq<Entry>, nextVersion: int)

  datatype Action =
    | Create(w: Worker, attributes: Attributes)
    | Assign(w: Worker, attribute: string, value: int)
    | Load(w: Worker)
    | Store(w: Worker, modificationsOnly: bool)
    | Delete

  const INITIAL := State(map[], map[], [], 1)

  predicate Enabled(s: State, a: Action) {
    match a
    case Create(w, attributes) => w !in s.workers && VERSION in attributes && attributes[VERSION] == 0
    case Assign(w, attribute, _) => w in s.workers && attribute != VERSION
    case Load(w) => w in s.workers
    case Store(w, _) => w in s.workers
    case Delete => true
  }

  function Do(s: State, a: Action): State
    requires Enabled(s, a)
  {
    match a
    case Create(w, attributes) => s.(workers := s.workers[w := Local(attributes, {})])
    case Assign(w, attribute, value) => s.(workers := s.workers[w := Assigned(s.workers[w], attribute, value)])
    case Load(w) =>
      s.(workers := s.workers[w := Loaded(s.workers[w], s.record)])
    case Store(w, modificationsOnly) =>
      if StoresNothing(s.workers[w], modificationsOnly) then s
      else
        var data := Written(s.workers[w], s.record, modificationsOnly, s.nextVersion);
        State(s.record + data, s.workers[w := AfterStore(s.workers[w], s.nextVersion)], s.log + [Stored(w, data)], s.nextVersion + 1)
    case Delete => s.(record := map[], log := s.log + [Removed])
  }

  /** What the object did not modify agrees with the record. */
  predicate Current(l: Local, record: Attributes) {
    forall a | a in l.attributes && a in record && a !in l.modifications && a != VERSION :: l.attributes[a] == record[a]
  }

  // ---- the record is made by the stores ----

  /** The value of an attribute in the last store that wrote it since the record was deleted. */
  function LastWritten(log: seq<Entry>, a: string): Option<int> {
    if log == [] then None
    else
      match log[|log| - 1]
      case Removed => None
      case Stored(_, data) => if a in data then Some(data[a]) else LastWritten(log[..|log| - 1], a)
  }

  ghost predicate IsRun(s: State, run: seq<Action>, t: State)
    decreases |run|
  {
    if run == [] then s == t else Enabled(s, run[0]) && IsRun(Do(s, run[0]), run[1..], t)
  }

  ghost predicate RecordFromLog(s: State) {
    forall a :: LastWritten(s.log, a) == if a in s.record then Some(s.record[a]) else None
  }

  ghost predicate Versions(s: State) {
    && s.nextVersion > 0
    && (VERSION in s.record ==> 0 < s.record[VERSION] < s.nextVersion)
    && (s.record != map[] ==> VERSION in s.record)
    && (forall w | w in s.workers :: VERSION in s.workers[w].attributes && s.workers[w].attributes[VERSION] < s.nextVersion && VERSION !in s.workers[w].modifications)
  }

  ghost predicate Invariant(s: State) {
    RecordFromLog(s) && Versions(s)
  }

  lemma StoreLog(s: State, w: Worker, modificationsOnly: bool)
    requires Invariant(s) && Enabled(s, Store(w, modificationsOnly))
    ensures RecordFromLog(Do(s, Store(w, modificationsOnly)))
  {
    hide Written, AfterStore, Versions, Current;
    var t := Do(s, Store(w, modificationsOnly));
    if t.log != s.log {
      assert t.log[..|t.log| - 1] == s.log;
      forall a ensures LastWritten(t.log, a) == if a in t.record then Some(t.record[a]) else None {
        assert LastWritten(s.log, a) == if a in s.record then Some(s.record[a]) else None;
      }
    }
  }

  lemma StoreVersions(s: State, w: Worker, modificationsOnly: bool)
    requires Invariant(s) && Enabled(s, Store(w, modificationsOnly))
    ensures Versions(Do(s, Store(w, modificationsOnly)))
  {
    hide RecordFromLog;
  }

  lemma StepKeepsInvariant(s: State, a: Action)
    requires Invariant(s) && Enabled(s, a)
    ensures Invariant(Do(s, a))
  {
    hide Written, AfterStore, Assigned;
    match a
    case Store(w, modificationsOnly) =>
      StoreLog(s, w, modificationsOnly);
      StoreVersions(s, w, modificationsOnly);
    case Delete =>
      assert Do(s, a).log[|s.log|] == Removed;
    case Assign(w, attribute, value) =>
      AssignVersion(s.workers[w], attribute, value);
    case _ =>
  }

  lemma AssignVersion(l: Local, a: string, v: int)
    requires VERSION in l.attributes && VERSION !in l.modifications && a != VERSION
    ensures var m := Assigned(l, a, v);
            VERSION in m.attributes && m.attributes[VERSION] == l.attributes[VERSION] && VERSION !in m.modifications
  {
  }

  lemma {:induction false} RunKeepsInvariant(s: State, run: seq<Action>, t: State)
    requires Invariant(s) && IsRun(s, run, t)
    ensures Invariant(t)
    decreases |run|
  {
    hide Invariant, Enabled, Do;
    if run != [] {
      StepKeepsInvariant(s, run[0]);
      RunKeepsInvariant(Do(s, run[0]), run[1..], t);
    }
  }

  lemma InitialInvariant()
    ensures Invariant(INITIAL)
  {
  }

  /** In every interleaving, each attribute in redis has the value of the last store that wrote it. */
  lemma LastStoreWins(run: seq<Action>, s: State, a: string)
    requires IsRun(INITIAL, run, s)
    ensures LastWritten(s.log, a) == if a in s.record then Some(s.record[a]) else None
  {
    hide Enabled, Do, IsRun;
    InitialInvariant();
    RunKeepsInvariant(INITIAL, run, s);
  }

  /** A store of modifications on an existing record writes exactly the modified attributes and a new version. */
  lemma StoreWritesModifications(s: State, w: Worker, a: string)
    requires Invariant(s) && w in s.workers && s.workers[w].modifications != {} && s.record != map[]
    requires s.workers[w].modifications <= s.workers[w].attributes.Keys
    ensures var t := Do(s, Store(w, true));
            && |t.log| == |s.log| + 1 && t.log[|s.log|].Stored?
            && (a in t.log[|s.log|].data <==> a in s.workers[w].modifications || a == VERSION)
            && (a in s.workers[w].modifications ==> a in t.record && t.record[a] == s.workers[w].attributes[a])
            && (a !in s.workers[w].modifications && a != VERSION ==>
                  (a in t.record <==> a in s.record) && (a in s.record ==> t.record[a] == s.record[a]))
  {
    hide RecordFromLog;
  }

  /** What a run leaves in the log stays there. */
  lemma {:induction false} LogGrows(s: State, run: seq<Action>, t: State)
    requires IsRun(s, run, t)
    ensures s.log <= t.log
    decreases |run|
  {
    hide Written, AfterStore, Assigned, Loaded;
    if run != [] { LogGrows(Do(s, run[0]), run[1..], t); }
  }

  /** Since an entry of the log, no store wrote the attribute and the record was not deleted. */
  ghost predicate Untouched(log: seq<Entry>, from: nat, a: string) {
    forall i | from <= i < |log| :: log[i].Stored? && a !in log[i].data
  }

  lemma {:induction false} UntouchedKeeps(log: seq<Entry>, k: nat, a: string)
    requires k < |log| && log[k].Stored? && a in log[k].data && Untouched(log, k + 1, a)
    ensures LastWritten(log, a) == Some(log[k].data[a])
    decreases |log|
  {
    if k < |log| - 1 { UntouchedKeeps(log[..|log| - 1], k, a); }
  }

  /** The log entry of a store, whether or not there was a record before. */
  lemma StoreIsLogged(s: State, w: Worker, a: string)
    requires Invariant(s) && w in s.workers && a in s.workers[w].modifications && a in s.workers[w].attributes
    ensures var t := Do(s, Store(w, true));
            && |t.log| == |s.log| + 1 && t.log[|s.log|].Stored?
            && a in t.log[|s.log|].data && t.log[|s.log|].data[a] == s.workers[w].attributes[a]
  {
    hide RecordFromLog, AfterStore;
  }

  /**
   What a worker stored stays in redis through any run of any workers, until a store writes the
   attribute again or the record is deleted.
   */
  lemma UpdateSurvives(before: seq<Action>, s: State, v: Worker, after: seq<Action>, t: State, a: string)
    requires IsRun(INITIAL, before, s) && v in s.workers && IsRun(Do(s, Store(v, true)), after, t)
    requires a in s.workers[v].modifications && a in s.workers[v].attributes && Untouched(t.log, |s.log| + 1, a)
    ensures a in t.record && t.record[a] == s.workers[v].attributes[a]
  {
    hide Do, IsRun, Versions, Untouched;
    InitialInvariant();
    RunKeepsInvariant(INITIAL, before, s);
    StoreIsLogged(s, v, a);
    var s1 := Do(s, Store(v, true));
    StepKeepsInvariant(s, Store(v, true));
    RunKeepsInvariant(s1, after, t);
    LogGrows(s1, after, t);
    UntouchedKeeps(t.log, |s.log|, a);
    assert LastWritten(t.log, a) == if a in t.record then Some(t.record[a]) else None;
  }

  lemma {:induction false} RunsJoin(s: State, first: seq<Action>, m: State, second: seq<Action>, t: State)
    requires IsRun(s, first, m) && IsRun(m, second, t)
    ensures IsRun(s, first + second, t)
    decreases |first|
  {
    hide Enabled, Do;
    if first == [] {
      assert first + second == second;
    } else {
      assert (first + second)[1..] == first[1..] + second;
      RunsJoin(Do(s, first[0]), first[1..], m, second, t);
    }
  }

  /** A store writes no attribute but the modified ones and the version, if there is a record. */
  lemma OthersAreUntouched(s: State, w: Worker, a: string)
    requires Invariant(s) && w in s.workers && s.record != map[] && a !in s.workers[w].modifications && a != VERSION
    ensures Untouched(Do(s, Store(w, true)).log, |s.log|, a)
  {
    hide RecordFromLog;
  }

  /** The step neither deletes the record nor stores the attribute: stores leave out what was not modified. */
  predicate Spares(s: State, action: Action, a: string) {
    && action != Delete
    && (action.Store? && action.w in s.workers && !StoresNothing(s.workers[action.w], action.modificationsOnly) ==>
          action.modificationsOnly && s.record != map[] && a !in s.workers[action.w].modifications)
  }

  /** A run in which nobody stores the attribute, whatever else is stored. */
  ghost predicate IsSparingRun(s: State, run: seq<Action>, t: State, a: string)
    decreases |run|
  {
    if run == [] then s == t
    else Enabled(s, run[0]) && Spares(s, run[0], a) && IsSparingRun(Do(s, run[0]), run[1..], t, a)
  }

  lemma StepSpares(s: State, action: Action, a: string)
    requires Invariant(s) && Enabled(s, action) && Spares(s, action, a) && a != VERSION
    ensures s.log <= Do(s, action).log && Untouched(Do(s, action).log, |s.log|, a)
    ensures s.record != map[] ==> Do(s, action).record != map[]
  {
    hide RecordFromLog;
    match action
    case Store(w, _) =>
      if !StoresNothing(s.workers[w], true) && s.record != map[] && action.modificationsOnly && a !in s.workers[w].modifications {
        OthersAreUntouched(s, w, a);
        assert VERSION in Do(s, action).record;
      }
    case _ =>
  }

  lemma {:induction false} SparingRun(s: State, run: seq<Action>, t: State, a: string)
    requires Invariant(s) && IsSparingRun(s, run, t, a) && a != VERSION
    ensures IsRun(s, run, t) && Invariant(t) && s.log <= t.log && Untouched(t.log, |s.log|, a)
    ensures s.record != map[] ==> t.record != map[]
    decreases |run|
  {
    hide Invariant, Enabled, Do, Spares;
    if run != [] {
      var next := Do(s, run[0]);
      StepKeepsInvariant(s, run[0]);
      StepSpares(s, run[0], a);
      SparingRun(next, run[1..], t, a);
      UntouchedOn(next.log, t.log, |s.log|, a);
    }
  }

  lemma UntouchedOn(log: seq<Entry>, later: seq<Entry>, from: nat, a: string)
    requires log <= later && Untouched(log, from, a) && Untouched(later, |log|, a)
    ensures Untouched(later, from, a)
  {
    forall i | from <= i < |later| ensures later[i].Stored? && a !in later[i].data {
      if i < |log| { assert later[i] == log[i]; }
    }
  }

  /** The store of an attribute is followed by a run in which nobody stores it. */
  lemma SparedUpdate(before: seq<Action>, s: State, v: Worker, after: seq<Action>, t: State, a: string)
    requires IsRun(INITIAL, before, s) && v in s.workers && a in s.workers[v].modifications && a in s.workers[v].attributes
    requires IsSparingRun(Do(s, Store(v, true)), after, t, a)
    ensures a in t.record && t.record[a] == s.workers[v].attributes[a]
  {
    hide Do, IsRun, IsSparingRun, RecordFromLog, Untouched;
    InitialInvariant();
    RunKeepsInvariant(INITIAL, before, s);
    StoreIsLogged(s, v, a);
    StepKeepsInvariant(s, Store(v, true));
    SparingRun(Do(s, Store(v, true)), after, t, a);
    UpdateSurvives(before, s, v, after, t, a);
  }

  lemma {:induction false} SparingJoin(s: State, first: seq<Action>, m: State, second: seq<Action>, t: State, a: string)
    requires IsSparingRun(s, first, m, a) && IsSparingRun(m, second, t, a)
    ensures IsSparingRun(s, first + second, t, a)
    decreases |first|
  {
    hide Enabled, Do, Spares;
    if first == [] {
      assert first + second == second;
    } else {
      assert (first + second)[1..] == first[1..] + second;
      SparingJoin(Do(s, first[0]), first[1..], m, second, t, a);
    }
  }

  /** The second store does not touch what only the first worker modified. */
  lemma SecondSpares(s: State, between: seq<Action>, m: State, w: Worker, after: seq<Action>, t: State, a: string)
    requires Invariant(s) && s.record != map[] && a != VERSION && IsSparingRun(s, between, m, a)
    requires w in m.workers && a !in m.workers[w].modifications && IsSparingRun(Do(m, Store(w, true)), after, t, a)
    ensures IsSparingRun(s, between + ([Store(w, true)] + after), t, a)
  {
    hide Do, Invariant;
    SparingRun(s, between, m, a);
    assert ([Store(w, true)] + after)[1..] == after;
    SparingJoin(s, between, m, [Store(w, true)] + after, t, a);
  }

  lemma StoredRecord(s: State, v: Worker, a: string)
    requires Invariant(s) && v in s.workers && a in s.workers[v].modifications
    ensures Do(s, Store(v, true)).record != map[] && a != VERSION
  {
    hide RecordFromLog;
    assert VERSION in Do(s, Store(v, true)).record;
  }

  /**
   Two workers that modified different attributes both keep their updates: whatever happens before,
   between and after their stores, both values are in redis as long as nobody stores these
   attributes again or deletes the record. Stores of other attributes do not matter.
   */
  lemma DifferentUpdatesSurvive(before: seq<Action>, s: State, v: Worker, a: string, between: seq<Action>, m: State,
      w: Worker, b: string, after: seq<Action>, t: State)
    requires IsRun(INITIAL, before, s) && v in s.workers && a in s.workers[v].modifications && a in s.workers[v].attributes
    requires IsSparingRun(Do(s, Store(v, true)), between, m, a)
    requires w in m.workers && b in m.workers[w].modifications && b in m.workers[w].attributes && a !in m.workers[w].modifications
    requires IsSparingRun(Do(m, Store(w, true)), after, t, a) && IsSparingRun(Do(m, Store(w, true)), after, t, b)
    ensures a in t.record && t.record[a] == s.workers[v].attributes[a]
    ensures b in t.record && t.record[b] == m.workers[w].attributes[b]
  {
    hide Do, Invariant, IsSparingRun, IsRun;
    InitialInvariant();
    RunKeepsInvariant(INITIAL, before, s);
    StepKeepsInvariant(s, Store(v, true));
    StoredRecord(s, v, a);
    SecondSpares(Do(s, Store(v, true)), between, m, w, after, t, a);
    SparedUpdate(before, s, v, between + ([Store(w, true)] + after), t, a);
    SparingRun(Do(s, Store(v, true)), between, m, a);
    OneStep(s, Store(v, true));
    RunsJoin(s, [Store(v, true)], Do(s, Store(v, true)), between, m);
    RunsJoin(INITIAL, before, s, [Store(v, true)] + between, m);
    SparedUpdate(before + ([Store(v, true)] + between), m, w, after, t, b);
  }

  lemma OneStep(s: State, a: Action)
    requires Enabled(s, a)
    ensures IsRun(s, [a], Do(s, a))
  {
    assert [a][1..] == [];
  }

  // ---- what a refresh notices ----

  /** `refresh` finds its own version in redis and does not load again. */
  predicate UpToDate(s: State, w: Worker) {
    w in s.workers && VERSION in s.record && VERSION in s.workers[w].attributes && s.workers[w].attributes[VERSION] == s.record[VERSION]
  }

  /** After loading, the object agrees with the record. */
  lemma LoadedIsCurrent(s: State, w: Worker)
    requires w in s.workers && s.record != map[]
    ensures Current(Do(s, Load(w)).workers[w], s.record) && Do(s, Load(w)).workers[w].modifications == {}
  {
  }

  /** A store by another worker is noticed. */
  lemma OtherStoreIsNoticed(run: seq<Action>, s: State, v: Worker, w: Worker, modificationsOnly: bool)
    requires IsRun(INITIAL, run, s) && v in s.workers && w in s.workers && v != w
    requires !StoresNothing(s.workers[v], modificationsOnly)
    ensures !UpToDate(Do(s, Store(v, modificationsOnly)), w)
  {
    hide IsRun, RecordFromLog;
    InitialInvariant();
    RunKeepsInvariant(INITIAL, run, s);
  }

  /**
   Whether a store leaves the object in agreement with what redis then has: it writes everything,
   or the object finds its own version in redis before it writes its modifications.
   */
  predicate Checked(s: State, a: Action, w: Worker) {
    a.Store? && a.w == w && a.modificationsOnly && s.record != map[] ==> UpToDate(s, w)
  }

  /** A run in which the worker stores its modifications only while redis has the object's own version. */
  ghost predicate IsCheckedRun(s: State, run: seq<Action>, t: State, w: Worker)
    decreases |run|
  {
    if run == [] then s == t
    else Enabled(s, run[0]) && Checked(s, run[0], w) && IsCheckedRun(Do(s, run[0]), run[1..], t, w)
  }

  ghost predicate Trusted(s: State, w: Worker) {
    UpToDate(s, w) ==> Current(s.workers[w], s.record)
  }

  lemma OwnStoreTrusted(s: State, w: Worker, modificationsOnly: bool)
    requires Invariant(s) && Trusted(s, w) && Enabled(s, Store(w, modificationsOnly)) && Checked(s, Store(w, modificationsOnly), w)
    ensures Trusted(Do(s, Store(w, modificationsOnly)), w)
  {
    hide RecordFromLog;
  }

  lemma OtherStoreTrusted(s: State, v: Worker, w: Worker, modificationsOnly: bool)
    requires Invariant(s) && Trusted(s, w) && Enabled(s, Store(v, modificationsOnly)) && v != w
    ensures Trusted(Do(s, Store(v, modificationsOnly)), w)
  {
    hide RecordFromLog, Current;
  }

  lemma StepTrusted(s: State, a: Action, w: Worker)
    requires Invariant(s) && Trusted(s, w) && Enabled(s, a) && Checked(s, a, w)
    ensures Trusted(Do(s, a), w)
  {
    hide RecordFromLog;
    match a
    case Store(v, modificationsOnly) =>
      if v == w { OwnStoreTrusted(s, w, modificationsOnly); } else { OtherStoreTrusted(s, v, w, modificationsOnly); }
    case _ =>
  }

  lemma {:induction false} CheckedRunTrusted(s: State, run: seq<Action>, t: State, w: Worker)
    requires Invariant(s) && Trusted(s, w) && IsCheckedRun(s, run, t, w)
    ensures Invariant(t) && Trusted(t, w)
    decreases |run|
  {
    hide Invariant, Trusted, Enabled, Do, Checked;
    if run != [] {
      StepKeepsInvariant(s, run[0]);
      StepTrusted(s, run[0], w);
      CheckedRunTrusted(Do(s, run[0]), run[1..], t, w);
    }
  }

  lemma NobodyUpToDate(w: Worker)
    ensures Trusted(INITIAL, w)
  {
  }

  /** The worker takes over the whole record, or writes its whole object. */
  predicate Resyncs(s: State, a: Action, w: Worker) {
    match a
    case Load(u) => u == w && s.record != map[]
    case Store(u, modificationsOnly) =>
      u == w && w in s.workers && !StoresNothing(s.workers[w], modificationsOnly) && (!modificationsOnly || s.record == map[])
    case _ => false
  }

  lemma ResyncTrusted(s: State, a: Action, w: Worker)
    requires Invariant(s) && Enabled(s, a) && Resyncs(s, a, w)
    ensures Trusted(Do(s, a), w)
  {
    hide RecordFromLog;
    if a.Load? { LoadedIsCurrent(s, w); }
  }

  /** The worker compared versions before its stores since its object last agreed with redis, or ever since it began. */
  ghost predicate Careful(s: State, w: Worker) {
    || (exists run :: IsCheckedRun(INITIAL, run, s, w))
    || (exists before, m, a, after :: CheckedSince(before, m, a, after, s, w))
  }

  ghost predicate CheckedSince(before: seq<Action>, m: State, a: Action, after: seq<Action>, s: State, w: Worker) {
    IsRun(INITIAL, before, m) && Enabled(m, a) && Resyncs(m, a, w) && IsCheckedRun(Do(m, a), after, s, w)
  }

  lemma CarefulTrusted(s: State, w: Worker)
    requires Careful(s, w)
    ensures Invariant(s) && Trusted(s, w)
  {
    hide Invariant, Trusted, Enabled, Do, IsRun, IsCheckedRun, Resyncs;
    InitialInvariant();
    if run :| IsCheckedRun(INITIAL, run, s, w) {
      NobodyUpToDate(w);
      CheckedRunTrusted(INITIAL, run, s, w);
    } else {
      var before, m, a, after :| CheckedSince(before, m, a, after, s, w);
      RunKeepsInvariant(INITIAL, before, m);
      StepKeepsInvariant(m, a);
      ResyncTrusted(m, a, w);
      CheckedRunTrusted(Do(m, a), after, s, w);
    }
  }

  /** Going on with checked stores. */
  lemma CarefulGoesOn(s: State, run: seq<Action>, t: State, w: Worker)
    requires Careful(s, w) && IsCheckedRun(s, run, t, w)
    ensures Careful(t, w)
  {
    hide IsCheckedRun, IsRun, Enabled, Do, Resyncs;
    if first :| IsCheckedRun(INITIAL, first, s, w) {
      CheckedRunsJoin(INITIAL, first, s, run, t, w);
    } else {
      var before, m, a, after :| CheckedSince(before, m, a, after, s, w);
      CheckedRunsJoin(Do(m, a), after, s, run, t, w);
      assert CheckedSince(before, m, a, after + run, t, w);
    }
  }

  /**
   A worker that compares the versions before each store of modifications since it last loaded or
   stored everything may trust its object, whatever it did before that: whenever redis has the
   object's own version, no attribute is out of date.
   */
  lemma CheckedStoresKeepCurrent(s: State, w: Worker)
    requires Careful(s, w) && UpToDate(s, w)
    ensures Current(s.workers[w], s.record)
  {
    hide Invariant, Current, Careful;
    CarefulTrusted(s, w);
  }

  /** Some other worker changes an attribute in redis, and this one has not noticed. */
  lemma OthersChange(s: State, w: Worker, b: string) returns (run: seq<Action>, t: State)
    requires Invariant(s) && w in s.workers && s.record != map[] && b in s.workers[w].attributes && b != VERSION
    ensures IsCheckedRun(s, run, t, w) && w in t.workers && t.workers[w] == s.workers[w] && t.record != map[]
    ensures !UpToDate(t, w) && b in t.record && t.record[b] != s.workers[w].attributes[b]
  {
    hide RecordFromLog;
    FreshWorker(s.workers.Keys);
    var u: Worker :| u !in s.workers.Keys;
    var x := s.workers[w].attributes[b] + 1;
    var mine := map[VERSION := 0, b := x - 1];
    var s1 := Do(s, Create(u, mine));
    var s2 := Do(s1, Assign(u, b, x));
    t := Do(s2, Store(u, true));
    assert s2.workers[u] == Local(mine[b := x], {b});
    run := [Create(u, mine), Assign(u, b, x), Store(u, true)];
    assert run[1..] == [Assign(u, b, x), Store(u, true)] && run[1..][1..] == [Store(u, true)] && run[1..][1..][1..] == [];
    assert IsCheckedRun(t, [], t, w);
    assert IsCheckedRun(s2, run[1..][1..], t, w);
    assert IsCheckedRun(s1, run[1..], t, w);
  }

  lemma FreshWorker(known: set<Worker>)
    ensures exists u: Worker :: u !in known
  {
    if known != {} {
      var most := Greatest(known);
      assert most + 1 !in known;
    } else {
      assert 0 !in known;
    }
  }

  lemma {:induction false} Greatest(known: set<Worker>) returns (most: Worker)
    requires known != {}
    ensures most in known && forall u | u in known :: u <= most
    decreases |known|
  {
    var u :| u in known;
    most := u;
    if known - {u} != {} {
      var other := Greatest(known - {u});
      assert known == (known - {u}) + {u};
      most := if other > u then other else u;
    }
  }

  lemma {:induction false} CheckedRunsJoin(s: State, first: seq<Action>, m: State, second: seq<Action>, t: State, w: Worker)
    requires IsCheckedRun(s, first, m, w) && IsCheckedRun(m, second, t, w)
    ensures IsCheckedRun(s, first + second, t, w)
    decreases |first|
  {
    hide Enabled, Do, Checked;
    if first == [] {
      assert first + second == second;
    } else {
      assert (first + second)[1..] == first[1..] + second;
      CheckedRunsJoin(Do(s, first[0]), first[1..], m, second, t, w);
    }
  }

  /** What the worker can see before a store: its object, and whether redis has the object's version. */
  ghost predicate LooksTheSame(s: State, t: State, w: Worker) {
    && w in s.workers && w in t.workers && s.workers[w] == t.workers[w]
    && s.record != map[] && t.record != map[] && (UpToDate(s, w) <==> UpToDate(t, w))
  }

  /** After its own store the worker's refresh trusts the object, and the object is current. */
  ghost predicate CurrentAfterStore(s: State, w: Worker) {
    w in s.workers && var t := Do(s, Store(w, true)); UpToDate(t, w) && Current(t.workers[w], t.record)
  }

  ghost predicate CurrentInEveryRun(s: State, w: Worker) {
    forall t | Careful(t, w) && LooksTheSame(s, t, w) :: CurrentAfterStore(t, w)
  }

  /** The own store makes the refresh trust the object; the unmodified attributes stay as they were on both sides. */
  lemma OwnStoreEffect(s: State, w: Worker)
    requires Invariant(s) && w in s.workers && s.workers[w].modifications != {} && s.record != map[]
    ensures UpToDate(Do(s, Store(w, true)), w)
    ensures Current(s.workers[w], s.record) ==> CurrentAfterStore(s, w)
    ensures forall b | b in s.workers[w].attributes && b in s.record && b !in s.workers[w].modifications && b != VERSION ::
              s.workers[w].attributes[b] != s.record[b] ==> !CurrentAfterStore(s, w)
  {
    hide RecordFromLog;
    var t := Do(s, Store(w, true));
    forall b | b in s.workers[w].attributes && b in s.record && b !in s.workers[w].modifications && b != VERSION
      ensures t.workers[w].attributes[b] == s.workers[w].attributes[b] && b in t.record && t.record[b] == s.record[b]
    {
    }
  }

  /**
   A store writes a new version, after which refreshing trusts the object. Comparing the versions
   before the store decides whether that trust is justified: if they are equal, the object is
   current afterwards in every run that looks the same to the worker; if they differ, there is
   such a run in which an attribute it did not modify is out of date and nothing tells.
   */
  lemma OwnStoreHidesStaleness(s: State, w: Worker, b: string)
    requires Careful(s, w) && w in s.workers && s.record != map[] && s.workers[w].modifications != {}
    requires b in s.workers[w].attributes && b !in s.workers[w].modifications && b != VERSION
    ensures UpToDate(Do(s, Store(w, true)), w)
    ensures CurrentInEveryRun(s, w) <==> UpToDate(s, w)
  {
    hide RecordFromLog, Versions, Enabled, Do, Checked, UpToDate, Current, CurrentAfterStore, Careful;
    CarefulTrusted(s, w);
    OwnStoreEffect(s, w);
    if UpToDate(s, w) {
      forall t | Careful(t, w) && LooksTheSame(s, t, w) ensures CurrentAfterStore(t, w) {
        CarefulTrusted(t, w);
        OwnStoreEffect(t, w);
      }
    } else {
      var more, t := OthersChange(s, w, b);
      CarefulGoesOn(s, more, t, w);
      CarefulTrusted(t, w);
      OwnStoreEffect(t, w);
      assert LooksTheSame(s, t, w);
    }
  }

  lemma Extended(s: State, a: Action, t: State, rest: seq<Action>, end: State) returns (run: seq<Action>)
    requires Enabled(s, a) && Do(s, a) == t && IsRun(t, rest, end)
    ensures IsRun(s, run, end)
  {
    run := [a] + rest;
    assert run[1..] == rest;
  }

  const FIRST: Attributes := map[VERSION := 0, "a" := 1, "b" := 1]

  function Object(version: int, a: int, b: int): Local {
    Local(map[VERSION := version, "a" := a, "b" := b], {})
  }

  const LOADED := State(
    Object(1, 1, 1).attributes, map[1 := Object(1, 1, 1), 2 := Object(1, 1, 1)], [Stored(1, Object(1, 1, 1).attributes)], 2)
  const FIRSTSTORED := State(
    LOADED.record + map[VERSION := 2, "a" := 2], LOADED.workers[1 := Object(2, 2, 1)],
    LOADED.log + [Stored(1, map[VERSION := 2, "a" := 2])], 3)
  const BOTHSTORED := State(
    FIRSTSTORED.record + map[VERSION := 3, "b" := 2], FIRSTSTORED.workers[2 := Object(3, 1, 2)],
    FIRSTSTORED.log + [Stored(2, map[VERSION := 3, "b" := 2])], 4)

  lemma AssignsIn(s: State, w: Worker, a: string, v: int, result: Local)
    requires w in s.workers && a != VERSION && Assigned(s.workers[w], a, v) == result
    ensures Enabled(s, Assign(w, a, v)) && Do(s, Assign(w, a, v)) == s.(workers := s.workers[w := result])
  {
  }

  lemma StoresIn(s: State, w: Worker, modificationsOnly: bool, data: Attributes, after: Local)
    requires w in s.workers && !StoresNothing(s.workers[w], modificationsOnly)
    requires Written(s.workers[w], s.record, modificationsOnly, s.nextVersion) == data && AfterStore(s.workers[w], s.nextVersion) == after
    ensures Enabled(s, Store(w, modificationsOnly))
    ensures Do(s, Store(w, modificationsOnly)) == State(s.record + data, s.workers[w := after], s.log + [Stored(w, data)], s.nextVersion + 1)
  {
  }

  /** An object with a value assigned to `a` or `b`, and then stored. */
  lemma OneChange(version: int, a: int, b: int, name: string, next: int, record: Attributes)
    requires name == "a" || name == "b"
    requires (if name == "a" then a else b) != 2 && next != version && record != map[]
    ensures var l := Assigned(Object(version, a, b), name, 2);
            && l.modifications == {name}
            && Written(l, record, true, next) == map[VERSION := next, name := 2]
            && AfterStore(l, next) == if name == "a" then Object(next, 2, b) else Object(next, a, 2)
  {
    hide Written, AfterStore;
    var l := if name == "a" then Local(Object(version, 2, b).attributes, {"a"}) else Local(Object(version, a, 2).attributes, {"b"});
    assert Assigned(Object(version, a, b), name, 2) == l;
    if name == "a" { ChangeStored(version, 2, b, name, next, record); } else { ChangeStored(version, a, 2, name, next, record); }
  }

  lemma ChangeStored(version: int, a: int, b: int, name: string, next: int, record: Attributes)
    requires (name == "a" && a == 2) || (name == "b" && b == 2)
    requires next != version && record != map[]
    ensures var l := Local(Object(version, a, b).attributes, {name});
            Written(l, record, true, next) == map[VERSION := next, name := 2] && AfterStore(l, next) == Object(next, a, b)
  {
    var l := Local(Object(version, a, b).attributes, {name});
    assert Object(version, a, b).attributes[VERSION := next] == Object(next, a, b).attributes;
    assert Assigned(l, VERSION, next) == Local(Object(next, a, b).attributes, {name, VERSION});
  }

  lemma Steps(s: State, w: Worker, version: int, a: int, b: int, name: string, rest: seq<Action>, t: State, end: State)
      returns (run: seq<Action>)
    requires w in s.workers && s.workers[w] == Object(version, a, b) && s.record != map[]
    requires name == "a" || name == "b"
    requires (if name == "a" then a else b) != 2 && s.nextVersion != version
    requires var data := map[VERSION := s.nextVersion, name := 2];
             var after := if name == "a" then Object(s.nextVersion, 2, b) else Object(s.nextVersion, a, 2);
             t == State(s.record + data, s.workers[w := after], s.log + [Stored(w, data)], s.nextVersion + 1)
    requires IsRun(t, rest, end)
    ensures IsRun(s, run, end)
  {
    hide IsRun, Enabled, Do, Object, Written, AfterStore, Assigned;
    OneChange(version, a, b, name, s.nextVersion, s.record);
    var l := Assigned(s.workers[w], name, 2);
    AssignsIn(s, w, name, 2, l);
    var s1 := s.(workers := s.workers[w := l]);
    var data := map[VERSION := s.nextVersion, name := 2];
    StoresIn(s1, w, true, data, AfterStore(l, s.nextVersion));
    assert s.workers[w := l][w := AfterStore(l, s.nextVersion)] == s.workers[w := AfterStore(l, s.nextVersion)];
    run := Extended(s1, Store(w, true), t, rest, end);
    run := Extended(s, Assign(w, name, 2), s1, run, end);
  }

  lemma FirstLoaded()
    ensures AfterStore(Local(FIRST, {}), 1) == Object(1, 1, 1) && Loaded(Local(FIRST, {}), Object(1, 1, 1).attributes) == Object(1, 1, 1)
    ensures Written(Local(FIRST, {}), map[], false, 1) == Object(1, 1, 1).attributes
  {
  }

  lemma BothLoad(rest: seq<Action>, end: State) returns (run: seq<Action>)
    requires IsRun(LOADED, rest, end)
    ensures IsRun(INITIAL, run, end)
  {
    hide IsRun, Written, AfterStore, Loaded, Object;
    FirstLoaded();
    var s1 := Do(INITIAL, Create(1, FIRST));
    var s2 := Do(s1, Store(1, false));
    var s3 := Do(s2, Create(2, FIRST));
    assert s2.record == LOADED.record && s3.record == LOADED.record;
    assert s3.workers == map[1 := Object(1, 1, 1), 2 := Local(FIRST, {})];
    run := Extended(s3, Load(2), LOADED, rest, end);
    run := Extended(s2, Create(2, FIRST), s3, run, end);
    run := Extended(s1, Store(1, false), s2, run, end);
    run := Extended(INITIAL, Create(1, FIRST), s1, run, end);
  }

  /**
   Two workers load the session, one stores `a` and then the other `b`: the second one finds its
   own version in redis from then on, and goes on with the old value of `a`.
   */
  lemma StaleAfterOwnStore()
    ensures exists run, s :: IsRun(INITIAL, run, s) && UpToDate(s, 2) && !Current(s.workers[2], s.record)
  {
    hide IsRun;
    EmptyRun(BOTHSTORED);
    assert VERSION in LOADED.record && VERSION in FIRSTSTORED.record;
    var run := Steps(FIRSTSTORED, 2, 1, 1, 1, "b", [], BOTHSTORED, BOTHSTORED);
    run := Steps(LOADED, 1, 1, 1, 1, "a", run, FIRSTSTORED, BOTHSTORED);
    run := BothLoad(run, BOTHSTORED);
    assert BOTHSTORED.workers[2].attributes["a"] == 1 && BOTHSTORED.record["a"] == 2;
  }

  lemma EmptyRun(s: State)
    ensures IsRun(s, [], s)
  {
  }

  /** A setter that is given the value the object already has records nothing, even if redis has another value by now. */
  lemma EqualValueIsNotStored(l: Local, record: Attributes, a: string, version: int)
    requires a in l.attributes && a in record && a !in l.modifications && a != VERSION && record != map[]
    ensures var m := Assigned(l, a, l.attributes[a]);
            a !in Written(m, record, true, version)
  {
  }

  // ---- what counts as modified ----

  /** The worker changes this attribute of its object. */
  predicate Changes(s: State, action: Action, w: Worker, a: string) {
    action.Assign? && action.w == w && action.attribute == a && w in s.workers
    && !(a in s.workers[w].attributes && s.workers[w].attributes[a] == action.value)
  }

  /** The worker's modifications are written or given up. */
  predicate Settles(s: State, action: Action, w: Worker) {
    || (action.Load? && action.w == w && s.record != map[])
    || (action.Store? && action.w == w && w in s.workers && !StoresNothing(s.workers[w], action.modificationsOnly))
  }

  /** The attribute was changed after the last store or load of the worker in the run, or before the run without one since. */
  ghost predicate ChangedSince(s: State, run: seq<Action>, w: Worker, a: string, before: bool)
    decreases |run|
  {
    if run == [] then before
    else
      Enabled(s, run[0])
      && ChangedSince(Do(s, run[0]), run[1..], w, a, Changes(s, run[0], w, a) || (before && !Settles(s, run[0], w)))
  }

  lemma StepModified(s: State, action: Action, w: Worker, a: string)
    requires Enabled(s, action) && w in s.workers
    ensures w in Do(s, action).workers
    ensures a in Do(s, action).workers[w].modifications <==>
              Changes(s, action, w, a) || (a in s.workers[w].modifications && !Settles(s, action, w))
  {
    hide Written;
  }

  /**
   In every run exactly those attributes are modified that the worker changed since its last store
   or load: a store writes a change once, and no change is forgotten before.
   */
  lemma {:induction false} ModifiedIff(s: State, run: seq<Action>, t: State, w: Worker, a: string)
    requires IsRun(s, run, t) && w in s.workers
    ensures w in t.workers
    ensures a in t.workers[w].modifications <==> ChangedSince(s, run, w, a, a in s.workers[w].modifications)
    decreases |run|
  {
    hide Enabled, Do, Changes, Settles;
    if run != [] {
      StepModified(s, run[0], w, a);
      ModifiedIff(Do(s, run[0]), run[1..], t, w, a);
    }
  }
}
