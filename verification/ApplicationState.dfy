/**
 The application state that all processes share through redis. Setters and the manager change
 it under one lock; the manager marks a state as accomplished after it read the entry of every
 worker, one after the other, while the workers go on changing their entries.
 */
module ApplicationState {
  import opened Wrappers

  datatype Kind = Startup | Normal | Maintenance | Shutdown

  datatype AppState = AppState(kind: Kind, data: string, accomplished: bool)

  /** Who stored a state. */
  datatype Origin = BySetter | ByInit(kinds: set<Kind>) | ByManager

  datatype Write = Write(origin: Origin, state: AppState)

  type Process = nat
  type Worker = nat

  /** Where a process stands; `Want…` waits for the lock, and `Leave` is about to release it. */
  datatype Phase =
    | WantSet(wanted: AppState)
    | Set(wanted: AppState)
    | WantInit(choices: seq<AppState>)
    | Init(choices: seq<AppState>)
    | InitLoaded(choices: seq<AppState>, found: Option<AppState>)
    | WantPoll
    | Poll
    | Scan(loaded: AppState, left: set<Worker>, seen: set<Worker>)
    | Leave

  predicate Inside(phase: Phase) {
    phase.Set? || phase.Init? || phase.InitLoaded? || phase.Poll? || phase.Scan? || phase.Leave?
  }

  /**
   `history` is every write of the stored state, the last of which is the state in redis. During a
   scan, `steady` are the workers whose entry was read and has not changed since, and
   `joined` those that registered since the scan began.
   */
  datatype State = State(
    history: seq<Write>,
    workers: map<Worker, Kind>,
    processes: map<Process, Phase>,
    steady: set<Worker>,
    joined: set<Worker>)

  const INITIAL := State([], map[], map[], {}, {})

  function Stored(s: State): Option<AppState> {
    if s.history == [] then None else Some(s.history[|s.history| - 1].state)
  }

  predicate LockFree(s: State) {
    forall p | p in s.processes :: !Inside(s.processes[p])
  }

  datatype Action =
    | Start(p: Process, phase: Phase)
    | Acquire(p: Process)
    | Store(p: Process)
    | Load(p: Process)
    | ReadWorker(p: Process, w: Worker)
    | SkipWorker(p: Process, w: Worker)
    | MissWorker(p: Process, w: Worker)
    | Release(p: Process)
    | Stop(p: Process)
    | Report(w: Worker, kind: Kind)
    | Unregister(w: Worker)

  function Kinds(choices: seq<AppState>): set<Kind> {
    set c | c in choices :: c.kind
  }

  predicate Enabled(s: State, a: Action) {
    match a
    case Start(p, phase) =>
      && p !in s.processes
      && ((phase.WantSet? && !phase.wanted.accomplished) || (phase.WantInit? && phase.choices != []) || phase.WantPoll?)
    case Acquire(p) =>
      p in s.processes && LockFree(s) && (s.processes[p].WantSet? || s.processes[p].WantInit? || s.processes[p].WantPoll?)
    case Store(p) =>
      && p in s.processes
      && (s.processes[p].Set? || s.processes[p].InitLoaded? || (s.processes[p].Scan? && s.processes[p].left == {}))
    case Load(p) => p in s.processes && (s.processes[p].Init? || s.processes[p].Poll?)
    case ReadWorker(p, w) => p in s.processes && s.processes[p].Scan? && w in s.workers
    // The scan does not return an entry that is gone, or returned it while it was there.
    case SkipWorker(p, w) => p in s.processes && s.processes[p].Scan? && w in s.processes[p].left && w !in s.workers
    case MissWorker(p, w) =>
      && p in s.processes && s.processes[p].Scan? && w !in s.workers
      && (w in s.processes[p].left || w in s.processes[p].seen || w in s.joined)
    case Release(p) => p in s.processes && s.processes[p].Leave?
    case Stop(p) => p in s.processes
    case Report(_, _) => true
    case Unregister(w) => w in s.workers
  }

  function Move(s: State, p: Process, phase: Phase): State {
    s.(processes := s.processes[p := phase])
  }

  function Record(s: State, origin: Origin, state: AppState): State {
    s.(history := s.history + [Write(origin, state)])
  }

  function Do(s: State, a: Action): State
    requires Enabled(s, a)
  {
    match a
    case Start(p, phase) => Move(s, p, phase)
    case Acquire(p) =>
      (match s.processes[p]
       case WantSet(wanted) => Move(s, p, Set(wanted))
       case WantInit(choices) => Move(s, p, Init(choices))
       case _ => Move(s, p, Poll))
    case Store(p) =>
      (match s.processes[p]
       case Set(wanted) => Record(Move(s, p, Leave), BySetter, wanted)
       case InitLoaded(choices, found) =>
         if choices != [] && (found == None || found.value.kind !in Kinds(choices)) then
           Record(Move(s, p, Leave), ByInit(Kinds(choices)), choices[0])
         else Move(s, p, Leave)
       case Scan(loaded, _, _) => Record(Move(s, p, Leave), ByManager, loaded.(accomplished := true))
       case _ => s)
    case Load(p) =>
      (match s.processes[p]
       case Init(choices) => Move(s, p, InitLoaded(choices, Stored(s)))
       case _ =>
         if Stored(s) == None || Stored(s).value.accomplished then Move(s, p, Leave)
         else Move(s, p, Scan(Stored(s).value, s.workers.Keys, {})).(steady := {}, joined := {}))
    case ReadWorker(p, w) =>
      var scan := s.processes[p];
      if s.workers[w] != scan.loaded.kind then Move(s, p, Leave)
      else Move(s, p, scan.(left := scan.left - {w}, seen := scan.seen + {w})).(steady := s.steady + {w})
    case SkipWorker(p, w) => Move(s, p, s.processes[p].(left := s.processes[p].left - {w}))
    case MissWorker(p, w) => Move(s, p, Leave)
    case Release(p) => s.(processes := s.processes - {p})
    case Stop(p) => s.(processes := s.processes - {p})
    case Report(w, kind) =>
      s.(workers := s.workers[w := kind],
         steady := if w in s.workers && s.workers[w] == kind then s.steady else s.steady - {w},
         joined := if w in s.workers then s.joined else s.joined + {w})
    case Unregister(w) => s.(workers := s.workers - {w}, steady := s.steady - {w})
  }

  // ---- the invariant ----

  /** The lock: at most one process is inside. */
  ghost predicate OneInside(s: State) {
    forall p: Process, q: Process | p in s.processes && q in s.processes && Inside(s.processes[p]) && Inside(s.processes[q]) :: p == q
  }

  /** What each write found when it was made. */
  ghost predicate WriteOk(history: seq<Write>, i: nat)
    requires i < |history|
  {
    match history[i].origin
    case BySetter => !history[i].state.accomplished
    case ByInit(kinds) =>
      history[i].state.kind in kinds && (i > 0 ==> history[i - 1].state.kind !in kinds)
    case ByManager =>
      i > 0 && !history[i - 1].state.accomplished && history[i].state == history[i - 1].state.(accomplished := true)
  }

  ghost predicate PhaseOk(s: State, phase: Phase) {
    match phase
    case WantSet(wanted) => !wanted.accomplished
    case Set(wanted) => !wanted.accomplished
    case InitLoaded(_, found) => found == Stored(s)
    case Scan(loaded, left, seen) =>
      && Stored(s) == Some(loaded) && !loaded.accomplished
      && (forall w | w in s.steady :: w in s.workers && w in seen && s.workers[w] == loaded.kind)
      && (forall w | w in s.workers :: w in left || w in seen || w in s.joined)
    case _ => true
  }

  ghost predicate Invariant(s: State) {
    && OneInside(s)
    && (forall i: nat | i < |s.history| :: WriteOk(s.history, i))
    && (forall p: Process | p in s.processes :: PhaseOk(s, s.processes[p]))
  }

  lemma WrittenOk(history: seq<Write>, write: Write)
    requires forall i: nat | i < |history| :: WriteOk(history, i)
    requires WriteOk(history + [write], |history|)
    ensures forall i: nat | i < |history + [write]| :: WriteOk(history + [write], i)
  {
    var all := history + [write];
    forall i: nat | i < |all| ensures WriteOk(all, i) {
      if i < |history| { assert WriteOk(history, i); }
    }
  }

  lemma StoreKeeps(s: State, p: Process)
    requires Invariant(s) && Enabled(s, Store(p))
    ensures Invariant(Do(s, Store(p)))
  {
    var t := Do(s, Store(p));
    assert PhaseOk(s, s.processes[p]);
    if t.history != s.history {
      WrittenOk(s.history, t.history[|s.history|]);
    }
    forall q: Process | q in t.processes ensures PhaseOk(t, t.processes[q]) {
      assert PhaseOk(s, s.processes[q]);
      if q != p { assert !Inside(s.processes[q]); }
    }
  }

  lemma OtherKeeps(s: State, a: Action)
    requires Invariant(s) && Enabled(s, a) && !a.Store?
    ensures Invariant(Do(s, a))
  {
    hide WriteOk, PhaseOk, OneInside;
    var t := Do(s, a);
    assert t.history == s.history by { OtherHistory(s, a); }
    OtherInside(s, a);
    forall q: Process | q in t.processes ensures PhaseOk(t, t.processes[q]) { OtherPhase(s, a, q); }
  }

  lemma OtherHistory(s: State, a: Action)
    requires Enabled(s, a) && !a.Store?
    ensures Do(s, a).history == s.history
  {
  }

  lemma OtherInside(s: State, a: Action)
    requires OneInside(s) && Enabled(s, a) && !a.Store?
    ensures OneInside(Do(s, a))
  {
  }

  lemma OtherPhase(s: State, a: Action, q: Process)
    requires Invariant(s) && Enabled(s, a) && !a.Store? && q in Do(s, a).processes
    ensures PhaseOk(Do(s, a), Do(s, a).processes[q])
  {
    hide WriteOk;
    if q in s.processes { assert PhaseOk(s, s.processes[q]); }
  }

  lemma StepKeepsInvariant(s: State, a: Action)
    requires Invariant(s) && Enabled(s, a)
    ensures Invariant(Do(s, a))
  {
    hide Invariant, Enabled, Do;
    match a
    case Store(p) => StoreKeeps(s, p);
    case _ => OtherKeeps(s, a);
  }

  // ---- runs ----

  ghost predicate IsRun(s: State, run: seq<Action>, t: State)
    decreases |run|
  {
    if run == [] then s == t else Enabled(s, run[0]) && IsRun(Do(s, run[0]), run[1..], t)
  }

  lemma {:induction false} RunKeepsInvariant(s: State, run: seq<Action>, t: State)
    requires Invariant(s) && IsRun(s, run, t)
    ensures Invariant(t)
    decreases |run|
  {
    hide Invariant, Enabled, Do;
    if run != [] {
      StepKeepsInvariant(s, run[0]);
      RunKeepsInvariant(Do(s, run[0]), run[1..], t);
    }
  }

  lemma InitialInvariant()
    ensures Invariant(INITIAL)
  {
  }

  /**
   In every run the type of the stored state changes only where a setter stores one, or where the
   initial write finds none of its states; and the manager's accomplished write changes nothing
   but that flag of the state that was stored just before it, so it never overwrites a newer one.
   */
  lemma OnlySettersChangeTheType(run: seq<Action>, s: State, i: nat)
    requires IsRun(INITIAL, run, s) && 0 < i < |s.history|
    ensures s.history[i].state.kind != s.history[i - 1].state.kind ==>
              s.history[i].origin == BySetter
              || (s.history[i].origin.ByInit? && s.history[i - 1].state.kind !in s.history[i].origin.kinds)
    ensures s.history[i].origin == ByManager ==>
              !s.history[i - 1].state.accomplished && s.history[i].state == s.history[i - 1].state.(accomplished := true)
    ensures s.history[i].origin == BySetter ==> !s.history[i].state.accomplished
  {
    hide Enabled, Do, PhaseOk;
    InitialInvariant();
    RunKeepsInvariant(INITIAL, run, s);
    assert WriteOk(s.history, i);
  }

  /**
   When the manager stores the accomplished state, every worker that was registered when its scan
   began has reported that type at the time its entry was read, and reports it still unless
   the entry changed since.
   */
  lemma AccomplishedAfterAllReported(run: seq<Action>, s: State, p: Process, w: Worker)
    requires IsRun(INITIAL, run, s) && Enabled(s, Store(p)) && s.processes[p].Scan? && w in s.workers
    ensures Stored(s) == Some(s.processes[p].loaded)
    ensures w in s.processes[p].seen || w in s.joined
    ensures w in s.steady ==> s.workers[w] == s.processes[p].loaded.kind
  {
    hide WriteOk, IsRun;
    InitialInvariant();
    RunKeepsInvariant(INITIAL, run, s);
    assert PhaseOk(s, s.processes[p]);
  }

  /** What a worker reported last during a run, if it did. */
  function LastReport(run: seq<Action>, w: Worker): Option<Kind> {
    if run == [] then None
    else if LastReport(run[1..], w).Some? then LastReport(run[1..], w)
    else if run[0].Report? && run[0].w == w then Some(run[0].kind)
    else None
  }

  lemma {:induction false} LastReportStands(s: State, run: seq<Action>, t: State, w: Worker)
    requires IsRun(s, run, t) && w in t.workers
    ensures LastReport(run, w).Some? ==> t.workers[w] == LastReport(run, w).value
    ensures LastReport(run, w) == None ==> w in s.workers && s.workers[w] == t.workers[w]
    decreases |run|
  {
    if run != [] { LastReportStands(Do(s, run[0]), run[1..], t, w); }
  }

  /** A process that leaves does nothing but release the lock. */
  lemma {:induction false} LeaveStays(s: State, run: seq<Action>, t: State, p: Process)
    requires IsRun(s, run, t) && p in s.processes && s.processes[p] == Leave && Release(p) !in run && Stop(p) !in run
    ensures p in t.processes && t.processes[p] == Leave
    decreases |run|
  {
    if run != [] {
      assert run == [run[0]] + run[1..];
      LeaveStays(Do(s, run[0]), run[1..], t, p);
    }
  }

  /** A scan ends only after each worker that was left and has not reported since was read with the type. */
  lemma {:induction false} ScanReadsAll(s: State, run: seq<Action>, t: State, p: Process, w: Worker)
    requires IsRun(s, run, t) && Release(p) !in run && Stop(p) !in run
    requires p in s.processes && s.processes[p].Scan? && p in t.processes && t.processes[p].Scan? && t.processes[p].left == {}
    requires w in t.workers && LastReport(run, w) == None
    ensures t.processes[p].loaded == s.processes[p].loaded
    ensures w in s.processes[p].left ==> t.workers[w] == s.processes[p].loaded.kind
    decreases |run|
  {
    if run != [] {
      assert run == [run[0]] + run[1..];
      var next := Do(s, run[0]);
      LastReportStands(s, run, t, w);
      LastReportStands(next, run[1..], t, w);
      if next.processes[p] == Leave {
        LeaveStays(next, run[1..], t, p);
      } else {
        ScanReadsAll(next, run[1..], t, p, w);
      }
    }
  }

  /** In every read of the scan the worker reported the type, and no entry was gone by then. */
  predicate ReadsOnly(s: State, run: seq<Action>, p: Process, kind: Kind)
    decreases |run|
  {
    run != [] ==>
      && Enabled(s, run[0])
      && (match run[0]
          case ReadWorker(q, w) => q == p ==> s.workers[w] == kind
          case MissWorker(q, _) => q != p
          case _ => true)
      && ReadsOnly(Do(s, run[0]), run[1..], p, kind)
  }

  lemma {:induction false} ScanReadsOnly(s: State, run: seq<Action>, t: State, p: Process)
    requires IsRun(s, run, t) && Release(p) !in run && Stop(p) !in run
    requires p in s.processes && s.processes[p].Scan? && p in t.processes && t.processes[p].Scan?
    ensures t.processes[p].loaded == s.processes[p].loaded
    ensures ReadsOnly(s, run, p, s.processes[p].loaded.kind)
    decreases |run|
  {
    if run != [] {
      assert run == [run[0]] + run[1..];
      var next := Do(s, run[0]);
      if next.processes[p] == Leave {
        LeaveStays(next, run[1..], t, p);
      } else {
        ScanReadsOnly(next, run[1..], t, p);
      }
    }
  }

  /**
   From the load of a state to the accomplished write: every worker that was read reported its type
   then, as another report, or an entry that is gone by then, ends the attempt. All registered workers
   report the type at the write exactly if the last report that each of them made in the meantime,
   if any, was that type.
   */
  lemma AccomplishedExactly(s: State, p: Process, run: seq<Action>, t: State)
    requires Enabled(s, Load(p)) && Do(s, Load(p)).processes[p].Scan? && IsRun(Do(s, Load(p)), run, t)
    requires Release(p) !in run && Stop(p) !in run && Enabled(t, Store(p)) && t.processes[p].Scan?
    ensures var kind := t.processes[p].loaded.kind;
            && Stored(s) == Some(t.processes[p].loaded)
            && ReadsOnly(Do(s, Load(p)), run, p, kind)
            && ((forall w | w in t.workers :: t.workers[w] == kind)
                <==> forall w | w in t.workers :: LastReport(run, w) == None || LastReport(run, w) == Some(kind))
  {
    hide IsRun;
    var begin := Do(s, Load(p));
    ScanReadsOnly(begin, run, t, p);
    forall w | w in t.workers
      ensures t.workers[w] == t.processes[p].loaded.kind <==> LastReport(run, w) == None || LastReport(run, w) == Some(t.processes[p].loaded.kind)
    {
      LastReportStands(begin, run, t, w);
      if LastReport(run, w) == None { ScanReadsAll(begin, run, t, p, w); }
    }
  }

  // ---- what a process alone can do ----

  lemma Extended(s: State, a: Action, t: State, rest: seq<Action>, end: State) returns (run: seq<Action>)
    requires Enabled(s, a) && Do(s, a) == t && IsRun(t, rest, end)
    ensures IsRun(s, run, end)
  {
    run := [a] + rest;
    assert run[1..] == rest;
  }

  lemma EmptyRun(s: State)
    ensures IsRun(s, [], s)
  {
  }

  /** The process is the only one that does anything with the lock. */
  ghost predicate FreeFor(s: State, p: Process) {
    LockFree(s) && p !in s.processes
  }

  lemma Acquires(s: State, p: Process, phase: Phase, rest: seq<Action>, end: State) returns (run: seq<Action>)
    requires FreeFor(s, p) && Enabled(s, Start(p, phase)) && IsRun(Do(Do(s, Start(p, phase)), Acquire(p)), rest, end)
    ensures IsRun(s, run, end)
  {
    hide IsRun;
    var wanting := Do(s, Start(p, phase));
    run := Extended(wanting, Acquire(p), Do(wanting, Acquire(p)), rest, end);
    run := Extended(s, Start(p, phase), wanting, run, end);
  }

  /** A setter that gets the lock stores its state, not accomplished, and releases the lock. */
  lemma SetterCanStore(s: State, p: Process, wanted: AppState) returns (run: seq<Action>, t: State)
    requires FreeFor(s, p) && !wanted.accomplished
    ensures IsRun(s, run, t) && Stored(t) == Some(wanted) && t.workers == s.workers && FreeFor(t, p)
  {
    hide IsRun;
    var s2 := Move(s, p, Set(wanted));
    var s3 := Do(s2, Store(p));
    t := Do(s3, Release(p));
    EmptyRun(t);
    run := Extended(s3, Release(p), t, [], t);
    run := Extended(s2, Store(p), s3, run, t);
    assert Do(Do(s, Start(p, WantSet(wanted))), Acquire(p)) == s2;
    run := Acquires(s, p, WantSet(wanted), run, t);
  }

  /** The initial state: a stored state whose type is one of the choices stays, otherwise the first choice is stored. */
  lemma InitCanStore(s: State, p: Process, choices: seq<AppState>) returns (run: seq<Action>, t: State)
    requires FreeFor(s, p) && choices != []
    ensures IsRun(s, run, t) && t.workers == s.workers && FreeFor(t, p)
    ensures Stored(t) == if Stored(s).Some? && exists c :: c in choices && c.kind == Stored(s).value.kind then Stored(s) else Some(choices[0])
  {
    hide IsRun;
    var s2 := Move(s, p, Init(choices));
    var s3 := Do(s2, Load(p));
    var s4 := Do(s3, Store(p));
    t := Do(s4, Release(p));
    EmptyRun(t);
    run := Extended(s4, Release(p), t, [], t);
    run := Extended(s3, Store(p), s4, run, t);
    run := Extended(s2, Load(p), s3, run, t);
    assert Do(Do(s, Start(p, WantInit(choices))), Acquire(p)) == s2;
    run := Acquires(s, p, WantInit(choices), run, t);
  }

  /** The scan over workers that all report the type. */
  lemma {:induction false} ScanCanEnd(s: State, p: Process) returns (run: seq<Action>, t: State)
    requires p in s.processes && s.processes[p].Scan? && s.processes[p].left <= s.workers.Keys
    requires forall w | w in s.workers :: s.workers[w] == s.processes[p].loaded.kind
    ensures IsRun(s, run, t) && t.history == s.history && t.workers == s.workers && t.processes.Keys == s.processes.Keys
    ensures t.processes[p].Scan? && t.processes[p].left == {} && t.processes[p].loaded == s.processes[p].loaded
    ensures forall q | q in s.processes && q != p :: t.processes[q] == s.processes[q]
    decreases s.processes[p].left
  {
    hide IsRun;
    if s.processes[p].left == {} {
      run, t := [], s;
      EmptyRun(s);
    } else {
      var w :| w in s.processes[p].left;
      var next := Do(s, ReadWorker(p, w));
      run, t := ScanCanEnd(next, p);
      run := Extended(s, ReadWorker(p, w), next, run, t);
    }
  }

  /** Where all workers report the type of the stored state, the manager can mark it as accomplished. */
  lemma ManagerCanMark(s: State, p: Process) returns (run: seq<Action>, t: State)
    requires FreeFor(s, p) && Stored(s).Some? && !Stored(s).value.accomplished
    requires forall w | w in s.workers :: s.workers[w] == Stored(s).value.kind
    ensures IsRun(s, run, t) && Stored(t) == Some(Stored(s).value.(accomplished := true))
  {
    hide IsRun;
    var s2 := Move(s, p, Poll);
    var s3 := Do(s2, Load(p));
    var scan, s4 := ScanCanEnd(s3, p);
    t := Do(s4, Store(p));
    EmptyRun(t);
    run := Extended(s4, Store(p), t, [], t);
    RunsJoin(s3, scan, s4, run, t);
    run := Extended(s2, Load(p), s3, scan + run, t);
    assert Do(Do(s, Start(p, WantPoll)), Acquire(p)) == s2;
    run := Acquires(s, p, WantPoll, run, t);
  }

  lemma {:induction false} RunsJoin(s: State, first: seq<Action>, m: State, second: seq<Action>, t: State)
    requires IsRun(s, first, m) && IsRun(m, second, t)
    ensures IsRun(s, first + second, t)
    decreases |first|
  {
    hide Enabled, Do;
    if first == [] {
      assert first + second == second;
    } else {
      assert (first + second)[1..] == first[1..] + second;
      RunsJoin(Do(s, first[0]), first[1..], m, second, t);
    }
  }

  // ---- the scan is not atomic ----

  const WANTED := AppState(Maintenance, "", false)
  const SETTER := State([Write(BySetter, WANTED)], map[1 := Maintenance], map[], {}, {1})

  const SCANNING := SETTER.(processes := map[0 := Scan(WANTED, {1}, {})], joined := {})
  const ENDED := SCANNING.(
    workers := map[1 := Normal], processes := map[0 := Leave],
    history := SETTER.history + [Write(ByManager, WANTED.(accomplished := true))])

  lemma ScanBegins(rest: seq<Action>) returns (run: seq<Action>)
    requires IsRun(SCANNING, rest, ENDED)
    ensures IsRun(SETTER, run, ENDED)
  {
    hide IsRun;
    var s1 := SETTER.(processes := map[0 := WantPoll]);
    var s2 := SETTER.(processes := map[0 := Poll]);
    assert SETTER.workers.Keys == {1};
    run := Extended(s2, Load(0), SCANNING, rest, ENDED);
    run := Extended(s1, Acquire(0), s2, run, ENDED);
    run := Extended(SETTER, Start(0, WantPoll), s1, run, ENDED);
  }

  lemma ScanEnds() returns (run: seq<Action>)
    ensures IsRun(SCANNING, run, ENDED)
  {
    hide IsRun;
    var none: set<Worker> := {};
    assert {1} - {1} == none && none + {1} == {1} && map[1 := Maintenance][1 := Normal] == map[1 := Normal];
    var s4 := SCANNING.(processes := map[0 := Scan(WANTED, {}, {1})], steady := {1});
    var s5 := s4.(workers := map[1 := Normal], steady := {});
    EmptyRun(ENDED);
    run := Extended(s5, Store(0), ENDED, [], ENDED);
    run := Extended(s4, Report(1, Normal), s5, run, ENDED);
    run := Extended(SCANNING, ReadWorker(0, 1), s4, run, ENDED);
  }

  /** The manager can mark a state as accomplished although a worker reports another one by then. */
  lemma NotAllReportAtTheWrite()
    ensures exists run, s :: IsRun(INITIAL, run, s) && Stored(s) == Some(WANTED.(accomplished := true)) && s.workers == map[1 := Normal]
  {
    hide IsRun;
    var s := ENDED;
    var run := ScanEnds();
    run := ScanBegins(run);
    var t0 := State([], map[1 := Maintenance], map[], {}, {1});
    var t1 := t0.(processes := map[5 := WantSet(WANTED)]);
    var t2 := t0.(processes := map[5 := Set(WANTED)]);
    var t3 := SETTER.(processes := map[5 := Leave]);
    run := Extended(t3, Release(5), SETTER, run, s);
    run := Extended(t2, Store(5), t3, run, s);
    run := Extended(t1, Acquire(5), t2, run, s);
    run := Extended(t0, Start(5, WantSet(WANTED)), t1, run, s);
    run := Extended(INITIAL, Report(1, Maintenance), t0, run, s);
  }
}
