/**
 Several processes that resize one pool (`_resize` of `concurrency/lean.py` and
 `concurrency/build.py`).  Each keeps counters of its own and reads the published limit twice
 before it writes: once to step from it, and once to see whether anything changes.
 */
module ResizeRaces {
  import opened Options
  import opened Reachability
  import opened Resizing

  /** Where an observation stands; `seen` is how many changes had been published when it read the limit. */
  datatype Pc =
    | Idle
    | Reading(direction: Direction, at: int)
    | Comparing(target: nat, at: int, emergency: bool, seen: nat)
    | Writing(target: nat, at: int, emergency: bool, seen: nat)

  datatype Process = Process(grown: nat, shrunk: nat, lastResize: Option<int>, pc: Pc)

  /** A published change; `late` if others had published since its process read the limit. */
  datatype Change = Change(process: string, at: int, emergency: bool, late: bool, before: nat, after: nat)

  datatype World = World(limit: nat, processes: map<string, Process>, log: seq<Change>, now: int)

  datatype Event =
    | Sample(process: string, direction: Direction, at: int)
    | Go(process: string)

  predicate Enabled(w: World, e: Event) {
    && e.process in w.processes
    && match e
       case Sample(q, _, at) => w.processes[q].pc == Idle && at >= w.now
       case Go(q) => w.processes[q].pc != Idle
  }

  predicate Due(p: Policy, samples: nat, lastResize: Option<int>, now: int) {
    samples >= p.hysteresis && (lastResize.None? || now - lastResize.value >= p.interval)
  }

  function Sampled(p: Policy, w: World, q: Process, direction: Direction, at: int): Process {
    if p.fixed then q
    else match direction
      case Emergency => q.(pc := Comparing(p.minimum, at, true, |w.log|))
      case Shrink =>
        q.(shrunk := q.shrunk + 1, grown := 0,
           pc := if Due(p, q.shrunk + 1, q.lastResize, at) then Reading(Shrink, at) else Idle)
      case Grow =>
        q.(grown := q.grown + 1, shrunk := 0,
           pc := if Due(p, q.grown + 1, q.lastResize, at) then Reading(Grow, at) else Idle)
      case Hold => q.(grown := 0, shrunk := 0)
  }

  /** One step from the limit, inside the bounds. */
  function Target(p: Policy, limit: nat, direction: Direction): nat {
    Clamped(p, if direction == Grow then limit + 1 else limit - 1)
  }

  function Proceed(p: Policy, w: World, name: string): World
    requires name in w.processes
  {
    var q := w.processes[name];
    match q.pc
    case Idle => w
    case Reading(d, at) =>
      w.(processes := w.processes[name := q.(pc := Comparing(Target(p, w.limit, d), at, false, |w.log|))])
    case Comparing(target, at, emergency, seen) =>
      w.(processes := w.processes[name :=
        if target != w.limit then q.(pc := Writing(target, at, emergency, seen))
        else q.(grown := 0, shrunk := 0, pc := Idle)])
    case Writing(target, at, emergency, seen) =>
      w.(limit := target,
         processes := w.processes[name := Process(0, 0, Some(at), Idle)],
         log := w.log + [Change(name, at, emergency, seen != |w.log|, w.limit, target)])
  }

  function Next(p: Policy, w: World, e: Event): World
    requires e.process in w.processes
  {
    match e
    case Sample(q, d, at) => w.(processes := w.processes[q := Sampled(p, w, w.processes[q], d, at)], now := at)
    case Go(q) => Proceed(p, w, q)
  }

  ghost predicate Run(p: Policy, w: World, events: seq<Event>)
    decreases |events|
  {
    events == [] || (Enabled(w, events[0]) && Run(p, Next(p, w, events[0]), events[1..]))
  }

  ghost function After(p: Policy, w: World, events: seq<Event>): World
    requires Run(p, w, events)
    decreases |events|
  {
    if events == [] then w else After(p, Next(p, w, events[0]), events[1..])
  }

  // ---- Alone, the steps are one observation ----

  function PoolOf(w: World, name: string): Pool
    requires name in w.processes
  {
    var q := w.processes[name];
    Pool(w.limit, q.grown, q.shrunk, q.lastResize)
  }

  function Finished(p: Policy, w: World, name: string, steps: nat): (end: World)
    requires name in w.processes
    ensures name in end.processes
    decreases steps
  {
    if steps == 0 || w.processes[name].pc == Idle then w else Finished(p, Proceed(p, w, name), name, steps - 1)
  }

  lemma FinishCompares(p: Policy, w: World, name: string)
    requires name in w.processes && w.processes[name].pc.Comparing?
    ensures var q, after := w.processes[name], Finished(p, w, name, 2);
            && after.processes[name].pc == Idle
            && PoolOf(after, name)
               == Pool(q.pc.target, 0, 0, if q.pc.target != w.limit then Some(q.pc.at) else q.lastResize)
  {
    var w1 := Proceed(p, w, name);
    assert Finished(p, w, name, 2) == Finished(p, w1, name, 1);
    if w1.processes[name].pc != Idle {
      assert Finished(p, w1, name, 1) == Finished(p, Proceed(p, w1, name), name, 0);
    }
  }

  lemma FinishReads(p: Policy, w: World, name: string)
    requires name in w.processes && w.processes[name].pc.Reading?
    ensures Finished(p, w, name, 3) == Finished(p, Proceed(p, w, name), name, 2)
    ensures Proceed(p, w, name).processes[name].pc.Comparing?
  {
  }

  /** With nobody in between, three steps at most finish what one controller does in a call. */
  lemma UndisturbedIsObserve(p: Policy, w: World, name: string, d: Direction, at: int)
    requires Enabled(w, Sample(name, d, at))
    ensures var after := Finished(p, Next(p, w, Sample(name, d, at)), name, 3);
            after.processes[name].pc == Idle && PoolOf(after, name) == Observe(p, PoolOf(w, name), d, at)
  {
    var w1 := Next(p, w, Sample(name, d, at));
    if w1.processes[name].pc.Reading? {
      FinishReads(p, w1, name);
      FinishCompares(p, Proceed(p, w1, name), name);
    } else if w1.processes[name].pc.Comparing? {
      FinishCompares(p, w1, name);
      MoreSteps(p, w1, name);
    }
  }

  lemma MoreSteps(p: Policy, w: World, name: string)
    requires name in w.processes && w.processes[name].pc.Comparing?
    ensures Finished(p, w, name, 3) == Finished(p, w, name, 2)
  {
    var w1 := Proceed(p, w, name);
    assert Finished(p, w, name, 3) == Finished(p, w1, name, 2) && Finished(p, w, name, 2) == Finished(p, w1, name, 1);
    if w1.processes[name].pc != Idle {
      var w2 := Proceed(p, w1, name);
      assert Finished(p, w1, name, 2) == Finished(p, w2, name, 1) == w2 && Finished(p, w1, name, 1) == w2;
    }
  }

  // ---- What every step keeps ----

  predicate InBounds(p: Policy, n: nat) {
    p.minimum <= n <= p.maximum
  }

  /** All that `process` has published is an interval before `at`. */
  ghost predicate Clear(p: Policy, log: seq<Change>, process: string, at: int) {
    forall i :: 0 <= i < |log| && log[i].process == process ==> at - log[i].at >= p.interval
  }

  /** The target is one step from a limit that is still published, if nothing was published since. */
  predicate Fresh(p: Policy, w: World, target: nat, emergency: bool, seen: nat) {
    seen == |w.log| && !emergency ==> target in {Target(p, w.limit, Grow), Target(p, w.limit, Shrink)}
  }

  /** No change of the process is later than `latest`. */
  ghost predicate Remembered(log: seq<Change>, name: string, latest: Option<int>) {
    forall i :: 0 <= i < |log| && log[i].process == name ==> latest.Some? && log[i].at <= latest.value
  }

  ghost predicate PcInv(p: Policy, w: World, name: string, pc: Pc) {
    match pc
    case Idle => true
    case Reading(_, at) => at <= w.now && Remembered(w.log, name, Some(at)) && Clear(p, w.log, name, at)
    case Comparing(target, at, emergency, seen) =>
      && at <= w.now && Remembered(w.log, name, Some(at)) && (!emergency ==> Clear(p, w.log, name, at))
      && seen <= |w.log| && InBounds(p, target) && Fresh(p, w, target, emergency, seen)
    case Writing(target, at, emergency, seen) =>
      && at <= w.now && Remembered(w.log, name, Some(at)) && (!emergency ==> Clear(p, w.log, name, at))
      && seen <= |w.log| && InBounds(p, target) && Fresh(p, w, target, emergency, seen)
      && (seen == |w.log| ==> target != w.limit)
  }

  ghost predicate ProcessInv(p: Policy, w: World, name: string)
    requires name in w.processes
  {
    && Remembered(w.log, name, w.processes[name].lastResize)
    && PcInv(p, w, name, w.processes[name].pc)
  }

  /** Outside emergencies a process waits out its interval, and an undisturbed change is one step. */
  ghost predicate Spaced(p: Policy, log: seq<Change>) {
    forall i, j :: 0 <= i < j < |log| && log[i].process == log[j].process && !log[j].emergency ==>
      log[j].at - log[i].at >= p.interval
  }

  predicate ByOne(c: Change) {
    !c.emergency && !c.late ==> c.after == c.before + 1 || c.before == c.after + 1
  }

  ghost predicate LogInv(p: Policy, w: World) {
    && Spaced(p, w.log)
    && forall i :: 0 <= i < |w.log| ==>
         w.log[i].process in w.processes && w.log[i].at <= w.now && ByOne(w.log[i])
  }

  ghost predicate Inv(p: Policy, w: World) {
    && InBounds(p, w.limit) && LogInv(p, w)
    && forall name :: name in w.processes ==> ProcessInv(p, w, name)
  }

  lemma DueIsClear(p: Policy, w: World, name: string, at: int)
    requires name in w.processes && Remembered(w.log, name, w.processes[name].lastResize)
    requires w.processes[name].lastResize.None? || at - w.processes[name].lastResize.value >= p.interval
    ensures Clear(p, w.log, name, at)
  {
  }

  lemma SampleKeepsInv(p: Policy, w: World, name: string, d: Direction, at: int)
    requires ValidPolicy(p) && Inv(p, w) && Enabled(w, Sample(name, d, at))
    ensures Inv(p, Next(p, w, Sample(name, d, at)))
  {
    var next := Next(p, w, Sample(name, d, at));
    var q := w.processes[name];
    assert ProcessInv(p, w, name);
    if q.lastResize.None? || at - q.lastResize.value >= p.interval {
      DueIsClear(p, w, name, at);
    }
    forall other | other in next.processes ensures ProcessInv(p, next, other) {
      if other != name {
        assert ProcessInv(p, w, other);
      }
    }
  }

  lemma StepKeepsInv(p: Policy, w: World, name: string)
    requires ValidPolicy(p) && Inv(p, w) && Enabled(w, Go(name)) && !w.processes[name].pc.Writing?
    ensures Inv(p, Next(p, w, Go(name)))
  {
    var next := Next(p, w, Go(name));
    assert ProcessInv(p, w, name);
    forall other | other in next.processes ensures ProcessInv(p, next, other) {
      if other != name {
        assert ProcessInv(p, w, other);
      }
    }
  }

  lemma TargetIsOneStep(p: Policy, limit: nat, target: nat)
    requires ValidPolicy(p) && InBounds(p, limit) && target != limit
    requires target in {Target(p, limit, Grow), Target(p, limit, Shrink)}
    ensures target == limit + 1 || limit == target + 1
  {
  }

  lemma WriteKeepsLog(p: Policy, w: World, name: string)
    requires ValidPolicy(p) && Inv(p, w) && name in w.processes && w.processes[name].pc.Writing?
    ensures LogInv(p, Next(p, w, Go(name)))
  {
    var pc := w.processes[name].pc;
    assert ProcessInv(p, w, name);
    if pc.seen == |w.log| && !pc.emergency {
      TargetIsOneStep(p, w.limit, pc.target);
    }
  }

  lemma OthersKeepInv(p: Policy, w: World, name: string, other: string)
    requires ValidPolicy(p) && Inv(p, w) && name in w.processes && w.processes[name].pc.Writing?
    requires other in w.processes && other != name
    ensures ProcessInv(p, Next(p, w, Go(name)), other)
  {
    assert ProcessInv(p, w, other);
  }

  lemma WriteKeepsInv(p: Policy, w: World, name: string)
    requires ValidPolicy(p) && Inv(p, w) && name in w.processes && w.processes[name].pc.Writing?
    ensures Inv(p, Next(p, w, Go(name)))
  {
    var next := Next(p, w, Go(name));
    WriteKeepsLog(p, w, name);
    assert ProcessInv(p, w, name);
    assert Remembered(next.log, name, Some(w.processes[name].pc.at));
    forall other | other in next.processes ensures ProcessInv(p, next, other) {
      if other != name {
        OthersKeepInv(p, w, name, other);
      }
    }
  }

  lemma NextKeepsInv(p: Policy, w: World, e: Event)
    requires ValidPolicy(p) && Inv(p, w) && Enabled(w, e)
    ensures Inv(p, Next(p, w, e)) && Next(p, w, e).processes.Keys == w.processes.Keys
  {
    match e
    case Sample(q, d, at) => SampleKeepsInv(p, w, q, d, at);
    case Go(q) =>
      if w.processes[q].pc.Writing? {
        WriteKeepsInv(p, w, q);
      } else {
        StepKeepsInv(p, w, q);
      }
  }

  /**
   However the processes interleave, the limit stays within the bounds; a change that nobody
   overtook is one step; and outside emergencies each process leaves an interval between its changes.
   */
  lemma {:induction false} RunKeepsInv(p: Policy, w: World, events: seq<Event>)
    requires ValidPolicy(p) && Inv(p, w) && Run(p, w, events)
    ensures Inv(p, After(p, w, events)) && After(p, w, events).processes.Keys == w.processes.Keys
    decreases |events|
  {
    if events == [] {
    } else {
      NextKeepsInv(p, w, events[0]);
      RunKeepsInv(p, Next(p, w, events[0]), events[1..]);
    }
  }

  // ---- What one interval allows ----

  /** Changes outside emergencies that were decided within one interval from `start` on. */
  ghost function Within(p: Policy, log: seq<Change>, start: int): set<nat> {
    set i: nat | i < |log| && !log[i].emergency && start <= log[i].at < start + p.interval
  }

  lemma {:induction false} DifferentProcesses(p: Policy, log: seq<Change>, start: int, changes: set<nat>)
    requires Spaced(p, log) && changes <= Within(p, log, start)
    ensures |changes| == |set i | i in changes :: log[i].process|
    decreases |changes|
  {
    if changes == {} {
    } else {
      var i :| i in changes;
      var rest := changes - {i};
      DifferentProcesses(p, log, start, rest);
      forall j | j in rest ensures log[j].process != log[i].process {
        assert Spaced(p, log);
        if j < i {
          assert log[j].at < start + p.interval <= log[j].at + p.interval;
        }
      }
      assert (set j | j in changes :: log[j].process) == (set j | j in rest :: log[j].process) + {log[i].process};
    }
  }

  /** Outside emergencies, one interval sees at most one change from each process. */
  lemma OneIntervalAllows(p: Policy, w: World, events: seq<Event>, start: int)
    requires ValidPolicy(p) && Inv(p, w) && Run(p, w, events)
    ensures |Within(p, After(p, w, events).log, start)| <= |w.processes|
  {
    RunKeepsInv(p, w, events);
    var log := After(p, w, events).log;
    var changes := Within(p, log, start);
    DifferentProcesses(p, log, start, changes);
    var names := set i | i in changes :: log[i].process;
    assert names <= w.processes.Keys;
    SubsetSize(names, w.processes.Keys);
    assert |w.processes| == |w.processes.Keys|;
  }

  // ---- What the second reading does not prevent ----

  lemma {:induction false} RunStarts(p: Policy, w: World, e: Event, next: World, rest: seq<Event>)
    requires Enabled(w, e) && next == Next(p, w, e) && Run(p, next, rest)
    ensures Run(p, w, [e] + rest) && After(p, w, [e] + rest) == After(p, next, rest)
  {
    assert ([e] + rest)[1..] == rest;
  }

  function Growing(target: nat): Process {
    Process(1, 0, None, Writing(target, 0, false, 0))
  }

  /** Both processes rest at limit 5; one sample is enough to resize. */
  function Resting(): World {
    World(5, map["a" := Process(0, 0, None, Idle), "b" := Process(0, 0, None, Idle)], [], 0)
  }

  function OneSample(): Policy {
    Policy(0, 9, false, 0, 1)
  }

  /** One process is about to publish 6. */
  function AboutToGrow(): World {
    Resting().(processes := map["a" := Growing(6), "b" := Process(0, 0, None, Idle)])
  }

  lemma GrowthIsPrepared(rest: seq<Event>)
    requires Run(OneSample(), AboutToGrow(), rest)
    ensures Run(OneSample(), Resting(), [Sample("a", Grow, 0)] + ([Go("a")] + ([Go("a")] + rest)))
    ensures After(OneSample(), Resting(), [Sample("a", Grow, 0)] + ([Go("a")] + ([Go("a")] + rest)))
         == After(OneSample(), AboutToGrow(), rest)
  {
    var p := OneSample();
    var b := Process(0, 0, None, Idle);
    var w1 := Resting().(processes := map["a" := Process(1, 0, None, Reading(Grow, 0)), "b" := b]);
    var w2 := Resting().(processes := map["a" := Process(1, 0, None, Comparing(6, 0, false, 0)), "b" := b]);
    RunStarts(p, w2, Go("a"), AboutToGrow(), rest);
    RunStarts(p, w1, Go("a"), w2, [Go("a")] + rest);
    RunStarts(p, Resting(), Sample("a", Grow, 0), w1, [Go("a")] + ([Go("a")] + rest));
  }

  /** The other sees an emergency and publishes the minimum; then the first publishes its 6. */
  function Undoing(): seq<Event> {
    [Sample("b", Emergency, 0)] + ([Go("b")] + ([Go("b")] + ([Go("a")] + [])))
  }

  lemma EmergencyIsOvertaken()
    ensures Run(OneSample(), AboutToGrow(), Undoing())
    ensures var end := After(OneSample(), AboutToGrow(), Undoing());
            end.limit == 6 && |end.log| == 2 && end.log[0] == Change("b", 0, true, false, 5, 0)
  {
    var p := OneSample();
    var shrunk := Change("b", 0, true, false, 5, 0);
    var idle := Process(0, 0, Some(0), Idle);
    var w1 := AboutToGrow().(processes :=
      map["a" := Growing(6), "b" := Process(0, 0, None, Comparing(0, 0, true, 0))]);
    var w2 := AboutToGrow().(processes :=
      map["a" := Growing(6), "b" := Process(0, 0, None, Writing(0, 0, true, 0))]);
    var w3 := World(0, map["a" := Growing(6), "b" := idle], [shrunk], 0);
    var w4 := World(6, map["a" := idle, "b" := idle], [shrunk, Change("a", 0, false, true, 0, 6)], 0);
    RunStarts(p, w3, Go("a"), w4, []);
    RunStarts(p, w2, Go("b"), w3, [Go("a")] + []);
    RunStarts(p, w1, Go("b"), w2, [Go("b")] + ([Go("a")] + []));
    RunStarts(p, AboutToGrow(), Sample("b", Emergency, 0), w1, [Go("b")] + ([Go("b")] + ([Go("a")] + [])));
  }

  /** A process that has read the limit before another's emergency undoes it in one change. */
  lemma EmergencyMayBeUndone()
    ensures var events := [Sample("a", Grow, 0)] + ([Go("a")] + ([Go("a")] + Undoing()));
            && Inv(OneSample(), Resting()) && Run(OneSample(), Resting(), events)
            && After(OneSample(), Resting(), events).limit == 6
  {
    EmergencyIsOvertaken();
    GrowthIsPrepared(Undoing());
  }

  // ---- When an emergency holds ----

  /** What the process has under way ends at the minimum, if the minimum is what it finds published. */
  predicate Harmless(p: Policy, pc: Pc) {
    match pc
    case Idle => true
    case Reading(direction, _) => Target(p, p.minimum, direction) == p.minimum
    case Comparing(target, _, _, _) => target == p.minimum
    case Writing(target, _, _, _) => target == p.minimum
  }

  ghost predicate AllHarmless(p: Policy, w: World) {
    forall name :: name in w.processes ==> Harmless(p, w.processes[name].pc)
  }

  predicate NoSamples(events: seq<Event>) {
    forall e | e in events :: e.Go?
  }

  /** However the steps under way are ordered and wherever they stop, the minimum is published. */
  ghost predicate Stands(p: Policy, w: World) {
    forall events :: Run(p, w, events) && NoSamples(events) ==> After(p, w, events).limit == p.minimum
  }

  lemma HarmlessStep(p: Policy, w: World, name: string)
    requires name in w.processes && w.limit == p.minimum && Harmless(p, w.processes[name].pc)
    ensures Proceed(p, w, name).limit == p.minimum && Harmless(p, Proceed(p, w, name).processes[name].pc)
    ensures forall other :: other in w.processes && other != name ==>
              other in Proceed(p, w, name).processes && Proceed(p, w, name).processes[other] == w.processes[other]
    ensures Proceed(p, w, name).processes.Keys == w.processes.Keys
  {
  }

  lemma {:induction false} HarmlessRun(p: Policy, w: World, events: seq<Event>)
    requires w.limit == p.minimum && AllHarmless(p, w) && Run(p, w, events) && NoSamples(events)
    ensures After(p, w, events).limit == p.minimum
    decreases |events|
  {
    if events == [] {
    } else {
      assert events[0] in events;
      HarmlessStep(p, w, events[0].process);
      HarmlessRun(p, Next(p, w, events[0]), events[1..]);
    }
  }

  /** The process goes on alone to its end. */
  function Alone(name: string, steps: nat): seq<Event> {
    if steps == 0 then [] else [Go(name)] + Alone(name, steps - 1)
  }

  function StepsLeft(pc: Pc): nat {
    match pc
    case Idle => 0
    case Reading(_, _) => 3
    case Comparing(_, _, _, _) => 2
    case Writing(_, _, _, _) => 1
  }

  lemma {:induction false} HarmIsDone(p: Policy, w: World, name: string)
    requires w.limit == p.minimum && name in w.processes && !Harmless(p, w.processes[name].pc)
    ensures var events := Alone(name, StepsLeft(w.processes[name].pc));
            Run(p, w, events) && NoSamples(events) && After(p, w, events).limit != p.minimum
    decreases StepsLeft(w.processes[name].pc)
  {
    var next := Next(p, w, Go(name));
    var k := StepsLeft(w.processes[name].pc) - 1;
    if !w.processes[name].pc.Writing? {
      HarmIsDone(p, next, name);
    }
    RunStarts(p, w, Go(name), next, Alone(name, k));
  }

  /** A published minimum stands until the next sample if and only if nobody has a harmful step under way. */
  lemma MinimumStandsExactly(p: Policy, w: World)
    requires w.limit == p.minimum
    ensures Stands(p, w) <==> AllHarmless(p, w)
  {
    if AllHarmless(p, w) {
      forall events | Run(p, w, events) && NoSamples(events) ensures After(p, w, events).limit == p.minimum {
        HarmlessRun(p, w, events);
      }
    }
    if Stands(p, w) {
      forall name | name in w.processes ensures Harmless(p, w.processes[name].pc) {
        if !Harmless(p, w.processes[name].pc) {
          HarmIsDone(p, w, name);
        }
      }
    }
  }

  lemma {:induction false} LogGrows(p: Policy, w: World, events: seq<Event>)
    requires Run(p, w, events)
    ensures w.log <= After(p, w, events).log
    decreases |events|
  {
    if events == [] {
    } else {
      LogGrows(p, Next(p, w, events[0]), events[1..]);
    }
  }

  function Samplers(events: seq<Event>): set<string> {
    set e | e in events && e.Sample? :: e.process
  }

  /** Change number `i` takes the limit off the minimum, by one of `names`. */
  predicate Leaves(p: Policy, log: seq<Change>, i: nat, names: set<string>) {
    i < |log| && log[i].before == p.minimum != log[i].after && log[i].process in names
  }

  lemma {:induction false} OnlySamplersLeave(p: Policy, w: World, events: seq<Event>, names: set<string>)
    requires w.limit == p.minimum && Run(p, w, events) && Samplers(events) <= names
    requires forall name :: name in w.processes && !Harmless(p, w.processes[name].pc) ==> name in names
    ensures var end := After(p, w, events);
            end.limit == p.minimum || exists i :: |w.log| <= i && Leaves(p, end.log, i, names)
    decreases |events|
  {
    if events == [] {
    } else {
      var e := events[0];
      var next := Next(p, w, e);
      assert forall x :: x in events[1..] ==> x in events;
      assert e.Sample? ==> e.process in Samplers(events);
      if e.Go? && Harmless(p, w.processes[e.process].pc) {
        HarmlessStep(p, w, e.process);
      }
      if next.limit == p.minimum {
        OnlySamplersLeave(p, next, events[1..], names);
      } else {
        LogGrows(p, next, events[1..]);
        assert Leaves(p, next.log, |w.log|, names);
        assert Leaves(p, After(p, w, events).log, |w.log|, names);
      }
    }
  }

  /** Whatever is sampled: a minimum over harmless steps is first left by a process that has sampled since. */
  lemma MinimumIsLeftBySamplers(p: Policy, w: World, events: seq<Event>)
    requires w.limit == p.minimum && AllHarmless(p, w) && Run(p, w, events)
    ensures var end := After(p, w, events);
            end.limit != p.minimum ==> exists i :: |w.log| <= i && Leaves(p, end.log, i, Samplers(events))
  {
    OnlySamplersLeave(p, w, events, Samplers(events));
  }
}
