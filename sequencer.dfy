/** The whole program as a value: the coroutine slot, the Once flag, the
    shared sensor counter and the block lists, and what each entry point does
    to them. The class `Airlock.Program` is proved to follow these
    definitions; the lemmas here are what they promise. */
module Sequencer {
  import opened Wrappers
  import opened Counter
  import opened Actuators
  import opened Tasks
  import opened Configuration
  import opened Commands

  datatype State = State(
    coroutine: Option<Task>,   // the single `coroutine` slot
    armed: bool,               // `UpdateFrequency.Once` requested
    detections: Int32,         // `currentSensorDetections`
    blocks: Blocks)

  /** An exception that leaves `Main`. */
  datatype Failure = TaskFault(fault: Fault) | ResetFailed(error: ResetError)

  /** The state after an entry point, the commands it sent in order, and the
      exception it ended with, if any. */
  datatype Effect = Effect(state: State, commands: seq<Command>, failure: Option<Failure>)

  function Quiet(s: State): Effect {
    Effect(s, [], None)
  }

  /** `StartCoroutine`: the task takes the slot, whatever held it, and a run
      is requested. The task that was there is simply dropped. */
  function Start(s: State, t: Task): State {
    s.(coroutine := Some(t), armed := true)
  }

  /** `RunCoroutine`: one `MoveNext()` of the task in the slot, if any. */
  function RunCoroutine(s: State, env: Env): Effect {
    match s.coroutine
    case None => Quiet(s)
    case Some(t) =>
      var r := Step(t, s.blocks, s.detections, env);
      var s1 := s.(detections := r.detections);
      match r.outcome
      case Suspended(next) => Effect(s1.(coroutine := Some(next), armed := true), r.commands, None)
      case Completed => Effect(s1.(coroutine := None), r.commands, None)
      case Faulted(fault) => Effect(s1.(coroutine := Some(Exhausted)), r.commands, Some(TaskFault(fault)))
  }

  /** `OnInteriorSensorEnter` / `OnExteriorSensorEnter`: count, and start
      `task` only if the counter was 0 before. */
  function SensorEnter(s: State, task: Task): Effect {
    var s1 := s.(detections := Inc(s.detections));
    if s.detections > 0 then Quiet(s1) else Quiet(Start(s1, task))
  }

  /** `OnInteriorSensorExit` / `OnExteriorSensorExit` / `OnAirlockSensorExit`:
      uncount, and close the given doors. */
  function SensorExit(s: State, close: seq<DoorId>): Effect {
    Effect(s.(detections := Dec(s.detections)), Broadcast(close, Close), None)
  }

  /** One entry of the command table. */
  function Handle(s: State, h: Handler, ini: Ini, grid: Grid): Effect {
    match h
    case ResetCommand =>
      var r := Reset(s.blocks, ini, grid);
      Effect(s.(blocks := r.blocks), [], if r.error.Some? then Some(ResetFailed(r.error.value)) else None)
    case Sensor(e) => Sense(s, e)
  }

  /** One of the sensor handlers; they read only the door lists. */
  function Sense(s: State, e: Event): Effect {
    match e
    case InteriorEnter => SensorEnter(s, OpenInteriorDoors(OpenCreated))
    case InteriorExit => SensorExit(s, s.blocks.interiorDoors)
    case AirlockEnter => Quiet(Start(s, AirlockCycle(CycleCreated)))
    case AirlockExit => SensorExit(s, [])
    case ExteriorEnter => SensorEnter(s, OpenExteriorDoors(OpenCreated))
    case ExteriorExit => SensorExit(s, s.blocks.exteriorDoors)
  }

  /** `RunCommand`: the first word selects the table entry to run. */
  function RunCommand(s: State, words: Option<seq<string>>, ini: Ini, grid: Grid): Effect {
    Perform(s, Resolve(words), ini, grid)
  }

  /** What the selected entry does; an unknown word is only echoed. */
  function Perform(s: State, d: Dispatch, ini: Ini, grid: Grid): Effect {
    match d
    case Known(h) => Handle(s, h, ini, grid)
    case _ => Quiet(s)
  }

  /** `Main`: the command first; then, on a run the Once flag caused and only
      if the command did not throw, one step of the coroutine. */
  function Tick(s: State, words: Option<seq<string>>, once: bool, ini: Ini, grid: Grid, env: Env): Effect {
    Then(RunCommand(s, words, ini, grid), once, env)
  }

  /** The second half of `Main`, after the command had effect `c`. */
  function Then(c: Effect, once: bool, env: Env): Effect {
    if c.failure.Some? || !once then c
    else
      var r := RunCoroutine(c.state, env);
      r.(commands := c.commands + r.commands)
  }

  // ---------------------------------------------------------------- scheduler

  /** The second half of `Main` does not depend on what the command sent. */
  lemma ThenAppends(c: Effect, once: bool, env: Env)
    ensures var e := Then(Effect(c.state, [], c.failure), once, env);
      Then(c, once, env) == e.(commands := c.commands + e.commands)
  {
  }


  /** The slot holds one task at most, and starting one discards the old one
      without running it: the state after a start is the same whatever the
      slot held, so nothing later can depend on it, and a superseded airlock
      cycle never counts itself. */
  lemma StartDiscards(s: State, t: Task, env: Env)
    ensures Start(s, t).coroutine == Some(t) && Start(s, t).armed
    ensures Start(s, t) == Start(s.(coroutine := None), t)
    ensures RunCoroutine(Start(s, t), env) == RunCoroutine(Start(s.(coroutine := None), t), env)
  {
  }

  /** The cases of `RunCoroutine`: an empty slot changes nothing; a step
      that yields keeps its task and asks for another run; a step that
      finishes empties the slot and leaves the Once flag as it was; a step
      that throws leaves the finished iterator in the slot, leaves the flag
      as it was, and reports the exception. Only a throwing step fails. */
  lemma RunCoroutineCases(s: State, env: Env)
    ensures s.coroutine.None? ==> RunCoroutine(s, env) == Quiet(s)
    ensures s.coroutine.Some? ==>
      var step := Step(s.coroutine.value, s.blocks, s.detections, env);
      var r := RunCoroutine(s, env);
      && r.commands == step.commands
      && r.state.blocks == s.blocks
      && r.state.detections == step.detections
      && (step.outcome.Suspended? ==> r.state.coroutine == Some(step.outcome.next) && r.state.armed)
      && (step.outcome.Completed? ==> r.state.coroutine.None? && r.state.armed == s.armed)
      && (step.outcome.Faulted? ==>
            && r.state.coroutine == Some(Exhausted) && r.state.armed == s.armed
            && r.failure == Some(TaskFault(step.outcome.fault)))
      && (r.failure.None? <==> !step.outcome.Faulted?)
  {
  }

  /** `Main` sends the command's commands before the step's, and the step
      sees the state the command left; without the Once flag it never steps. */
  lemma TickOrder(s: State, words: Option<seq<string>>, once: bool, ini: Ini, grid: Grid, env: Env)
    ensures var c := RunCommand(s, words, ini, grid);
      var r := Tick(s, words, once, ini, grid, env);
      && c.commands <= r.commands
      && (!once ==> r == c)
      && (once && c.failure.None? ==>
            r.state == RunCoroutine(c.state, env).state
            && r.commands[|c.commands|..] == RunCoroutine(c.state, env).commands)
  {
  }

  // ---------------------------------------------------------------- sensors

  /** An enter always counts, and starts its task exactly when the counter
      was not positive (0 in correct operation; a counter driven below 0 by
      unpaired exits also lets it through); an engaged counter leaves the
      running task alone. */
  lemma EnterGuard(s: State, e: Event)
    requires e == InteriorEnter || e == ExteriorEnter
    ensures var r := Sense(s, e);
      && r.commands == [] && r.failure.None?
      && r.state.detections == Inc(s.detections)
      && r.state.blocks == s.blocks
      && (s.detections <= 0 ==>
            r.state.armed
            && r.state.coroutine == Some(if e == InteriorEnter then OpenInteriorDoors(OpenCreated)
                                         else OpenExteriorDoors(OpenCreated)))
      && (s.detections > 0 ==> r.state.coroutine == s.coroutine && r.state.armed == s.armed)
  {
  }

  /** An exit uncounts and closes every door of its own side, whatever the
      counter says and without touching the task in the slot;
      `airlock_exit` only uncounts. */
  lemma ExitCloses(s: State, e: Event)
    requires e == InteriorExit || e == ExteriorExit || e == AirlockExit
    ensures var r := Sense(s, e);
      && r.state == s.(detections := Dec(s.detections))
      && r.failure.None?
      && r.commands == (if e == InteriorExit then Broadcast(s.blocks.interiorDoors, Close)
                        else if e == ExteriorExit then Broadcast(s.blocks.exteriorDoors, Close)
                        else [])
  {
  }

  /** Sensor events handled back to back, with no run of the task between. */
  function ApplyAll(s: State, es: seq<Event>): Effect
    decreases |es|
  {
    if es == [] then Quiet(s)
    else
      var e := Sense(s, es[0]);
      var rest := ApplyAll(e.state, es[1..]);
      rest.(commands := e.commands + rest.commands)
  }

  /** What one sensor event does to the counter by itself. `airlock_enter`
      adds nothing here: its task counts on its first step. */
  function Delta(e: Event): int {
    if e == InteriorEnter || e == ExteriorEnter then 1
    else if e == AirlockEnter then 0
    else -1
  }

  /** Enters counted by the handlers themselves, less exits. */
  function Net(es: seq<Event>): int {
    if es == [] then 0 else Delta(es[0]) + Net(es[1..])
  }

  lemma SensorCounts(s: State, e: Event)
    ensures Sense(s, e).state.detections == Wrap(s.detections + Delta(e))
    ensures Sense(s, e).state.blocks == s.blocks
  {
  }

  /** After any run of sensor events the counter is the old value plus the
      net count, in 32-bit arithmetic. */
  lemma CounterIsNet(s: State, es: seq<Event>)
    ensures ApplyAll(s, es).state.detections == Wrap(s.detections + Net(es))
    ensures ApplyAll(s, es).state.blocks == s.blocks
  {
    ApplyAllCounts(s, es);
    CountIsNet(s.detections, es);
  }

  /** The counter after the events `es`, one 32-bit step of `Delta` each. */
  function Count(d: Int32, es: seq<Event>): Int32
    decreases |es|
  {
    if es == [] then d else Count(Wrap(d + Delta(es[0])), es[1..])
  }

  lemma {:induction false} ApplyAllCounts(s: State, es: seq<Event>)
    ensures ApplyAll(s, es).state.detections == Count(s.detections, es)
    ensures ApplyAll(s, es).state.blocks == s.blocks
    decreases |es|
  {
    if es != [] {
      SensorCounts(s, es[0]);
      ApplyAllCounts(Sense(s, es[0]).state, es[1..]);
    }
  }

  lemma {:induction false} CountIsNet(d: Int32, es: seq<Event>)
    ensures Count(d, es) == Wrap(d + Net(es))
    decreases |es|
  {
    if es != [] {
      var d1 := Wrap(d + Delta(es[0]));
      CountIsNet(d1, es[1..]);
      WrapSteps(d, d1, Count(d1, es[1..]), Delta(es[0]), Net(es[1..]), Net(es));
    } else {
      assert d + Net(es) == d;
    }
  }

  /** Counting `delta` and then `n` in 32 bits is counting their sum. */
  lemma WrapSteps(d0: Int32, d1: Int32, d2: Int32, delta: int, n: int, total: int)
    requires d1 == Wrap(d0 + delta) && d2 == Wrap(d1 + n) && total == delta + n
    ensures d2 == Wrap(d0 + total)
  {
    WrapAdd(d0 + delta, n);
    assert d0 + delta + n == d0 + total;
  }

  /** Paired enters and exits return the counter to where it started. */
  lemma PairedEventsRestoreCounter(s: State, es: seq<Event>)
    requires Net(es) == 0
    ensures ApplyAll(s, es).state.detections == s.detections
  {
    CounterIsNet(s, es);
  }

  predicate EntersOnly(es: seq<Event>) {
    forall i :: 0 <= i < |es| ==> es[i] == InteriorEnter || es[i] == ExteriorEnter
  }

  /** A burst of enters from a counter at 0 starts one task, the first
      enter's; the nested ones only count. */
  lemma {:induction false} NestedEntersStartOnce(s: State, es: seq<Event>)
    requires EntersOnly(es) && es != []
    requires s.detections == 0 && |es| <= INT_MAX
    ensures var r := ApplyAll(s, es);
      && r.commands == []
      && r.state.detections == |es|
      && r.state.armed
      && r.state.coroutine == Some(if es[0] == InteriorEnter then OpenInteriorDoors(OpenCreated)
                                   else OpenExteriorDoors(OpenCreated))
  {
    var e := Sense(s, es[0]);
    assert e.state.detections == 1;
    NestedEntersKeep(e.state, es[1..]);
  }

  /** With the counter engaged, enters change nothing but the counter. */
  lemma {:induction false} NestedEntersKeep(s: State, es: seq<Event>)
    requires EntersOnly(es)
    requires s.detections > 0 && s.detections + |es| <= INT_MAX
    ensures var r := ApplyAll(s, es);
      r.commands == [] && r.state == s.(detections := s.detections + |es|)
    decreases |es|
  {
    if es != [] {
      var e := Sense(s, es[0]);
      assert e == Quiet(s.(detections := s.detections + 1));
      assert EntersOnly(es[1..]) by {
        forall i | 0 <= i < |es[1..]| ensures es[1..][i] == InteriorEnter || es[1..][i] == ExteriorEnter {
          assert es[1..][i] == es[i + 1];
        }
      }
      NestedEntersKeep(e.state, es[1..]);
    }
  }

  /** The airlock cycle counts itself lazily: an `airlock_enter` followed, in
      the same tick, by an `exterior_enter` from an idle counter leaves the
      counter at 1, and the cycle, replaced before it ran, never counts. */
  lemma SupersededCycleNeverCounts(s: State)
    requires s.detections == 0
    ensures var r := ApplyAll(s, [AirlockEnter, ExteriorEnter]);
      r.state.detections == 1 && r.state.coroutine == Some(OpenExteriorDoors(OpenCreated))
  {
    var s1 := Start(s, AirlockCycle(CycleCreated));
    assert [AirlockEnter, ExteriorEnter][1..] == [ExteriorEnter];
    assert [ExteriorEnter][1..] == [];
    assert ApplyAll(s1, [ExteriorEnter]).state == Start(s1.(detections := 1), OpenExteriorDoors(OpenCreated));
  }

  // ---------------------------------------------------------------- runs of Main

  /** A task step moves the counter only as the airlock cycle's first
      statement: from `AirlockCycle(CycleCreated)` by one `++`, from any other
      slot not at all. */
  lemma RunCoroutineCounts(s: State, env: Env)
    ensures RunCoroutine(s, env).state.detections
            == if s.coroutine == Some(AirlockCycle(CycleCreated)) then Inc(s.detections) else s.detections
    ensures RunCoroutine(s, env).state.blocks == s.blocks
  {
  }

  /** One run of `Main`: the table entry its argument selects, whether the
      Once flag caused it, and what the configuration, the grid and the
      blocks read as during it. */
  datatype Input = Input(command: Dispatch, once: bool, ini: Ini, grid: Grid, env: Env)

  function TickOf(s: State, i: Input): Effect {
    Then(Perform(s, i.command, i.ini, i.grid), i.once, i.env)
  }

  /** A run of `Main` on an argument is the run on the entry it selects. */
  lemma TickOfResolved(s: State, words: Option<seq<string>>, once: bool, ini: Ini, grid: Grid, env: Env)
    ensures Tick(s, words, once, ini, grid, env) == TickOf(s, Input(Resolve(words), once, ini, grid, env))
  {
  }

  function NextState(s: State, i: Input): State {
    TickOf(s, i).state
  }

  /** The state after the runs `ins`, one after another; an exception ends
      its own run only. */
  function After(s: State, ins: seq<Input>): State {
    Fold(NextState, s, ins)
  }

  /** `step` applied to each input in turn. */
  function Fold(step: (State, Input) -> State, s: State, ins: seq<Input>): State
    decreases |ins|
  {
    if ins == [] then s else Fold(step, step(s, ins[0]), ins[1..])
  }

  /** What `delta` gives for each input, on the state `step` has reached. */
  function Trace(step: (State, Input) -> State, delta: (State, Input) -> int, s: State, ins: seq<Input>): seq<int>
    decreases |ins|
  {
    if ins == [] then [] else [delta(s, ins[0])] + Trace(step, delta, step(s, ins[0]), ins[1..])
  }

  /** What the command of a run counts by itself: the handler's own `++` or
      `--`, and nothing for `reset` or a word not in the table. */
  function CommandDelta(d: Dispatch): int {
    match d
    case Known(Sensor(e)) => Delta(e)
    case _ => 0
  }

  /** 1 when the step after command effect `c` is the first step of an
      airlock cycle, the one that counts it: the command left an unstarted
      cycle in the slot and did not throw, and the run is a Once run. */
  function CycleStart(c: Effect, once: bool): int {
    if once && c.failure.None? && c.state.coroutine == Some(AirlockCycle(CycleCreated)) then 1 else 0
  }

  /** What one run counts: its command's delta and the cycle's first step. */
  function TickDelta(s: State, i: Input): int {
    CommandDelta(i.command) + CycleStart(Perform(s, i.command, i.ini, i.grid), i.once)
  }

  /** What each of the runs `ins` counts, in order. */
  function Deltas(s: State, ins: seq<Input>): seq<int> {
    Trace(NextState, TickDelta, s, ins)
  }

  function Sum(ns: seq<int>): int {
    if ns == [] then 0 else ns[0] + Sum(ns[1..])
  }

  /** Enters counted by the handlers, plus airlock cycles that took their
      first step, less exits, over the runs `ins`. */
  function TickNet(s: State, ins: seq<Input>): int {
    Sum(Deltas(s, ins))
  }

  /** The counter after adding `ns` one 32-bit step at a time. */
  function Steps(d: Int32, ns: seq<int>): Int32
    decreases |ns|
  {
    if ns == [] then d else Steps(Wrap(d + ns[0]), ns[1..])
  }

  /** One run of `Main` moves the counter by its command's delta and by the
      airlock cycle's first step, in 32 bits. */
  lemma TickCounts(s: State, i: Input)
    ensures NextState(s, i).detections == Wrap(s.detections + TickDelta(s, i))
  {
    var c := Perform(s, i.command, i.ini, i.grid);
    TickUnfolds(s, i);
    CommandCounts(s, i.command, i.ini, i.grid);
    ThenAdds(c, i.once, i.env, s.detections, CommandDelta(i.command), TickDelta(s, i));
  }

  lemma TickUnfolds(s: State, i: Input)
    ensures NextState(s, i) == Then(Perform(s, i.command, i.ini, i.grid), i.once, i.env).state
    ensures TickDelta(s, i) == CommandDelta(i.command) + CycleStart(Perform(s, i.command, i.ini, i.grid), i.once)
  {
  }

  /** After a command that moved the counter by `delta`, the step half of
      `Main` adds the airlock cycle's first step, in 32 bits. */
  lemma ThenAdds(c: Effect, once: bool, env: Env, d: Int32, delta: int, total: int)
    requires c.state.detections == Wrap(d + delta)
    requires total == delta + CycleStart(c, once)
    ensures Then(c, once, env).state.detections == Wrap(d + total)
  {
    ThenCounts(c, once, env);
    CountThenStart(d, delta, CycleStart(c, once), c.state.detections, Then(c, once, env).state.detections);
  }

  /** A command's delta, then possibly one `++`, is their sum in 32 bits. */
  lemma CountThenStart(d: Int32, delta: int, start: int, d1: Int32, d2: Int32)
    requires d1 == Wrap(d + delta)
    requires start == 0 || start == 1
    requires d2 == if start == 1 then Inc(d1) else d1
    ensures d2 == Wrap(d + (delta + start))
  {
    WrapAdd(d + delta, start);
  }

  /** The step half of `Main` counts exactly an unstarted airlock cycle. */
  lemma ThenCounts(c: Effect, once: bool, env: Env)
    ensures Then(c, once, env).state.detections
            == if CycleStart(c, once) == 1 then Inc(c.state.detections) else c.state.detections
  {
    if once && c.failure.None? {
      RunCoroutineCounts(c.state, env);
    }
  }

  /** The command of a run moves the counter by its own delta. */
  lemma CommandCounts(s: State, d: Dispatch, ini: Ini, grid: Grid)
    ensures Perform(s, d, ini, grid).state.detections == Wrap(s.detections + CommandDelta(d))
  {
    match d
    case Known(Sensor(e)) =>
      SensorCounts(s, e);
    case _ =>
  }

  /** Across any runs of `Main`, with task steps between the events, the
      counter is the old value plus the net count, in 32-bit arithmetic. */
  lemma {:induction false} CounterIsNetOverTicks(s: State, ins: seq<Input>)
    ensures After(s, ins).detections == Wrap(s.detections + TickNet(s, ins))
  {
    TicksStep(s, ins);
    StepsIsSum(s.detections, Deltas(s, ins));
  }

  /** The counter after the runs `ins` is what their deltas give, one run at
      a time. */
  lemma TicksStep(s: State, ins: seq<Input>)
    ensures After(s, ins).detections == Steps(s.detections, Deltas(s, ins))
  {
    EveryTickCounts();
    FoldCounts(NextState, TickDelta, s, ins);
  }

  /** Every step moves the counter by its delta, in 32 bits. */
  ghost predicate StepCounts(step: (State, Input) -> State, delta: (State, Input) -> int) {
    forall t: State, i: Input :: step(t, i).detections == Wrap(t.detections + delta(t, i))
  }

  lemma EveryTickCounts()
    ensures StepCounts(NextState, TickDelta)
  {
    EveryTickCountsDirect();
  }

  lemma EveryTickCountsDirect()
    ensures forall t: State, i: Input :: NextState(t, i).detections == Wrap(t.detections + TickDelta(t, i))
  {
    forall t: State, i: Input ensures NextState(t, i).detections == Wrap(t.detections + TickDelta(t, i)) {
      TickCounts(t, i);
    }
  }

  /** If every step moves the counter by its delta, in 32 bits, the counter
      after a run of steps is what the deltas give, one step at a time. */
  lemma {:induction false} FoldCounts(step: (State, Input) -> State, delta: (State, Input) -> int,
                                      s: State, ins: seq<Input>)
    requires StepCounts(step, delta)
    ensures Fold(step, s, ins).detections == Steps(s.detections, Trace(step, delta, s, ins))
    decreases |ins|
  {
    if ins != [] {
      var s1 := step(s, ins[0]);
      FoldCounts(step, delta, s1, ins[1..]);
      assert Trace(step, delta, s, ins)[1..] == Trace(step, delta, s1, ins[1..]);
    }
  }

  /** Adding step by step in 32 bits is wrapping the sum once. */
  lemma {:induction false} StepsIsSum(d: Int32, ns: seq<int>)
    ensures Steps(d, ns) == Wrap(d + Sum(ns))
    decreases |ns|
  {
    if ns != [] {
      var d1 := Wrap(d + ns[0]);
      StepsIsSum(d1, ns[1..]);
      WrapSteps(d, d1, Steps(d1, ns[1..]), ns[0], Sum(ns[1..]), Sum(ns));
    } else {
      assert d + Sum(ns) == d;
    }
  }

  /** Runs whose counted enters and exits pair up leave the counter where it
      started. */
  lemma {:induction false} PairedTicksRestoreCounter(s: State, ins: seq<Input>)
    requires TickNet(s, ins) == 0
    ensures After(s, ins).detections == s.detections
  {
    CounterIsNetOverTicks(s, ins);
  }

  /** A visit to the airlock: `airlock_enter` from a sensor, the Once run it
      requested (which takes the cycle's first step and counts it), then
      `airlock_exit`. The counter ends where it started. */
  lemma AirlockVisitRestores(s: State, enter: Input, once: Input, exit: Input)
    requires enter.command == Known(Sensor(AirlockEnter)) && !enter.once
    requires once.command == NoCommand && once.once
    requires exit.command == Known(Sensor(AirlockExit)) && !exit.once
    ensures After(s, [enter, once, exit]).detections == s.detections
  {
    var s1 := TickOf(s, enter).state;
    var s2 := TickOf(s1, once).state;
    var s3 := TickOf(s2, exit).state;
    assert [enter, once, exit][1..] == [once, exit] && [once, exit][1..] == [exit] && [exit][1..] == [];
    assert Fold(NextState, s, [enter, once, exit]) == Fold(NextState, s1, [once, exit])
        == Fold(NextState, s2, [exit]) == s3;
    assert s1.coroutine == Some(AirlockCycle(CycleCreated)) && s1.detections == s.detections;
    RunCoroutineCounts(s1, once.env);
    assert s2.detections == Inc(s.detections);
    assert s3.detections == Dec(s2.detections);
    DecInc(s.detections);
  }

  /** The commands sent by the runs `ins`, in order. */
  function Log(s: State, ins: seq<Input>): seq<Command>
    decreases |ins|
  {
    if ins == [] then [] else TickOf(s, ins[0]).commands + Log(TickOf(s, ins[0]).state, ins[1..])
  }

  /** The script does not keep one side shut while the other opens: with
      interior door 1, exterior door 2 and vent 0, an `interior_enter` on a
      Once run at full pressure opens the interior door; an `airlock_exit`
      brings the shared counter back to 0; and an `exterior_enter` on a Once
      run at vacuum then opens the exterior door. No close is sent between. */
  lemma BothSidesCanOpen(interiorEnter: Input, airlockExit: Input, exteriorEnter: Input)
    requires interiorEnter.command == Known(Sensor(InteriorEnter)) && interiorEnter.once
    requires interiorEnter.env.oxygen(0) == 1.0
    requires airlockExit.command == Known(Sensor(AirlockExit))
    requires exteriorEnter.command == Known(Sensor(ExteriorEnter)) && exteriorEnter.once
    requires exteriorEnter.env.oxygen(0) == 0.0
    ensures var s := State(None, false, 0, Blocks([2], [1], [2, 1], Some(0)));
      Log(s, [interiorEnter, airlockExit, exteriorEnter])
      == [SetDepressurize(0, false), DoorCommand(1, Open), SetDepressurize(0, true), DoorCommand(2, Open)]
  {
    var s := State(None, false, 0, Blocks([2], [1], [2, 1], Some(0)));
    var ins := [interiorEnter, airlockExit, exteriorEnter];
    assert ins[1..] == [airlockExit, exteriorEnter] && ins[1..][1..] == [exteriorEnter] && ins[1..][1..][1..] == [];
    var e1 := TickOf(s, interiorEnter);
    assert Perform(s, interiorEnter.command, interiorEnter.ini, interiorEnter.grid).state
        == s.(coroutine := Some(OpenInteriorDoors(OpenCreated)), armed := true, detections := 1);
    assert Broadcast([1], Open) == [DoorCommand(1, Open)];
    assert e1.commands == [SetDepressurize(0, false), DoorCommand(1, Open)];
    assert e1.state == s.(armed := true, detections := 1);
    var e2 := TickOf(e1.state, airlockExit);
    assert e2.commands == [] && e2.state == s.(armed := true);
    var e3 := TickOf(e2.state, exteriorEnter);
    assert Broadcast([2], Open) == [DoorCommand(2, Open)];
    assert e3.commands == [SetDepressurize(0, true), DoorCommand(2, Open)];
    assert Log(e2.state, [exteriorEnter]) == e3.commands + [];
    assert Log(e1.state, [airlockExit, exteriorEnter]) == e2.commands + Log(e2.state, [exteriorEnter]);
    assert Log(s, ins) == e1.commands + Log(e1.state, [airlockExit, exteriorEnter]);
  }

  /** No entry of the command table starts `ToggleDoorTwice`: a command that
      leaves it in the slot found it there. */
  lemma NoCommandStartsToggle(s: State, words: Option<seq<string>>, ini: Ini, grid: Grid)
    ensures var c := RunCommand(s, words, ini, grid);
      c.state.coroutine.Some? && c.state.coroutine.value.ToggleDoorTwice? ==> c.state.coroutine == s.coroutine
  {
  }

  // ---------------------------------------------------------------- commands

  /** A word that is not in the table changes nothing and sends nothing. */
  lemma UnknownCommandOnlyEchoes(s: State, words: Option<seq<string>>, ini: Ini, grid: Grid, env: Env)
    requires Resolve(words).Unknown?
    ensures RunCommand(s, words, ini, grid) == Quiet(s)
    ensures Tick(s, words, false, ini, grid, env) == Quiet(s)
  {
  }

  /** A whole tick from an idle airlock: the word `Interior_Enter` on a
      Once run, with an oxygen level below 1. The command
      starts the task and the same run takes its first step, which switches
      the vent to pressurize and then waits. */
  lemma InteriorEnterTick(s: State, ini: Ini, grid: Grid, env: Env)
    requires s.detections == 0 && s.blocks.airlockVent.Some?
    requires env.oxygen(s.blocks.airlockVent.value) < 1.0
    ensures var r := Tick(s, Some(["Interior_Enter"]), true, ini, grid, env);
      && r.failure.None?
      && r.commands == [SetDepressurize(s.blocks.airlockVent.value, false)]
      && r.state == s.(coroutine := Some(OpenInteriorDoors(AwaitOxygen)), armed := true, detections := 1)
  {
    var words := Some(["Interior_Enter"]);
    LowerMixedCase();
    ResolveKnown(words.value, Sensor(InteriorEnter));
    var c := RunCommand(s, words, ini, grid);
    assert c == Quiet(Start(s.(detections := 1), OpenInteriorDoors(OpenCreated)));
  }
}
