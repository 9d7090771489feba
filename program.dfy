/** The programmable block script itself: the object the game keeps between
    runs, with its fields updated in place. Each method is proved to do what
    the matching definition of `Sequencer` (or `Tasks.Step`,
    `Configuration.Reset`) says, so the lemmas proved there hold of it. */
module Airlock {
  import opened Wrappers
  import opened Counter
  import opened Actuators
  import opened Tasks
  import opened Configuration
  import opened Commands
  import Sequencer

  class Program {
    var coroutine: Option<Task>
    /** The `UpdateFrequency.Once` bit of `Runtime.UpdateFrequency`. The
        script only ever sets it; the game clears it when it delivers the run
        it asked for. */
    var armed: bool
    var currentSensorDetections: Int32
    var exteriorDoors: seq<DoorId>
    var interiorDoors: seq<DoorId>
    var allDoors: seq<DoorId>
    var airlockVent: Option<VentId>
    /** Every command sent to a block so far, in order. */
    var sent: seq<Command>

    function Config(): Blocks
      reads this
    {
      Blocks(exteriorDoors, interiorDoors, allDoors, airlockVent)
    }

    function Snapshot(): Sequencer.State
      reads this
    {
      Sequencer.State(coroutine, armed, currentSensorDetections, Config())
    }

    /** The game constructs the script once, with empty lists and no task,
        and runs `Reset`; a constructor that throws leaves no script. */
    constructor (ini: Ini, grid: Grid)
      requires Accepted(ini, grid)
      ensures Snapshot() == Sequencer.State(None, false, 0, Configuration.Reset(Blocks([], [], [], None), ini, grid).blocks)
      ensures sent == []
    {
      coroutine := None;
      armed := false;
      currentSensorDetections := 0;
      exteriorDoors, interiorDoors, allDoors := [], [], [];
      airlockVent := None;
      sent := [];
      new;
      ResetOutcome(Blocks([], [], [], None), ini, grid);
      var error := Reset(ini, grid);
    }

    method StartCoroutine(task: Task)
      modifies this
      ensures Snapshot() == Sequencer.Start(old(Snapshot()), task)
      ensures coroutine == Some(task) && armed
      ensures sent == old(sent)
    {
      coroutine := Some(task);
      armed := true;
    }

    /** `foreach (var door in doors) door.Action();` */
    method Issue(doors: seq<DoorId>, action: DoorAction)
      modifies this`sent
      ensures sent == old(sent) + Broadcast(doors, action)
    {
      for i := 0 to |doors|
        invariant sent == old(sent) + Broadcast(doors[..i], action)
      {
        assert doors[..i + 1] == doors[..i] + [doors[i]];
        BroadcastAppend(doors[..i], [doors[i]], action);
        assert Broadcast([doors[i]], action) == [DoorCommand(doors[i], action)];
        LogAppend(old(sent), Broadcast(doors[..i], action), [DoorCommand(doors[i], action)]);
        sent := sent + [DoorCommand(doors[i], action)];
      }
      assert doors[..|doors|] == doors;
    }

    /** The tail shared by the oxygen loops: set `Depressurize` if this is
        the step that enters the loop, test the oxygen level, and either
        yield or open `side`. */
    method DriveVent(entering: bool, depressurize: bool, side: seq<DoorId>, waiting: Task, env: Env)
      returns (outcome: Outcome)
      modifies this`sent
      ensures airlockVent.None? ==> outcome == Faulted(NullVent) && sent == old(sent)
      ensures airlockVent.Some? ==>
        var r := if entering then DriveThenOpen(env, airlockVent.value, depressurize, side, waiting, currentSensorDetections)
                 else AwaitThenOpen(env, airlockVent.value, depressurize, side, waiting, currentSensorDetections);
        outcome == r.outcome && sent == old(sent) + r.commands
    {
      if airlockVent.None? {
        return Faulted(NullVent);
      }
      var vent := airlockVent.value;
      var drive := if entering then [SetDepressurize(vent, depressurize)] else [];
      if entering {
        sent := sent + [SetDepressurize(vent, depressurize)];
      }
      assert sent == old(sent) + drive;
      if !Settled(depressurize, env.oxygen(vent)) {
        assert drive + [] == drive;
        return Suspended(waiting);
      }
      Issue(side, Open);
      LogAppend(old(sent), drive, Broadcast(side, Open));
      outcome := Completed;
    }

    /** `MoveNext()` of the iterator `task`: run to the next `yield return`
        or to the end, on this run's readings. */
    method MoveNext(task: Task, env: Env) returns (outcome: Outcome)
      modifies this`sent, this`currentSensorDetections
      ensures var r := Step(task, old(Config()), old(currentSensorDetections), env);
        && outcome == r.outcome
        && sent == old(sent) + r.commands
        && currentSensorDetections == r.detections
    {
      match task
      case OpenInteriorDoors(point) =>
        outcome := DriveVent(point == OpenCreated, false, interiorDoors, OpenInteriorDoors(AwaitOxygen), env);
      case OpenExteriorDoors(point) =>
        outcome := DriveVent(point == OpenCreated, true, exteriorDoors, OpenExteriorDoors(AwaitOxygen), env);
      case AirlockCycle(point) =>
        match point {
          case CycleCreated =>
            currentSensorDetections := Inc(currentSensorDetections);
            outcome := Suspended(AirlockCycle(AwaitDoorsClosed));
          case AwaitDoorsClosed =>
            var allDoorsClosed := CheckAllClosed(allDoors, env);
            if !allDoorsClosed {
              outcome := Suspended(task);
            } else if airlockVent.None? {
              outcome := Faulted(NullVent);
            } else if env.oxygen(airlockVent.value) > 0.5 {
              outcome := DriveVent(true, true, exteriorDoors, AirlockCycle(AwaitVacuum), env);
            } else {
              outcome := DriveVent(true, false, interiorDoors, AirlockCycle(AwaitPressure), env);
            }
          case AwaitVacuum =>
            outcome := DriveVent(false, true, exteriorDoors, task, env);
          case AwaitPressure =>
            outcome := DriveVent(false, false, interiorDoors, task, env);
        }
      case ToggleDoorTwice(point) =>
        match point {
          case ToggleCreated =>
            if |interiorDoors| == 0 {
              outcome := Faulted(NoInteriorDoor);
            } else {
              var doorToCheck := interiorDoors[0];
              var prevOpenRatio := env.ratio(doorToCheck);
              outcome := Suspended(ToggleDoorTwice(AwaitResample(doorToCheck, prevOpenRatio)));
            }
          case AwaitResample(doorToCheck, prevOpenRatio) =>
            var currOpenRatio := env.ratio(doorToCheck);
            var openRatioDelta := currOpenRatio - prevOpenRatio;
            Issue(interiorDoors, Toggle);
            var isDoorOpening := openRatioDelta < 0.0 || currOpenRatio == 0.0;
            outcome := Suspended(ToggleDoorTwice(AwaitTarget(doorToCheck, if isDoorOpening then 1.0 else 0.0)));
          case AwaitTarget(doorToCheck, target) =>
            if env.ratio(doorToCheck) != target {
              outcome := Suspended(task);
            } else {
              Issue(interiorDoors, Toggle);
              outcome := Completed;
            }
        }
      case Exhausted =>
        outcome := Completed;
    }

    /** One step of the task in the slot. A finished task is disposed of and
        the slot emptied; one that yields keeps the slot and asks for another
        run; one that throws stays in the slot, exhausted. */
    method RunCoroutine(env: Env) returns (failure: Option<Sequencer.Failure>)
      modifies this
      ensures var e := Sequencer.RunCoroutine(old(Snapshot()), env);
        Snapshot() == e.state && sent == old(sent) + e.commands && failure == e.failure
    {
      failure := None;
      if coroutine.Some? {
        var outcome := MoveNext(coroutine.value, env);
        match outcome
        case Suspended(next) =>
          coroutine := Some(next);
          armed := true;
        case Completed =>
          coroutine := None;
        case Faulted(fault) =>
          coroutine := Some(Exhausted);
          failure := Some(Sequencer.TaskFault(fault));
      }
    }

    method OnInteriorSensorEnter()
      modifies this
      ensures var e := Sequencer.SensorEnter(old(Snapshot()), OpenInteriorDoors(OpenCreated));
        Snapshot() == e.state && sent == old(sent) + e.commands
    {
      var before := currentSensorDetections;
      currentSensorDetections := Inc(currentSensorDetections);
      if before > 0 {
        return;
      }
      StartCoroutine(OpenInteriorDoors(OpenCreated));
    }

    method OnInteriorSensorExit()
      modifies this
      ensures var e := Sequencer.SensorExit(old(Snapshot()), old(interiorDoors));
        Snapshot() == e.state && sent == old(sent) + e.commands
    {
      currentSensorDetections := Dec(currentSensorDetections);
      Issue(interiorDoors, Close);
    }

    method OnAirlockSensorExit()
      modifies this
      ensures var e := Sequencer.SensorExit(old(Snapshot()), []);
        Snapshot() == e.state && sent == old(sent) + e.commands
    {
      currentSensorDetections := Dec(currentSensorDetections);
    }

    method OnExteriorSensorEnter()
      modifies this
      ensures var e := Sequencer.SensorEnter(old(Snapshot()), OpenExteriorDoors(OpenCreated));
        Snapshot() == e.state && sent == old(sent) + e.commands
    {
      var before := currentSensorDetections;
      currentSensorDetections := Inc(currentSensorDetections);
      if before > 0 {
        return;
      }
      StartCoroutine(OpenExteriorDoors(OpenCreated));
    }

    method OnExteriorSensorExit()
      modifies this
      ensures var e := Sequencer.SensorExit(old(Snapshot()), old(exteriorDoors));
        Snapshot() == e.state && sent == old(sent) + e.commands
    {
      currentSensorDetections := Dec(currentSensorDetections);
      Issue(exteriorDoors, Close);
    }

    /** The checks of `Reset` in their order, assigning each list as soon as
        its group is found. */
    method Reset(ini: Ini, grid: Grid) returns (error: Option<ResetError>)
      modifies this`exteriorDoors, this`interiorDoors, this`allDoors, this`airlockVent
      ensures var r := Configuration.Reset(old(Config()), ini, grid);
        Config() == r.blocks && error == r.error
    {
      if ini.Unparsable? {
        return Some(IniParse(ini.message));
      }
      var values := ini.airlock;
      if AIR_VENT_TAG_KEY !in values {
        return Some(MissingKey(AIR_VENT_TAG_KEY));
      }
      if EXTERIOR_DOORS_TAG_KEY !in values {
        return Some(MissingKey(EXTERIOR_DOORS_TAG_KEY));
      }
      if INTERIOR_DOORS_TAG_KEY !in values {
        return Some(MissingKey(INTERIOR_DOORS_TAG_KEY));
      }
      var airVentTag := values[AIR_VENT_TAG_KEY];
      var exteriorAirlockTag := values[EXTERIOR_DOORS_TAG_KEY];
      var interiorAirlockTag := values[INTERIOR_DOORS_TAG_KEY];

      var doorGroups := grid.groupsNamed(exteriorAirlockTag);
      if |doorGroups| > 1 {
        return Some(NotSingle);
      }
      if doorGroups == [] {
        return Some(NoExteriorGroup(exteriorAirlockTag));
      }
      exteriorDoors := doorGroups[0];

      doorGroups := grid.groupsNamed(interiorAirlockTag);
      if |doorGroups| > 1 {
        return Some(NotSingle);
      }
      if doorGroups == [] {
        return Some(NoInteriorGroup(interiorAirlockTag));
      }
      interiorDoors := doorGroups[0];

      allDoors := allDoors + exteriorDoors;
      allDoors := allDoors + interiorDoors;

      var airVents := grid.ventsNamed(airVentTag);
      if |airVents| > 1 {
        return Some(NotSingle);
      }
      airlockVent := if airVents == [] then None else Some(airVents[0]);
      if airlockVent.None? {
        return Some(NoVent(airVentTag));
      }
      error := None;
    }

    /** `RunCommand`: look the first word up, lower-cased, and run its entry
        of the table; an unknown word is only echoed. */
    method RunCommand(words: Option<seq<string>>, ini: Ini, grid: Grid) returns (failure: Option<Sequencer.Failure>)
      modifies this
      ensures var e := Sequencer.RunCommand(old(Snapshot()), words, ini, grid);
        Snapshot() == e.state && sent == old(sent) + e.commands && failure == e.failure
    {
      failure := None;
      match Resolve(words)
      case NoCommand =>
      case Unknown(arg) =>
      case Known(h) =>
        match h {
          case ResetCommand =>
            var error := Reset(ini, grid);
            if error.Some? {
              failure := Some(Sequencer.ResetFailed(error.value));
            }
          case Sensor(InteriorEnter) => OnInteriorSensorEnter();
          case Sensor(InteriorExit) => OnInteriorSensorExit();
          case Sensor(AirlockEnter) => StartCoroutine(AirlockCycle(CycleCreated));
          case Sensor(AirlockExit) => OnAirlockSensorExit();
          case Sensor(ExteriorEnter) => OnExteriorSensorEnter();
          case Sensor(ExteriorExit) => OnExteriorSensorExit();
        }
    }

    /** `Main(argument, updateSource)`, with `once` standing for
        `(updateSource & UpdateType.Once) == UpdateType.Once`. An exception
        from the command ends the run before the step. */
    method Tick(words: Option<seq<string>>, once: bool, ini: Ini, grid: Grid, env: Env)
      returns (failure: Option<Sequencer.Failure>)
      modifies this
      ensures var e := Sequencer.Tick(old(Snapshot()), words, once, ini, grid, env);
        Snapshot() == e.state && sent == old(sent) + e.commands && failure == e.failure
    {
      ghost var s0, sent0 := Snapshot(), sent;
      failure := RunCommand(words, ini, grid);
      ghost var c := Sequencer.RunCommand(s0, words, ini, grid);
      ghost var s1, sent1, f1 := Snapshot(), sent, failure;
      failure := StepIfDue(failure, once, env);
      ghost var e := Sequencer.Then(Sequencer.Effect(s1, [], f1), once, env);
      Sequencer.ThenAppends(c, once, env);
      LogAppend(sent0, c.commands, e.commands);
    }

    /** The end of `Main`: step the coroutine if the Once flag caused this
        run, unless the command threw (`pending`). */
    method StepIfDue(pending: Option<Sequencer.Failure>, once: bool, env: Env)
      returns (failure: Option<Sequencer.Failure>)
      modifies this
      ensures var e := Sequencer.Then(Sequencer.Effect(old(Snapshot()), [], pending), once, env);
        Snapshot() == e.state && sent == old(sent) + e.commands && failure == e.failure
    {
      failure := pending;
      if pending.None? && once {
        failure := RunCoroutine(env);
      }
    }
  }
}
