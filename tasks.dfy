/** The four iterator methods of the program (`OpenInteriorDoors`,
    `OpenExteriorDoors`, `OnAirlockSensorEnter`, `ToggleDoorTwice`), each
    written as the resume points of the compiler-generated state machine.
    `Step` is one call of `MoveNext()`: it runs from the current resume point
    to the next `yield return` (Suspended) or to the end of the method
    (Completed), reading the blocks through `Env` and the program's fields
    through `Blocks`. */
module Tasks {
  import opened Wrappers
  import opened Counter
  import opened Actuators

  /** The program fields the iterators read when they run: the door lists and
      the vent. They are read afresh on every step, so a `reset` between two
      steps is seen by the next one. */
  datatype Blocks = Blocks(
    exteriorDoors: seq<DoorId>,
    interiorDoors: seq<DoorId>,
    allDoors: seq<DoorId>,
    airlockVent: Option<VentId>)

  /** Where `OpenInteriorDoors` / `OpenExteriorDoors` resume. */
  datatype OpenPoint =
    | OpenCreated    // not yet started
    | AwaitOxygen    // at the `yield` inside the oxygen loop

  /** Where the airlock cycle (`OnAirlockSensorEnter`) resumes. */
  datatype CyclePoint =
    | CycleCreated        // not yet started: the counter is not yet incremented
    | AwaitDoorsClosed    // at the `yield` at the top of the door loop
    | AwaitVacuum         // at the `yield` while oxygen is above 0
    | AwaitPressure       // at the `yield` while oxygen is below 1

  /** Where `ToggleDoorTwice` resumes, with the locals alive at that point. */
  datatype TogglePoint =
    | ToggleCreated
    | AwaitResample(doorToCheck: DoorId, prevOpenRatio: real)
    | AwaitTarget(doorToCheck: DoorId, target: real)

  datatype Task =
    | OpenInteriorDoors(open: OpenPoint)
    | OpenExteriorDoors(open: OpenPoint)
    | AirlockCycle(cycle: CyclePoint)
    | ToggleDoorTwice(toggle: TogglePoint)
      /** An iterator whose `MoveNext` threw: C# leaves it in its final state,
          where `MoveNext` returns false and does nothing. */
    | Exhausted

  /** The exceptions a step can raise. */
  datatype Fault =
    | NullVent            // `airlockVent` is null (a `reset` found no vent)
    | NoInteriorDoor      // `interiorDoors[0]` on an empty list

  datatype Outcome = Suspended(next: Task) | Completed | Faulted(fault: Fault)

  /** What one `MoveNext()` did: how it ended, the commands it sent in order,
      and the new value of `currentSensorDetections`. */
  datatype StepResult = StepResult(outcome: Outcome, commands: seq<Command>, detections: Int32)

  /** The vent has reached the end it is driven towards: oxygen at 0 when
      depressurizing, at 1 when pressurizing. */
  predicate Settled(depressurize: bool, oxygen: real) {
    if depressurize then !(oxygen > 0.0) else !(oxygen < 1.0)
  }

  /** `while (not settled) yield return null; foreach (door in side) door.OpenDoor();`
      entered at its test. */
  function AwaitThenOpen(env: Env, vent: VentId, depressurize: bool, side: seq<DoorId>,
                         waiting: Task, detections: Int32): StepResult
  {
    if Settled(depressurize, env.oxygen(vent)) then
      StepResult(Completed, Broadcast(side, Open), detections)
    else
      StepResult(Suspended(waiting), [], detections)
  }

  /** `airlockVent.Depressurize = depressurize;` followed by the loop above. */
  function DriveThenOpen(env: Env, vent: VentId, depressurize: bool, side: seq<DoorId>,
                         waiting: Task, detections: Int32): StepResult
  {
    var r := AwaitThenOpen(env, vent, depressurize, side, waiting, detections);
    r.(commands := [SetDepressurize(vent, depressurize)] + r.commands)
  }

  function Fail(fault: Fault, detections: Int32): StepResult {
    StepResult(Faulted(fault), [], detections)
  }

  /** One `MoveNext()` of task `t`. */
  function Step(t: Task, b: Blocks, detections: Int32, env: Env): StepResult
  {
    match t
    case OpenInteriorDoors(point) =>
      if b.airlockVent.None? then Fail(NullVent, detections)
      else if point == OpenCreated then
        DriveThenOpen(env, b.airlockVent.value, false, b.interiorDoors, OpenInteriorDoors(AwaitOxygen), detections)
      else
        AwaitThenOpen(env, b.airlockVent.value, false, b.interiorDoors, t, detections)
    case OpenExteriorDoors(point) =>
      if b.airlockVent.None? then Fail(NullVent, detections)
      else if point == OpenCreated then
        DriveThenOpen(env, b.airlockVent.value, true, b.exteriorDoors, OpenExteriorDoors(AwaitOxygen), detections)
      else
        AwaitThenOpen(env, b.airlockVent.value, true, b.exteriorDoors, t, detections)
    case AirlockCycle(point) =>
      (match point
      case CycleCreated =>
        StepResult(Suspended(AirlockCycle(AwaitDoorsClosed)), [], Inc(detections))
      case AwaitDoorsClosed =>
        if !AllClosed(b.allDoors, env) then StepResult(Suspended(t), [], detections)
        else if b.airlockVent.None? then Fail(NullVent, detections)
        else if env.oxygen(b.airlockVent.value) > 0.5 then
          DriveThenOpen(env, b.airlockVent.value, true, b.exteriorDoors, AirlockCycle(AwaitVacuum), detections)
        else
          DriveThenOpen(env, b.airlockVent.value, false, b.interiorDoors, AirlockCycle(AwaitPressure), detections)
      case AwaitVacuum =>
        if b.airlockVent.None? then Fail(NullVent, detections)
        else AwaitThenOpen(env, b.airlockVent.value, true, b.exteriorDoors, t, detections)
      case AwaitPressure =>
        if b.airlockVent.None? then Fail(NullVent, detections)
        else AwaitThenOpen(env, b.airlockVent.value, false, b.interiorDoors, t, detections))
    case ToggleDoorTwice(point) =>
      (match point
      case ToggleCreated =>
        if |b.interiorDoors| == 0 then Fail(NoInteriorDoor, detections)
        else
          var door := b.interiorDoors[0];
          StepResult(Suspended(ToggleDoorTwice(AwaitResample(door, env.ratio(door)))), [], detections)
      case AwaitResample(door, prev) =>
        var target := if Opening(prev, env.ratio(door)) then 1.0 else 0.0;
        StepResult(Suspended(ToggleDoorTwice(AwaitTarget(door, target))),
                   Broadcast(b.interiorDoors, Toggle), detections)
      case AwaitTarget(door, target) =>
        if env.ratio(door) != target then StepResult(Suspended(t), [], detections)
        else StepResult(Completed, Broadcast(b.interiorDoors, Toggle), detections))
    case Exhausted =>
      StepResult(Completed, [], detections)
  }

  /** `ToggleDoorTwice`'s classification of the door's motion from two
      samples one tick apart. */
  predicate Opening(prev: real, curr: real) {
    curr - prev < 0.0 || curr == 0.0
  }

  /** Steps `t` once per environment in `envs`, while it stays suspended and
      nothing else touches the program: the commands of all those steps, and
      how the last one ended (Suspended if the readings ran out first). */
  function Run(t: Task, b: Blocks, detections: Int32, envs: seq<Env>): StepResult
    decreases |envs|
  {
    if envs == [] then StepResult(Suspended(t), [], detections)
    else
      var r := Step(t, b, detections, envs[0]);
      match r.outcome
      case Suspended(next) =>
        var rest := Run(next, b, r.detections, envs[1..]);
        rest.(commands := r.commands + rest.commands)
      case _ => r
  }
}
