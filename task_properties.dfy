/** What each iterator does over a whole uninterrupted run, and the rules of
    individual steps that the airlock's safety rests on. */
module TaskProperties {
  import opened Wrappers
  import opened Counter
  import opened Actuators
  import opened Tasks

  /** The resume points that sit in an oxygen loop. */
  predicate IsOxygenWait(t: Task) {
    t == OpenInteriorDoors(AwaitOxygen) || t == OpenExteriorDoors(AwaitOxygen)
    || t == AirlockCycle(AwaitVacuum) || t == AirlockCycle(AwaitPressure)
  }

  /** Whether the loop `t` waits in drives the vent towards vacuum. */
  predicate Venting(t: Task) {
    t.OpenExteriorDoors? || t == AirlockCycle(AwaitVacuum)
  }

  /** The doors the loop `t` waits in opens at its end. */
  function SideOf(t: Task, b: Blocks): seq<DoorId> {
    if Venting(t) then b.exteriorDoors else b.interiorDoors
  }

  /** Some reading in `envs` shows the vent settled at the end `depressurize` names. */
  predicate SettlesIn(envs: seq<Env>, vent: VentId, depressurize: bool) {
    exists k :: 0 <= k < |envs| && Settled(depressurize, envs[k].oxygen(vent))
  }

  /** The vent settles in a list of readings when it settles in the first
      or in the rest. */
  lemma SettlesInCons(envs: seq<Env>, vent: VentId, depressurize: bool)
    requires envs != []
    ensures SettlesIn(envs, vent, depressurize)
            <==> Settled(depressurize, envs[0].oxygen(vent)) || SettlesIn(envs[1..], vent, depressurize)
  {
    if SettlesIn(envs, vent, depressurize) && !Settled(depressurize, envs[0].oxygen(vent)) {
      var k :| 0 <= k < |envs| && Settled(depressurize, envs[k].oxygen(vent));
      assert envs[1..][k - 1] == envs[k];
    }
    if SettlesIn(envs[1..], vent, depressurize) {
      var k :| 0 <= k < |envs[1..]| && Settled(depressurize, envs[1..][k].oxygen(vent));
      assert envs[k + 1] == envs[1..][k];
    }
  }

  /** A run of an oxygen loop ends exactly when some reading shows the vent
      settled, and then its only commands open its own side; until then it
      sends nothing and stays where it is. */
  lemma {:induction false} OxygenWaitRun(t: Task, b: Blocks, d: Int32, envs: seq<Env>)
    requires IsOxygenWait(t) && b.airlockVent.Some?
    ensures var r := Run(t, b, d, envs);
      && r.detections == d
      && (r.outcome.Completed? <==> SettlesIn(envs, b.airlockVent.value, Venting(t)))
      && (r.outcome.Completed? ==> r.commands == Broadcast(SideOf(t, b), Open))
      && (!r.outcome.Completed? ==> r.outcome == Suspended(t) && r.commands == [])
    decreases |envs|
  {
    var v := b.airlockVent.value;
    if envs != [] {
      OxygenWaitStep(t, b, d, envs[0]);
      if Settled(Venting(t), envs[0].oxygen(v)) {
        assert SettlesIn(envs, v, Venting(t));
      } else {
        OxygenWaitRun(t, b, d, envs[1..]);
        SettlesInCons(envs, v, Venting(t));
      }
    }
  }

  /** One step of an oxygen loop: open its side if the vent has settled,
      otherwise yield again without a command. */
  lemma OxygenWaitStep(t: Task, b: Blocks, d: Int32, env: Env)
    requires IsOxygenWait(t) && b.airlockVent.Some?
    ensures Step(t, b, d, env)
            == if Settled(Venting(t), env.oxygen(b.airlockVent.value))
               then StepResult(Completed, Broadcast(SideOf(t, b), Open), d)
               else StepResult(Suspended(t), [], d)
  {
  }

  /** `OpenInteriorDoors`: its first command sets `Depressurize = false`; it
      opens the interior doors, and no other door, exactly when the vent has
      reported an oxygen level of at least 1; it never touches the counter. */
  lemma OpenInteriorDoorsRun(b: Blocks, d: Int32, envs: seq<Env>)
    requires b.airlockVent.Some? && envs != []
    ensures var r := Run(OpenInteriorDoors(OpenCreated), b, d, envs);
      var v := b.airlockVent.value;
      && r.detections == d
      && (r.outcome.Completed? <==> SettlesIn(envs, v, false))
      && r.commands == [SetDepressurize(v, false)]
                       + (if r.outcome.Completed? then Broadcast(b.interiorDoors, Open) else [])
  {
    DriveThenWaitRun(OpenInteriorDoors(OpenCreated), OpenInteriorDoors(AwaitOxygen), b, d, envs);
  }

  /** `OpenExteriorDoors`, the dual: `Depressurize = true` first, then the
      exterior doors and no other door, exactly when the oxygen level has
      been seen at or below 0. */
  lemma OpenExteriorDoorsRun(b: Blocks, d: Int32, envs: seq<Env>)
    requires b.airlockVent.Some? && envs != []
    ensures var r := Run(OpenExteriorDoors(OpenCreated), b, d, envs);
      var v := b.airlockVent.value;
      && r.detections == d
      && (r.outcome.Completed? <==> SettlesIn(envs, v, true))
      && r.commands == [SetDepressurize(v, true)]
                       + (if r.outcome.Completed? then Broadcast(b.exteriorDoors, Open) else [])
  {
    DriveThenWaitRun(OpenExteriorDoors(OpenCreated), OpenExteriorDoors(AwaitOxygen), b, d, envs);
  }

  /** A task whose first step drives the vent and enters the oxygen loop `w`:
      the vent command, then the run of that loop from the same reading. */
  lemma DriveThenWaitRun(t: Task, w: Task, b: Blocks, d: Int32, envs: seq<Env>)
    requires (t == OpenInteriorDoors(OpenCreated) && w == OpenInteriorDoors(AwaitOxygen))
          || (t == OpenExteriorDoors(OpenCreated) && w == OpenExteriorDoors(AwaitOxygen))
    requires b.airlockVent.Some? && envs != []
    ensures var r := Run(t, b, d, envs);
      var v := b.airlockVent.value;
      && r.detections == d
      && (r.outcome.Completed? <==> SettlesIn(envs, v, Venting(w)))
      && r.commands == [SetDepressurize(v, Venting(w))]
                       + (if r.outcome.Completed? then Broadcast(SideOf(w, b), Open) else [])
  {
    var v := b.airlockVent.value;
    var first := Step(w, b, d, envs[0]);
    OxygenWaitStep(w, b, d, envs[0]);
    var drive := [SetDepressurize(v, Venting(w))];
    assert Step(t, b, d, envs[0]) == first.(commands := drive + first.commands);
    if first.outcome.Completed? {
      assert SettlesIn(envs, v, Venting(w));
      assert Run(t, b, d, envs) == first.(commands := drive + first.commands);
    } else {
      OxygenWaitRun(w, b, d, envs[1..]);
      var rest := Run(w, b, d, envs[1..]);
      assert drive + [] == drive;
      assert Run(t, b, d, envs) == rest.(commands := drive + rest.commands);
      SettlesInCons(envs, v, Venting(w));
    }
  }

  /** The two ways an airlock cycle can end: vent and open the exterior side,
      or fill and open the interior side; never both sides. */
  predicate CycleFinish(cs: seq<Command>, b: Blocks, vent: VentId) {
    cs == [SetDepressurize(vent, true)] + Broadcast(b.exteriorDoors, Open)
    || cs == [SetDepressurize(vent, false)] + Broadcast(b.interiorDoors, Open)
  }

  /** What an unfinished airlock cycle may have sent: nothing, or only the
      vent command of the branch it took. */
  predicate CycleUnderway(cs: seq<Command>, vent: VentId) {
    cs == [] || cs == [SetDepressurize(vent, true)] || cs == [SetDepressurize(vent, false)]
  }

  /** The index of the first reading in `envs` on which no door of `doors`
      is open, if there is one. */
  function FirstClosed(doors: seq<DoorId>, envs: seq<Env>): (r: Option<nat>)
    ensures r.Some? ==> r.value < |envs| && AllClosed(doors, envs[r.value])
    ensures r.Some? ==> forall j :: 0 <= j < r.value ==> !AllClosed(doors, envs[j])
    ensures r.None? ==> forall j :: 0 <= j < |envs| ==> !AllClosed(doors, envs[j])
    decreases |envs|
  {
    if envs == [] then None
    else if AllClosed(doors, envs[0]) then Some(0)
    else
      match FirstClosed(doors, envs[1..])
      case None => None
      case Some(k) => Some(k + 1)
  }

  /** What the airlock cycle does from its door loop, given the first reading
      `k` with every door closed: the vent command it chose there, and
      whether the vent has settled in a later reading. */
  predicate CycleCompletesAfter(b: Blocks, envs: seq<Env>, k: nat)
    requires b.airlockVent.Some? && k < |envs|
  {
    SettlesIn(envs[k + 1..], b.airlockVent.value, envs[k].oxygen(b.airlockVent.value) > 0.5)
  }

  /** The commands of the airlock cycle that decided on reading `env`: one
      vent command, towards vacuum exactly when oxygen is above 0.5, and, if
      it finished, the opens of that side. */
  function CycleCommands(b: Blocks, vent: VentId, env: Env, finished: bool): seq<Command> {
    var venting := env.oxygen(vent) > 0.5;
    [SetDepressurize(vent, venting)]
    + (if finished then Broadcast(if venting then b.exteriorDoors else b.interiorDoors, Open) else [])
  }

  /** The door loop of the airlock cycle, resumed. Until some reading finds
      every door closed it sends nothing; on the first that does it decides
      from that reading's oxygen level; it completes exactly when a later
      reading shows the vent settled at the chosen end, and then by one of
      the two finishes. */
  lemma {:induction false} AwaitDoorsClosedRun(b: Blocks, d: Int32, envs: seq<Env>)
    requires b.airlockVent.Some?
    ensures var r := Run(AirlockCycle(AwaitDoorsClosed), b, d, envs);
      var v := b.airlockVent.value;
      var k := FirstClosed(b.allDoors, envs);
      && r.detections == d
      && !r.outcome.Faulted?
      && (r.outcome.Completed? <==> k.Some? && CycleCompletesAfter(b, envs, k.value))
      && (k.None? ==> r.outcome.Suspended? && r.commands == [])
      && (k.Some? ==> r.commands == CycleCommands(b, v, envs[k.value], r.outcome.Completed?))
      && (r.outcome.Completed? ==> |envs| >= 2 && CycleFinish(r.commands, b, v))
      && (r.outcome.Suspended? ==> CycleUnderway(r.commands, v))
    decreases |envs|
  {
    var v := b.airlockVent.value;
    var r := Run(AirlockCycle(AwaitDoorsClosed), b, d, envs);
    if envs != [] {
      if !AllClosed(b.allDoors, envs[0]) {
        AwaitDoorsClosedRun(b, d, envs[1..]);
        DoorLoopSkips(b, d, envs);
      } else {
        ClosedCycleRun(b, d, envs);
      }
    }
    if r.outcome.Completed? {
      CycleFinishes(b, v, envs[FirstClosed(b.allDoors, envs).value]);
    }
  }

  /** A reading with a door open is skipped: the run from it is the run from
      the next reading, and the first all-closed reading is one further on. */
  lemma DoorLoopSkips(b: Blocks, d: Int32, envs: seq<Env>)
    requires b.airlockVent.Some? && envs != [] && !AllClosed(b.allDoors, envs[0])
    ensures Run(AirlockCycle(AwaitDoorsClosed), b, d, envs) == Run(AirlockCycle(AwaitDoorsClosed), b, d, envs[1..])
    ensures var k := FirstClosed(b.allDoors, envs[1..]);
      && (k.None? <==> FirstClosed(b.allDoors, envs).None?)
      && (k.Some? ==>
            && FirstClosed(b.allDoors, envs) == Some(k.value + 1)
            && envs[k.value + 1] == envs[1..][k.value]
            && (CycleCompletesAfter(b, envs, k.value + 1) <==> CycleCompletesAfter(b, envs[1..], k.value)))
  {
    var k := FirstClosed(b.allDoors, envs[1..]);
    assert Step(AirlockCycle(AwaitDoorsClosed), b, d, envs[0])
        == StepResult(Suspended(AirlockCycle(AwaitDoorsClosed)), [], d);
    if k.Some? {
      assert envs[1..][k.value + 1..] == envs[k.value + 2..];
    }
  }

  /** The commands of a finished cycle are one of the two finishes. */
  lemma CycleFinishes(b: Blocks, vent: VentId, env: Env)
    ensures CycleFinish(CycleCommands(b, vent, env, true), b, vent)
    ensures CycleUnderway(CycleCommands(b, vent, env, false), vent)
  {
    assert [SetDepressurize(vent, env.oxygen(vent) > 0.5)] + [] == [SetDepressurize(vent, env.oxygen(vent) > 0.5)];
  }

  /** The airlock cycle from the tick that finds every door closed: one vent
      command, towards vacuum exactly when the oxygen level is above 0.5,
      then nothing until a later reading shows the vent settled at that end,
      and then the opens of that side. */
  lemma ClosedCycleRun(b: Blocks, d: Int32, envs: seq<Env>)
    requires b.airlockVent.Some? && envs != [] && AllClosed(b.allDoors, envs[0])
    ensures var r := Run(AirlockCycle(AwaitDoorsClosed), b, d, envs);
      var v := b.airlockVent.value;
      var venting := envs[0].oxygen(v) > 0.5;
      && r.detections == d
      && !r.outcome.Faulted?
      && (r.outcome.Completed? <==> SettlesIn(envs[1..], v, venting))
      && r.commands == CycleCommands(b, v, envs[0], r.outcome.Completed?)
      && (r.outcome.Completed? ==>
            |envs| >= 2
            && r.commands == [SetDepressurize(v, venting)]
                             + Broadcast(if venting then b.exteriorDoors else b.interiorDoors, Open))
      && (r.outcome.Suspended? ==> r.commands == [SetDepressurize(v, venting)])
  {
    var v := b.airlockVent.value;
    var venting := envs[0].oxygen(v) > 0.5;
    var w := AirlockCycle(if venting then AwaitVacuum else AwaitPressure);
    var drive := [SetDepressurize(v, venting)];
    CycleDecision(b, d, envs[0]);
    OxygenWaitRun(w, b, d, envs[1..]);
    var rest := Run(w, b, d, envs[1..]);
    assert Run(AirlockCycle(AwaitDoorsClosed), b, d, envs) == rest.(commands := drive + rest.commands);
    assert drive + [] == drive;
  }

  /** The airlock cycle over a whole run: the counter goes up by one, on the
      first step. The door loop then reads from the second reading on: the
      first of those that finds every door closed decides the direction, and
      the cycle completes exactly when a reading after that one shows the
      vent settled. It yields at least twice before it can finish, and it
      ends by one vent command followed by opening one side, the only doors
      it ever opens. */
  lemma AirlockCycleRun(b: Blocks, d: Int32, envs: seq<Env>)
    requires b.airlockVent.Some? && envs != []
    ensures var r := Run(AirlockCycle(CycleCreated), b, d, envs);
      var v := b.airlockVent.value;
      var k := FirstClosed(b.allDoors, envs[1..]);
      && r.detections == Inc(d)
      && (r.outcome.Completed? <==> k.Some? && CycleCompletesAfter(b, envs[1..], k.value))
      && r.commands == (if k.Some? then CycleCommands(b, v, envs[1..][k.value], r.outcome.Completed?) else [])
      && !r.outcome.Faulted?
      && (r.outcome.Completed? ==> |envs| >= 3 && CycleFinish(r.commands, b, b.airlockVent.value))
      && (r.outcome.Suspended? ==> CycleUnderway(r.commands, b.airlockVent.value))
  {
    AwaitDoorsClosedRun(b, Inc(d), envs[1..]);
    if |envs| == 1 {
      assert envs[1..] == [];
    }
  }

  /** While some door of `allDoors` is not closed, the airlock cycle does not
      read the vent at all: two readings that agree on the doors give the same
      step, whatever the oxygen level and even with no vent. */
  lemma CycleWaitsOnDoorsOnly(b: Blocks, d: Int32, env: Env, other: Env)
    requires !AllClosed(b.allDoors, env)
    requires forall i :: 0 <= i < |b.allDoors| ==> other.ratio(b.allDoors[i]) == env.ratio(b.allDoors[i])
    ensures Step(AirlockCycle(AwaitDoorsClosed), b, d, env) == Step(AirlockCycle(AwaitDoorsClosed), b, d, other)
    ensures Step(AirlockCycle(AwaitDoorsClosed), b, d, env) == StepResult(Suspended(AirlockCycle(AwaitDoorsClosed)), [], d)
  {
    var i :| 0 <= i < |b.allDoors| && env.ratio(b.allDoors[i]) > 0.0;
    assert other.ratio(b.allDoors[i]) > 0.0;
  }

  /** The decision once every door is closed: above 0.5 the cycle vents and
      will wait for vacuum before the exterior side; at 0.5 or below it fills
      and will wait for full pressure before the interior side. The vent has
      not settled on that very reading (its level is on the wrong side of
      0.5 for that), so this step always yields after its one vent command. */
  lemma CycleDecision(b: Blocks, d: Int32, env: Env)
    requires AllClosed(b.allDoors, env) && b.airlockVent.Some?
    ensures var venting := env.oxygen(b.airlockVent.value) > 0.5;
      Step(AirlockCycle(AwaitDoorsClosed), b, d, env)
      == StepResult(Suspended(AirlockCycle(if venting then AwaitVacuum else AwaitPressure)),
                    [SetDepressurize(b.airlockVent.value, venting)], d)
  {
    var venting := env.oxygen(b.airlockVent.value) > 0.5;
    assert !Settled(venting, env.oxygen(b.airlockVent.value));
    assert [SetDepressurize(b.airlockVent.value, venting)] + [] == [SetDepressurize(b.airlockVent.value, venting)];
  }

  /** The target `ToggleDoorTwice` waits for is 1 exactly when it classified
      the motion as opening, and 0 otherwise. */
  lemma ToggleTarget(b: Blocks, d: Int32, door: DoorId, prev: real, env: Env)
    ensures var r := Step(ToggleDoorTwice(AwaitResample(door, prev)), b, d, env);
      var curr := env.ratio(door);
      && r.outcome.Suspended?
      && r.outcome.next == ToggleDoorTwice(AwaitTarget(door, if curr - prev < 0.0 || curr == 0.0 then 1.0 else 0.0))
      && r.commands == Broadcast(b.interiorDoors, Toggle)
  {
  }

  /** Some reading in `envs` shows `door` exactly at ratio `target`. */
  predicate ReachesIn(envs: seq<Env>, door: DoorId, target: real) {
    exists k :: 0 <= k < |envs| && envs[k].ratio(door) == target
  }

  /** The door reaches its target in a list of readings when it does in the
      first or in the rest. */
  lemma ReachesInCons(envs: seq<Env>, door: DoorId, target: real)
    requires envs != []
    ensures ReachesIn(envs, door, target) <==> envs[0].ratio(door) == target || ReachesIn(envs[1..], door, target)
  {
    if ReachesIn(envs, door, target) && envs[0].ratio(door) != target {
      var k :| 0 <= k < |envs| && envs[k].ratio(door) == target;
      assert envs[1..][k - 1] == envs[k];
    }
    if ReachesIn(envs[1..], door, target) {
      var k :| 0 <= k < |envs[1..]| && envs[1..][k].ratio(door) == target;
      assert envs[k + 1] == envs[1..][k];
    }
  }

  /** The wait of `ToggleDoorTwice` for its target ratio: it ends exactly when
      some reading shows the watched door at the target, and then only with
      the second round of toggles; until then it sends nothing. */
  lemma {:induction false} AwaitTargetRun(b: Blocks, d: Int32, door: DoorId, target: real, envs: seq<Env>)
    ensures var r := Run(ToggleDoorTwice(AwaitTarget(door, target)), b, d, envs);
      && r.detections == d
      && !r.outcome.Faulted?
      && (r.outcome.Completed? <==> ReachesIn(envs, door, target))
      && (r.outcome.Completed? ==> r.commands == Broadcast(b.interiorDoors, Toggle))
      && (r.outcome.Suspended? ==> r.commands == [])
    decreases |envs|
  {
    if envs != [] {
      ReachesInCons(envs, door, target);
      if envs[0].ratio(door) != target {
        AwaitTargetRun(b, d, door, target, envs[1..]);
      }
    }
  }

  /** The ratio `ToggleDoorTwice` waits for, from its two samples of the door
      it watches. */
  function TargetOf(prev: real, curr: real): real {
    if Opening(prev, curr) then 1.0 else 0.0
  }

  /** `ToggleDoorTwice` over a whole run: it watches the first interior door,
      picks its target from the first two readings, and completes exactly
      when a later reading (the third or after) shows that door at the
      target. It then has sent every interior door exactly two toggles, one
      round after the second reading and one on the reading at the target.
      It never opens, closes or counts anything. */
  lemma ToggleDoorTwiceRun(b: Blocks, d: Int32, envs: seq<Env>)
    requires b.interiorDoors != []
    ensures var r := Run(ToggleDoorTwice(ToggleCreated), b, d, envs);
      var door := b.interiorDoors[0];
      && r.detections == d
      && !r.outcome.Faulted?
      && (r.outcome.Completed? <==>
            |envs| >= 3 && ReachesIn(envs[2..], door, TargetOf(envs[0].ratio(door), envs[1].ratio(door))))
      && (r.outcome.Completed? ==>
            r.commands == Broadcast(b.interiorDoors, Toggle) + Broadcast(b.interiorDoors, Toggle))
      && (r.outcome.Suspended? ==> r.commands == (if |envs| >= 2 then Broadcast(b.interiorDoors, Toggle) else []))
  {
    if |envs| >= 2 {
      var door := b.interiorDoors[0];
      var target := TargetOf(envs[0].ratio(door), envs[1].ratio(door));
      assert envs[1..][1..] == envs[2..];
      AwaitTargetRun(b, d, door, target, envs[2..]);
    }
  }

  /** A door at rest at ratio 0 is classified as opening, so after the first
      toggle the task waits for ratio 1, and the tick that reports 1 sends the
      second toggle and completes. */
  lemma ToggleClosedDoor(b: Blocks, d: Int32, closed: Env, open: Env)
    requires b.interiorDoors != []
    requires closed.ratio(b.interiorDoors[0]) == 0.0 && open.ratio(b.interiorDoors[0]) == 1.0
    ensures Run(ToggleDoorTwice(ToggleCreated), b, d, [closed, closed, open])
            == StepResult(Completed, Broadcast(b.interiorDoors, Toggle) + Broadcast(b.interiorDoors, Toggle), d)
  {
    var door := b.interiorDoors[0];
    var toggles := Broadcast(b.interiorDoors, Toggle);
    var waiting := ToggleDoorTwice(AwaitTarget(door, 1.0));
    assert [closed, closed, open][1..] == [closed, open] && [closed, open][1..] == [open] && [open][1..] == [];
    assert Run(waiting, b, d, [open]) == StepResult(Completed, toggles, d);
    assert Step(ToggleDoorTwice(AwaitResample(door, 0.0)), b, d, closed) == StepResult(Suspended(waiting), toggles, d);
    assert Run(ToggleDoorTwice(AwaitResample(door, 0.0)), b, d, [closed, open])
        == StepResult(Completed, toggles + toggles, d);
    assert Step(ToggleDoorTwice(ToggleCreated), b, d, closed)
        == StepResult(Suspended(ToggleDoorTwice(AwaitResample(door, 0.0))), [], d);
    assert [] + (toggles + toggles) == toggles + toggles;
  }

  /** A task whose `MoveNext` once threw only reports that it is finished. */
  lemma ExhaustedCompletes(b: Blocks, d: Int32, env: Env)
    ensures Step(Exhausted, b, d, env) == StepResult(Completed, [], d)
  {
  }
}
