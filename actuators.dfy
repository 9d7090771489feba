/** The blocks the program drives: hangar doors and one air vent. The program
    only sees what the host reports on each run (the readings) and only acts
    by sending commands; how doors move and how the vent changes the oxygen
    level is the game's business and is not modelled. */
module Actuators {

  /** Handle of an IMyAirtightHangarDoor. */
  type DoorId = nat

  /** Handle of an IMyAirVent. */
  type VentId = nat

  /** What the blocks report during one run of the program: each door's
      `OpenRatio` (0 closed, 1 open) and each vent's `GetOxygenLevel()`. */
  datatype Env = Env(ratio: DoorId -> real, oxygen: VentId -> real)

  datatype DoorAction = Open | Close | Toggle

  /** One call into a block: `OpenDoor()`, `CloseDoor()`, `ToggleDoor()`, or
      an assignment to the vent's `Depressurize` property. */
  datatype Command =
    | DoorCommand(door: DoorId, action: DoorAction)
    | SetDepressurize(vent: VentId, depressurize: bool)

  /** The commands a `foreach (var door in doors) door.Action();` loop sends,
      one per door, in list order. */
  function Broadcast(doors: seq<DoorId>, action: DoorAction): (r: seq<Command>)
    ensures |r| == |doors|
    ensures forall i :: 0 <= i < |doors| ==> r[i] == DoorCommand(doors[i], action)
  {
    if doors == [] then [] else [DoorCommand(doors[0], action)] + Broadcast(doors[1..], action)
  }

  /** Sending to a list and then to another is sending to their concatenation. */
  lemma BroadcastAppend(a: seq<DoorId>, b: seq<DoorId>, action: DoorAction)
    ensures Broadcast(a + b, action) == Broadcast(a, action) + Broadcast(b, action)
  {
    var l, r := Broadcast(a + b, action), Broadcast(a, action) + Broadcast(b, action);
    assert |l| == |r|;
    forall i | 0 <= i < |l| ensures l[i] == r[i] {
      if i < |a| {
        assert (a + b)[i] == a[i];
      } else {
        assert (a + b)[i] == b[i - |a|];
      }
    }
  }

  /** Appending to the log in two goes is appending both at once. */
  lemma LogAppend(log: seq<Command>, a: seq<Command>, b: seq<Command>)
    ensures (log + a) + b == log + (a + b)
  {
  }

  /** No door of `doors` reports an `OpenRatio` above 0. */
  predicate AllClosed(doors: seq<DoorId>, env: Env) {
    forall i :: 0 <= i < |doors| ==> !(env.ratio(doors[i]) > 0.0)
  }

  /** Two lists are closed together exactly when each of them is: doors added
      to a list again, as repeated resets do, change nothing about the scan. */
  lemma AllClosedAppend(a: seq<DoorId>, b: seq<DoorId>, env: Env)
    ensures AllClosed(a + b, env) <==> AllClosed(a, env) && AllClosed(b, env)
  {
    if AllClosed(a, env) && AllClosed(b, env) {
      forall i | 0 <= i < |a + b| ensures !(env.ratio((a + b)[i]) > 0.0) {
        if i < |a| {
          assert (a + b)[i] == a[i];
        } else {
          assert (a + b)[i] == b[i - |a|];
        }
      }
    }
    if AllClosed(a + b, env) {
      forall i | 0 <= i < |b| ensures !(env.ratio(b[i]) > 0.0) {
        assert (a + b)[|a| + i] == b[i];
      }
      forall i | 0 <= i < |a| ensures !(env.ratio(a[i]) > 0.0) {
        assert (a + b)[i] == a[i];
      }
    }
  }

  /** The scan of the airlock cycle: assume closed, and stop at the first door
      whose ratio is above 0. */
  method CheckAllClosed(doors: seq<DoorId>, env: Env) returns (allDoorsClosed: bool)
    ensures allDoorsClosed <==> AllClosed(doors, env)
  {
    allDoorsClosed := true;
    var i := 0;
    while i < |doors|
      invariant 0 <= i <= |doors|
      invariant allDoorsClosed
      invariant forall j :: 0 <= j < i ==> !(env.ratio(doors[j]) > 0.0)
    {
      if env.ratio(doors[i]) > 0.0 {
        allDoorsClosed := false;
        break;
      }
      i := i + 1;
    }
  }
}
