# Airlock sequencer

A Dafny model of the airlock controller in `Source/BlackArrow/Program.cs`. It is a Space Engineers programmable-block script that drives hangar doors and one air vent from sensor events. The script is meant to keep one side of the airlock shut while the other opens, but it does not enforce that. Its single counter lets one side's task open its doors after the other side's doors were opened, with no close in between (`Sequencer.BothSidesCanOpen`).

What is modelled:

- **The single coroutine slot.**
  - `StartCoroutine` replaces whatever task is in the slot and requests a run, the `UpdateFrequency.Once` flag.
  - `RunCoroutine` advances the task by one `MoveNext()`.
  - `Main`, named `Tick` here, runs the command first. It steps the task only on a run the Once flag caused.
- **The sensor handlers and their shared counter.** There is one `currentSensorDetections` counter for all three zones. It is a C# `int`, so `++` and `--` wrap around at 32 bits.
- **The four iterator methods:** `OpenInteriorDoors`, `OpenExteriorDoors`, the airlock cycle `OnAirlockSensorEnter`, and `ToggleDoorTwice`.
  - `ToggleDoorTwice` is modelled, but no entry of the command table (`Commands.COMMAND_BY_ARGUMENT`, lines 48-57) ever starts it (`Sequencer.NoCommandStartsToggle`).
  - Each is written as the resume points of its compiler-generated state machine (`Tasks.Task`).
  - `Tasks.Step` is one `MoveNext()` and `Tasks.Run` is a sequence of them.
  - Door ratios and oxygen levels are the readings of each run (`Actuators.Env`).
  - Every call into a block is a `Command` appended to a log.
- **Command dispatch and `Reset`.**
  - Dispatch lower-cases the first word and looks it up in the table.
  - `Reset` checks the three keys in order and finds one group per side and one vent. It appends both groups to `allDoors`.

The model has two layers:

- **Specification.** `Sequencer` describes the program as a value (`State`) and each entry point as a function returning an `Effect`: the new state, the commands sent, and the exception thrown, if any.
- **Implementation.** `Airlock.Program` is the script as a class whose fields are updated in place.
  - Each method of the class is proved to do exactly what the matching `Sequencer`, `Tasks.Step` or `Configuration.Reset` definition says. So every lemma about those definitions holds of the class.
  - The methods use loops over the door lists (`Issue`, `Actuators.CheckAllClosed`).
  - `Reset` assigns field by field, so an exception leaves the assignments already made.

Exceptions are returned as values:

- A `Reset` that throws is `ResetFailed`.
- A `MoveNext` that dereferences a missing vent, or indexes an empty interior list, is `TaskFault`. The host stops the run there.
- A C# iterator whose `MoveNext` threw is finished: later calls return false and do nothing. It stays in the slot as `Tasks.Exhausted`.

Behaviours of the code that its names and messages do not suggest, which the model follows:

- **Single counter.** The counter is one integer shared by all zones, not one per zone.
- **Start guard.** An enter starts its task whenever the counter was not positive before the increment (`counter++ > 0` is false). That includes a counter already driven below 0, not only one at exactly 0.
- **Lazy count.** `airlock_enter` counts lazily. The increment is the first statement of the iterator, so it happens on the task's first step, not when the event arrives.
- **`allDoors` accumulates.** Each `Reset` appends both groups to `allDoors` and never clears it. Repeated resets therefore accumulate doors, while the side lists are replaced.
- **Duplicate matches.** Several groups or vents matching a tag make `SingleOrDefault` throw its own exception (`NotSingle`). The script's "a single … is required" message is thrown only when nothing matches.
- **Not atomic.** A failed `Reset` keeps what it had already assigned. The exterior list is replaced before the interior lookup runs. A vent lookup that finds nothing sets the vent to null.
- **Missing vent.** A missing vent therefore shows up later as a task that throws on its first vent access (`NullVent`).

## Model

| member | source | states |
|---|---|---|
| Counter.Wrap | Source/BlackArrow/Program.cs:44 | the 32-bit value congruent to its argument modulo 2^32, equal to it when in range |
| Counter.Inc | Source/BlackArrow/Program.cs:226 | `x++` on an `int`: one more, except that `int.MaxValue` goes to `int.MinValue` |
| Counter.Dec | Source/BlackArrow/Program.cs:244 | `x--` on an `int`: one less, except that `int.MinValue` goes to `int.MaxValue` |
| Counter.WrapAdd | Source/BlackArrow/Program.cs:44 | wrapping part-way through a sum does not change the wrapped total |
| Counter.DecInc | Source/BlackArrow/Program.cs:224-248 | an exit undoes an enter's increment, across the wrap-around too |
| Tasks.Step | Source/BlackArrow/Program.cs:200-308 | one `MoveNext()` of any of the four iterators: the resume point reached, the commands sent and the counter; its properties are the `TaskProperties` lemmas |
| Tasks.Run | Source/BlackArrow/Program.cs:88-104 | repeated `MoveNext()` calls, one per reading, stopping at the first that finishes or throws; its properties are the `TaskProperties` run lemmas |
| Actuators.Broadcast | Source/BlackArrow/Program.cs:238-239 | the commands of a `foreach` over a door list: one per door, in list order, each with the same action |
| Actuators.AllClosedAppend | Source/BlackArrow/Program.cs:175-176 | doors appended to a list are all closed exactly when both parts are, so duplicated doors do not change the door scan |
| Actuators.CheckAllClosed | Source/BlackArrow/Program.cs:258-264 | the scan with early `break` returns true exactly when no door of the list has a ratio above 0 |
| TaskProperties.OxygenWaitStep | Source/BlackArrow/Program.cs:235-239 | one step of an oxygen loop opens its own side when the vent has settled, otherwise yields again and sends nothing |
| TaskProperties.OxygenWaitRun | Source/BlackArrow/Program.cs:279-283 | a run of an oxygen loop completes exactly when some reading shows the vent settled; it then sends only the opens of its own side, and until then sends nothing and keeps its resume point |
| TaskProperties.FirstClosed | Source/BlackArrow/Program.cs:255-265 | the index of the first reading on which the door scan finds every door closed: in range and all closed, no earlier reading all closed, and none at all when there is no index |
| TaskProperties.OpenInteriorDoorsRun | Source/BlackArrow/Program.cs:232-240 | the first command is `Depressurize = false`; the interior doors are opened, and no other door, exactly when some reading showed oxygen at least 1; the counter is untouched |
| TaskProperties.OpenExteriorDoorsRun | Source/BlackArrow/Program.cs:300-308 | the first command is `Depressurize = true`; the exterior doors are opened, and no other door, exactly when some reading showed oxygen at or below 0; the counter is untouched |
| TaskProperties.DriveThenWaitRun | Source/BlackArrow/Program.cs:302-307 | a task that drives the vent and enters an oxygen loop: the vent command, then that loop's run from the same reading |
| TaskProperties.AwaitDoorsClosedRun | Source/BlackArrow/Program.cs:255-285 | the cycle resumed in its door loop never throws while a vent exists and leaves the counter alone. Let k be the first reading on which every door is closed. With no such reading it suspends with nothing sent. Otherwise it sends the vent command that reading selects, and it completes exactly when a later reading shows the vent settled at that end; it then sends the opens of that side, after at least two steps |
| TaskProperties.DoorLoopSkips | Source/BlackArrow/Program.cs:255-265 | a reading with some door open is skipped: the run from it is the run from the next reading, and the first all-closed reading moves one place |
| TaskProperties.CycleFinishes | Source/BlackArrow/Program.cs:267-284 | the commands of a finished cycle are a vent command followed by the opens of the side it selected; those of an unfinished cycle are the vent command alone |
| TaskProperties.ClosedCycleRun | Source/BlackArrow/Program.cs:258-285 | from the reading that finds all doors closed: one vent command, towards vacuum exactly when oxygen is above 0.5. The run completes exactly when a later reading shows the vent settled at that end, and then sends the opens of that side alone; it never completes on that same step |
| TaskProperties.AirlockCycleRun | Source/BlackArrow/Program.cs:250-285 | the cycle raises the counter by one on its first step. It completes exactly when, after that step, some reading finds every door closed and a later one shows the vent settled at the end the first such reading selected. Its commands are that reading's vent command and, on completion, the opens of one side, after at least three steps; an unfinished cycle has opened nothing |
| TaskProperties.CycleWaitsOnDoorsOnly | Source/BlackArrow/Program.cs:255-265 | while some door is open the step yields with no command and does not depend on the oxygen level or on whether there is a vent |
| TaskProperties.CycleDecision | Source/BlackArrow/Program.cs:267-284 | with all doors closed the step sends exactly `Depressurize = (oxygen > 0.5)` and yields into the matching oxygen loop; exactly 0.5 fills and opens the interior side |
| TaskProperties.ToggleTarget | Source/BlackArrow/Program.cs:205-215 | the resampling step toggles every interior door once and waits for ratio 1 exactly when `curr - prev < 0` or `curr == 0`, otherwise for ratio 0 |
| TaskProperties.ReachesInCons | Source/BlackArrow/Program.cs:217-221 | the door reaches its target in a list of readings exactly when it does in the first or in the rest |
| TaskProperties.AwaitTargetRun | Source/BlackArrow/Program.cs:217-221 | the wait completes exactly when some reading shows the watched door at its target ratio; it then sends the second round of toggles, and before that it sends nothing |
| TaskProperties.ToggleDoorTwiceRun | Source/BlackArrow/Program.cs:200-222 | with an interior door to watch, the task completes exactly when there are at least three readings and a reading from the third on shows the door at the target the first two readings select. It then has sent every interior door exactly two toggles; while it waits it has sent one round once it has sampled twice. It never opens, closes or counts |
| TaskProperties.ToggleClosedDoor | Source/BlackArrow/Program.cs:200-222 | a door at rest at ratio 0 is classified as opening: the readings closed, closed, open complete the task with the two rounds of toggles |
| TaskProperties.ExhaustedCompletes | Source/BlackArrow/Program.cs:92 | `MoveNext` of an iterator that threw reports it is finished and does nothing |
| Configuration.KeysCheckedFirst | Source/BlackArrow/Program.cs:128-135 | a missing key fails before any group lookup, whatever the grid holds, changes nothing, and the first missing key in the order AirVentTag, ExteriorDoorsTag, InteriorDoorsTag is reported |
| Configuration.Reset | Source/BlackArrow/Program.cs:119-189 | `Reset` as a function of the old block lists, the parsed configuration and the grid: the new lists or the failure; its properties are `KeysCheckedFirst`, `ResetOutcome`, `ResetFailureIsPartial` and `ResetTwice` |
| Configuration.Accepted | Source/BlackArrow/Program.cs:123-186 | the configurations `Reset` accepts: parsed, with the three keys, each tag matching exactly one group or vent; `ResetOutcome` proves this is when `Reset` succeeds |
| Configuration.ResetOutcome | Source/BlackArrow/Program.cs:154-186 | `Reset` succeeds exactly when the text parses, has the three keys and each tag matches one group or vent; the side lists are then the groups' doors, the vent is the match, and `allDoors` is the old list with both groups appended |
| Configuration.ResetFailureIsPartial | Source/BlackArrow/Program.cs:159-186 | an interior-group failure keeps the new exterior list; a vent lookup that finds nothing has replaced all lists and set the vent to null |
| Configuration.ResetTwice | Source/BlackArrow/Program.cs:175-176 | a second reset on the same grid keeps the sides and the vent, and `allDoors` holds both groups twice, which the door scan does not notice |
| Commands.TableMatchesNames | Source/BlackArrow/Program.cs:48-57 | every handler is in the table under its name and every key is the name of its handler |
| Commands.LowerChar | Source/BlackArrow/Program.cs:110 | a capital ASCII letter is moved to its lower case, every other character is kept |
| Commands.Lower | Source/BlackArrow/Program.cs:110 | lower-casing keeps the length, works letter by letter, and leaves no capital letter |
| Commands.LowerIdempotent | Source/BlackArrow/Program.cs:110 | lower-casing twice is lower-casing once |
| Commands.LowerAppend | Source/BlackArrow/Program.cs:110 | lower-casing distributes over concatenation |
| Commands.LowerOfLower | Source/BlackArrow/Program.cs:110 | a word without capitals is its own lower case |
| Commands.ResolveKnown | Source/BlackArrow/Program.cs:106-117 | a line selects a handler exactly when its first word, lower-cased, is that handler's name |
| Commands.ResolveIgnoresCase | Source/BlackArrow/Program.cs:110 | a first word and its lower case select the same thing |
| Commands.LowerMixedCase | Source/BlackArrow/Program.cs:110 | `Interior_Enter` lower-cases to the table key `interior_enter` |
| Commands.Resolve | Source/BlackArrow/Program.cs:106-117 | what a command line selects: nothing for a line that does not parse or has no words, otherwise the table entry of the lower-cased first word or an unknown word; its properties are `ResolveKnown` and `ResolveIgnoresCase` |
| Sequencer.Start | Source/BlackArrow/Program.cs:67-72 | `StartCoroutine` on the state: the slot holds the task and the Once flag is set; see `StartDiscards` |
| Sequencer.RunCoroutine | Source/BlackArrow/Program.cs:88-104 | `RunCoroutine` on the state; its cases are `RunCoroutineCases` |
| Sequencer.SensorEnter | Source/BlackArrow/Program.cs:224-230 | the enter handlers, shared by the two sides; see `EnterGuard` |
| Sequencer.SensorExit | Source/BlackArrow/Program.cs:242-248 | the exit handlers, with the doors each closes; see `ExitCloses` |
| Sequencer.Handle | Source/BlackArrow/Program.cs:48-57 | one table entry run on the state: `reset` or a sensor handler; see `SensorCounts` |
| Sequencer.Sense | Source/BlackArrow/Program.cs:48-57 | what each sensor entry of the table calls, including `airlock_enter` starting the airlock cycle; see `EnterGuard` and `ExitCloses` |
| Sequencer.RunCommand | Source/BlackArrow/Program.cs:106-117 | `RunCommand` on the state: the entry the line selects, or nothing; see `UnknownCommandOnlyEchoes` |
| Sequencer.Perform | Source/BlackArrow/Program.cs:111-115 | the entry a resolved line selects, or nothing for an unknown word or an empty line; see `CommandCounts` |
| Sequencer.Tick | Source/BlackArrow/Program.cs:78-86 | `Main`: the command, then the step; see `TickOrder` |
| Sequencer.Then | Source/BlackArrow/Program.cs:82-85 | the step half of `Main`: none after an exception or without the Once flag; see `ThenAppends` and `ThenCounts` |
| Sequencer.ThenAppends | Source/BlackArrow/Program.cs:82-85 | the step after the command does not depend on the commands the command sent; they come first in the log |
| Sequencer.StartDiscards | Source/BlackArrow/Program.cs:67-72 | starting a task puts it alone in the slot and requests a run; the start is the same whatever the slot held before (`Start(s, t) == Start(s.(coroutine := None), t)`), so that task makes no difference to anything later |
| Sequencer.RunCoroutineCases | Source/BlackArrow/Program.cs:88-104 | an empty slot changes nothing; a step that yields keeps its task and requests another run; a step that finishes empties the slot and leaves the Once flag as it was; a step that throws leaves the finished iterator in the slot, keeps the flag and reports the fault; exactly the throwing steps report a failure |
| Sequencer.TickOrder | Source/BlackArrow/Program.cs:78-86 | `Main` sends the command's commands before the step's, the step sees the state the command left, and without the Once flag there is no step |
| Sequencer.EnterGuard | Source/BlackArrow/Program.cs:224-230 | an enter always counts and sends nothing; it starts its own side's task exactly when the counter was not positive; otherwise the slot and the flag are untouched |
| Sequencer.ExitCloses | Source/BlackArrow/Program.cs:242-248 | an exit uncounts and closes every door of its own side whatever the counter says; `airlock_exit` only uncounts; the slot is untouched |
| Sequencer.SensorCounts | Source/BlackArrow/Program.cs:224-316 | each sensor handler moves the counter by its own delta in 32 bits and leaves the block lists alone |
| Sequencer.CounterIsNet | Source/BlackArrow/Program.cs:224-316 | after any sequence of sensor events handled back to back, with no task step between them, the counter is the old value plus enters minus exits, in 32-bit arithmetic; `CounterIsNetOverTicks` covers runs with steps |
| Sequencer.ApplyAllCounts | Source/BlackArrow/Program.cs:224-316 | the handlers' counter after a sequence of events is the step-by-step 32-bit count |
| Sequencer.CountIsNet | Source/BlackArrow/Program.cs:44 | counting step by step in 32 bits is wrapping the net count once |
| Sequencer.PairedEventsRestoreCounter | Source/BlackArrow/Program.cs:287-290 | paired enters and exits handled back to back, with no task step between, return the counter to its starting value; `PairedTicksRestoreCounter` covers runs with steps |
| Sequencer.RunCoroutineCounts | Source/BlackArrow/Program.cs:250-252 | a task step moves the counter only when the slot holds an airlock cycle that has not started, and then by one `++`; it never changes the block lists |
| Sequencer.TickOfResolved | Source/BlackArrow/Program.cs:106-117 | a run of `Main` on a command line is the run on the table entry the line selects |
| Sequencer.CommandCounts | Source/BlackArrow/Program.cs:106-117 | the command half of a run moves the counter by its entry's own delta, in 32 bits: one for an enter, minus one for an exit, nothing for `reset`, an unknown word or no word |
| Sequencer.ThenCounts | Source/BlackArrow/Program.cs:82-85 | the step half of a run adds one to the counter exactly on a Once run after a command that did not throw and left an unstarted airlock cycle in the slot |
| Sequencer.ThenAdds | Source/BlackArrow/Program.cs:82-85 | after a command that moved the counter by its delta, the step half adds the cycle's first step, in 32 bits |
| Sequencer.CountThenStart | Source/BlackArrow/Program.cs:44 | a delta and then possibly one `++` make their sum, in 32 bits |
| Sequencer.TickCounts | Source/BlackArrow/Program.cs:78-86 | one run of `Main` moves the counter by its command's delta plus the airlock cycle's first step, in 32 bits |
| Sequencer.EveryTickCounts | Source/BlackArrow/Program.cs:78-86 | every run of `Main`, from every state, moves the counter by its delta |
| Sequencer.FoldCounts | Source/BlackArrow/Program.cs:78-86 | if every step moves the counter by its delta, a run of steps moves it by the deltas one step at a time, each on the state reached |
| Sequencer.TicksStep | Source/BlackArrow/Program.cs:78-86 | the counter after any runs of `Main` is the step-by-step 32-bit count of their deltas |
| Sequencer.StepsIsSum | Source/BlackArrow/Program.cs:44 | adding a list of deltas one 32-bit step at a time is wrapping their sum once |
| Sequencer.CounterIsNetOverTicks | Source/BlackArrow/Program.cs:224-316 | across any runs of `Main`, with task steps between the events, the counter is the old value plus the counted enters (including airlock cycles that took their first step) minus the exits, in 32-bit arithmetic |
| Sequencer.PairedTicksRestoreCounter | Source/BlackArrow/Program.cs:287-290 | runs of `Main` whose counted enters and exits pair up return the counter to its starting value |
| Sequencer.AirlockVisitRestores | Source/BlackArrow/Program.cs:250-290 | an `airlock_enter`, the Once run that takes the cycle's first step, and an `airlock_exit` leave the counter where it started, across the wrap-around too |
| Sequencer.BothSidesCanOpen | Source/BlackArrow/Program.cs:224-308 | from an idle airlock, an `interior_enter` at full pressure, an `airlock_exit`, and an `exterior_enter` at vacuum send: pressurize, open the interior door, depressurize, open the exterior door, with no close between |
| Sequencer.NoCommandStartsToggle | Source/BlackArrow/Program.cs:48-57 | no command line puts `ToggleDoorTwice` in the slot: a command that leaves one there found it there |
| Sequencer.NestedEntersStartOnce | Source/BlackArrow/Program.cs:224-230 | a burst of enters from 0 starts one task, the first enter's, sends nothing, and leaves the counter at the number of enters |
| Sequencer.NestedEntersKeep | Source/BlackArrow/Program.cs:292-298 | with the counter engaged, enters change nothing but the counter |
| Sequencer.SupersededCycleNeverCounts | Source/BlackArrow/Program.cs:250-252 | an `airlock_enter` replaced by an `exterior_enter` before it ran never counts itself: the counter ends at 1 |
| Sequencer.UnknownCommandOnlyEchoes | Source/BlackArrow/Program.cs:112-115 | a word not in the table changes nothing and sends nothing |
| Sequencer.InteriorEnterTick | Source/BlackArrow/Program.cs:78-86 | on an idle airlock, a Once run with `Interior_Enter` starts the interior task and also steps it: one pressurize command, counter 1, task waiting for oxygen |
| Airlock.Program.constructor | Source/BlackArrow/Program.cs:46-65 | empty lists, an empty slot and the counter at 0, then `Reset` on the given configuration |
| Airlock.Program.StartCoroutine | Source/BlackArrow/Program.cs:67-72 | the slot holds the task and the Once flag is set; nothing is sent |
| Airlock.Program.Issue | Source/BlackArrow/Program.cs:246-247 | the `foreach` loop appends to the log one command per door, in order |
| Airlock.Program.DriveVent | Source/BlackArrow/Program.cs:267-275 | the oxygen-loop tail: a fault when the vent is null, else optionally set `Depressurize`, then open the side or yield |
| Airlock.Program.MoveNext | Source/BlackArrow/Program.cs:200-308 | one `MoveNext()` of any of the four iterators, exactly as `Tasks.Step` on the fields before the call |
| Airlock.Program.RunCoroutine | Source/BlackArrow/Program.cs:88-104 | exactly `Sequencer.RunCoroutine` on the fields before the call |
| Airlock.Program.OnInteriorSensorEnter | Source/BlackArrow/Program.cs:224-230 | exactly `Sequencer.SensorEnter` with the interior task |
| Airlock.Program.OnInteriorSensorExit | Source/BlackArrow/Program.cs:242-248 | exactly `Sequencer.SensorExit` with the interior doors |
| Airlock.Program.OnAirlockSensorExit | Source/BlackArrow/Program.cs:287-290 | exactly `Sequencer.SensorExit` with no doors: only the counter moves |
| Airlock.Program.OnExteriorSensorEnter | Source/BlackArrow/Program.cs:292-298 | exactly `Sequencer.SensorEnter` with the exterior task |
| Airlock.Program.OnExteriorSensorExit | Source/BlackArrow/Program.cs:310-316 | exactly `Sequencer.SensorExit` with the exterior doors |
| Airlock.Program.Reset | Source/BlackArrow/Program.cs:119-189 | the fields and the exception are `Configuration.Reset` of the fields before the call |
| Airlock.Program.RunCommand | Source/BlackArrow/Program.cs:106-117 | exactly `Sequencer.RunCommand` on the fields before the call |
| Airlock.Program.Tick | Source/BlackArrow/Program.cs:78-86 | exactly `Sequencer.Tick` on the fields before the call |
| Airlock.Program.StepIfDue | Source/BlackArrow/Program.cs:82-85 | the step of `Main`: none after an exception or without the Once flag, otherwise `RunCoroutine` |

## Left out

- Parsing is not modelled. MyIni's parse of Custom Data and MyCommandLine's split of the argument are library code. They arrive as `Configuration.Ini` (as the parse error or the `Airlock` section's values) and as an optional list of words.
- Grid discovery is not modelled. `GetBlockGroups`, `GetBlocksOfType` and `SingleOrDefault` are library calls, represented by `Configuration.Grid`, which gives the matches for each tag. Both list-filling calls are taken to clear their output list first.
- `Echo` output is not modelled: the diagnostics the program writes to the host have no effect on the airlock.
- The info-display cockpits (lines 137-151, 188) are not modelled. They are only enumerated and echoed.
- `IsDisplayCockpit`, `IsAirlockDoor` and `HasConfigSection` (lines 191-198) are left out. They are configuration glue, and `IsAirlockDoor` is never called.
- `Save` is left out because it is empty.
- The exception messages are not modelled. Each failure carries the key or tag it names, not the text.
- Door and vent physics are not modelled. How ratios and oxygen change after a command is the game's business, so readings are inputs, one `Env` per run.
- Floats are modelled as exact reals. The script only compares them with each other and with 0, 0.5 and 1.
- `UpdateFrequency` arithmetic is reduced to the Once bit, the boolean `armed`. The script only sets it; the game clearing it when it delivers the requested run is not modelled.
- What the game does with an exception that leaves `Main` is not modelled. The model stops the run there and reports the failure.
- `Dispose` on a finished iterator is a no-op. None of the four iterators has a `finally` block or a `using` block.
- Commands.LowerChar: maps only the ASCII capitals A-Z. `string.ToLower` uses the host's current culture and full Unicode case tables, which the model does not have. Some non-ASCII words therefore lower-case to a table key in C# but not here: the Kelvin sign U+212A lower-cases to `k`, and under a Turkish culture `I` lower-cases to the dotless `ı`, so `INTERIOR_ENTER` matches no key there.
- Commands.Lower: inherits the ASCII-only mapping of `Commands.LowerChar`.
- Airlock.Program.constructor: requires a configuration that `Reset` accepts. A script whose constructor throws is never created, so no object exists to describe.
