# Breathing-exercise player: the phase-sequencing engine

This project models the core of the browser breathing player: the `BreathingExercise` object in `script.js`, which walks a user through timed breathing phases. It covers:

- the exercise table, with three exercises:
  - Wim Hof, 3 rounds;
  - box breathing, 20 rounds of inhale, hold, exhale and hold, 4 s each;
  - 4-7-8 calm, 8 rounds of a 4 s inhale, a 7 s hold and an 8 s exhale;
- the state fields;
- the pending `setTimeout` callback;
- the methods that run the state machine: `start`, `stop`, `resetToStart`, `switchExercise`, `toggleExercise`, `runPhase`, `runWimHof`, `runCyclicExercise`, `completeRound` and the state-writing part of `setPhase`.

The model has two layers.

- **`Scheduler`** holds one pure function per method of the object. Each works on a `Session`: a snapshot of the object's fields.
  - `timer` is the one pending `setTimeout`. It is a `Timer(action, delay)`, where `action` names the callback that will run.
  - `Fire` runs that callback.
  - `log` is every phase passed to `setPhase`, as a `PhaseEvent(phase, text, subtext, duration)`, in order.
- **`Player.BreathingExercise`** is a class with the source's fields: `isPlaying`, `currentExercise`, `currentPhase`, `breathCount`, `roundCount`, `phaseTimer`, `phaseDuration` and the shown phases.
  - Its methods update the fields in place, with the same branches as the source.
  - Each method is proved to leave the object in the state the matching `Scheduler` function computes.
  - The entry points `ToggleExercise`, `Start`, `Stop`, `SwitchExercise` and `Fire` are proved to keep the reachable-state invariant.

Whole sessions are stated over runs. A run is a sequence of snapshots in which each one is the previous one after its timer fired (`Scheduler.IsRun`).

- **`CyclicRun`** (box and calm) proves the following:
  - every entry of a run before completion, counted from `start()`, is at step `j` of round `r`; from completion on it is the reset state;
  - the run has shown every earlier step in order, with its "Step k/n - Round r/R" caption;
  - rounds follow each other with no rest;
  - completion happens on exactly the (rounds × steps)-th firing: 24 for calm, 80 for box.
- **`WimHofRun`** does the same for Wim Hof. Its points are:
  - breath in or out on breath b of 30;
  - the 30 s hold, the 2 s recovery breath and the 15 s recovery hold;
  - the 45 s "Round Complete" rest before rounds 2 and 3.

  Completion comes 191 firings after `start()`. The phases shown are the three rounds in closed form: each is its rest (if any), 30 inhale/exhale pairs, the hold, the recovery breath and the recovery hold.
- **`Invariant`** gives a set of states that contains every reachable state: reset and idle, or running at one of those positions. It proves that every operation a user or a timer triggers (`toggleExercise`, `start`, `stop`, `switchExercise` and a timer callback) preserves them; the internal steps such as `resetToStart` are not claimed to. It also proves their bounds:
  - `1 <= roundCount <= rounds`;
  - `breathCount <= 30` for Wim Hof;
  - a timer is pending exactly while playing;
  - `complete` is never left behind.
- **`Scenarios`** works through concrete sessions for each exercise.

Decimal rendering of counters in the captions (`Breath 3/30`) is `Text.NatToString`. It is proved to read back to the number it renders.

Facts about `script.js` that shape the model:

- `complete` is transient. `completeRound` shows it, then `stop()` resets the phase to `ready` at once (script.js:307-310).
- The Wim Hof table entry lists a 17 000 ms recovery step (script.js:20). The engine never reads it and holds the recovery breath for 15 000 ms (script.js:244-248).
- The box description says "Complete 10 rounds" (script.js:25), while its round count is 20 (script.js:26). The engine uses 20.

## Model

| member | source | states |
|---|---|---|
| Text.NatToString | script.js:214 | the rendering of a counter is a non-empty string of decimal digits with no leading zero (unless the number is 0) |
| Text.DigitsValueOfNatToString | script.js:265 | reading the rendered numeral back gives the counter: the captions carry the exact breath, step and round numbers |
| Text.NatToStringInjective | script.js:265 | different counters render differently, so captions of different steps or rounds differ |
| Catalog.Lookup | script.js:12-44 | a key finds an exercise exactly when it is one of "wim-hof", "box", "calm", and the exercise found has that key |
| Catalog.LookupKey | script.js:12-44 | every exercise is found under its own key |
| Catalog.Rounds | script.js:15-38 | every exercise has at least one round |
| Catalog.Steps | script.js:17-42 | every exercise has steps, and the two cyclic ones consist only of timed inhale, exhale and hold steps |
| Catalog.Label | script.js:258-267 | the caption of a cyclic step: "Breathe In", "Breathe Out", "Hold", otherwise the step type itself |
| Catalog.CyclicTotals | script.js:24-42 | calm needs 8 × 3 = 24 step completions and box 20 × 4 = 80 |
| Scheduler.Initial | script.js:4-9 | the constructed player is reset and idle, on calm, with nothing shown |
| Scheduler.CyclicEvent | script.js:255-267 | a cyclic step shows only an inhale, exhale or hold, under the label the label table gives that phase |
| Scheduler.CyclicEventPeriodic | script.js:255-267 | what a step shows depends on `breathCount` only modulo the step count: n breaths later the same step is shown again |
| Scheduler.SetPhase | script.js:317-331 | the phase and duration become the event's, the event is appended to what has been shown, and nothing else changes |
| Scheduler.ResetToStart | script.js:153-156 | phase `ready`, breath 0, round 1, nothing else changed; the result is the reset state exactly when not playing and no timer is pending |
| Scheduler.Stop | script.js:134-149 | from any state: not playing, phase `ready`, breath 0, round 1, no timer pending; exercise and shown phases unchanged |
| Scheduler.StopIdempotent | script.js:134-167 | stopping twice is stopping once |
| Scheduler.SwitchExercise | script.js:169-181 | switching is a stop, then selecting the new exercise; playback does not start |
| Scheduler.RunWimHof | script.js:205-251 | the breathing engine never changes the playing flag, the exercise or the round |
| Scheduler.RunCyclic | script.js:253-279 | the cyclic engine shows step `breathCount % n`, arms a timer for that step's duration and changes no counter |
| Scheduler.RunPhase | script.js:192-203 | when not playing nothing changes; otherwise the playing flag, exercise and round are kept |
| Scheduler.CompleteRound | script.js:281-314 | the exercise is kept and the round stays within 1..rounds; below the round count the round advances by one and the breath count restarts; in the last round `complete` is shown and the player ends reset |
| Scheduler.CompleteRoundWimHof | script.js:284-297 | a Wim Hof round below the count advances the round, restarts the breath count and shows "Round Complete" with a 45 000 ms rest timer |
| Scheduler.CompleteRoundCyclic | script.js:298-305 | a cyclic round below the count advances the round and goes straight on with the first step, with no rest |
| Scheduler.Start | script.js:121-131 | start sets playing and keeps the exercise; from `ready` or `complete` the round restarts at 1, otherwise it is kept |
| Scheduler.Toggle | script.js:113-119 | the button flips the playing flag |
| Scheduler.Fire | script.js:217-296 | with no timer pending nothing happens |
| Scheduler.FireStopped | script.js:134-149 | a reset player has no timer pending, so a firing changes nothing |
| Scheduler.RunStaysStopped | script.js:134-149 | once a run reaches the reset state, every later entry equals it |
| CyclicRun.CyclicRound | script.js:253-267 | a cyclic round shows exactly its n steps, step j captioned for step j+1 of round r |
| CyclicRun.CyclicRounds | script.js:281-305 | m rounds show m × n phases |
| CyclicRun.StartCyclic | script.js:121-131 | starting a cyclic exercise from reset shows step 1 of round 1 and arms its timer |
| CyclicRun.NextStepInRound | script.js:276 | running a step of the current round shows it and arms its timer |
| CyclicRun.CyclicStep | script.js:253-305 | at step j of round r, a firing shows step `j + 1` of the same round, or, after the last step, step 1 of the next round with no rest, or, after the last step of the last round, `complete` with the player reset |
| CyclicRun.CyclicRunFrom | script.js:253-305 | by induction over the run: at step j of round r, every earlier step has been shown in order |
| CyclicRun.CyclicRunPrefix | script.js:253-305 | Position(r, j) firings after `start()` the player is at step j of round r, breath count j, with that step's phase and timer, having shown all earlier steps in order |
| CyclicRun.CyclicSession | script.js:269-311 | the (rounds × steps)-th firing shows `complete`, leaves the player reset, and the phases shown are all rounds back to back and then `complete` |
| CyclicRun.CyclicCompletionCount | script.js:273-311 | for every k, k firings after `start()` the exercise is playing, with a timer pending, exactly when k < rounds × steps; from completion on the state no longer changes |
| CyclicRun.CyclicRoundsOnlySteps | script.js:298-305 | no rest and no `complete` appears before completion: only inhale, exhale and hold steps are shown |
| CyclicRun.CyclicCompletionConcrete | script.js:24-42 | for every k: calm is playing after k firings exactly when k < 24, box exactly when k < 80 |
| WimHofRun.Next | script.js:217-296 | the point after any point of a round is a point that exists |
| WimHofRun.Prev | script.js:217-296 | every point but the first has a predecessor that steps to it, one firing earlier |
| WimHofRun.StartWimHof | script.js:208-217 | starting Wim Hof from reset shows "Breathe In", "Breath 1/30" for 2000 ms |
| WimHofRun.FireBreathIn | script.js:217-218 | when an inhale ends, the exhale of the same breath is shown for 1500 ms, "Breath b/30" |
| WimHofRun.FireBreathOut | script.js:220-227 | when an exhale ends, the next breath's inhale follows below 30 breaths, and after breath 30 the 30 000 ms "Hold your breath" |
| WimHofRun.FireBreathHold | script.js:234-238 | when the hold ends, the 2000 ms recovery breath is shown |
| WimHofRun.FireRecoveryBreath | script.js:243-245 | when the recovery breath ends, the 15 000 ms "Hold Recovery" is shown |
| WimHofRun.FireRecoveryHold | script.js:246-248 | when the recovery hold ends, the round completes: the 45 000 ms rest before the next round, or in round 3 `complete` and reset |
| WimHofRun.FireRest | script.js:293-296 | when the rest ends, breath 1 of the new round is shown |
| WimHofRun.WimHofStep | script.js:213-296 | a firing moves to the next point and shows its phase, or at the last recovery hold shows `complete` and resets |
| WimHofRun.WimHofRunFrom | script.js:205-296 | by induction over the run: at point p of round r, every earlier phase has been shown in order |
| WimHofRun.WimHofRunPrefix | script.js:205-296 | Index(r, p) firings after `start()` the player is at point p of round r, breath count and timer included |
| WimHofRun.WimHofSession | script.js:205-311 | the 191st firing shows `complete` and resets; the phases shown are rounds 1 to 3 back to back and then `complete` |
| WimHofRun.PointAt | script.js:205-296 | every firing count before completion is the index of a point |
| WimHofRun.IndexInjective | script.js:205-296 | different points are reached after different numbers of firings, so the point of `PointAt` is the only one |
| WimHofRun.WimHofCompletionCount | script.js:205-311 | for every k, k firings after `start()` Wim Hof is playing, with a timer pending, exactly when k < 191; from completion on the state no longer changes |
| WimHofRun.TraceClosedForm | script.js:205-296 | the phases shown up to a point are the earlier rounds whole, then the current round so far |
| WimHofRun.BreathPairsShape | script.js:213-228 | breath i is an inhale "Breath i/30" of 2000 ms directly followed by an exhale "Breath i/30" of 1500 ms |
| Invariant.InvInitial | script.js:4-9 | the constructed player is in a reachable state |
| Invariant.InvFire | script.js:217-296 | every timer callback keeps the player in a reachable state |
| Invariant.InvIdleIsStopped | script.js:121-131 | whenever the player is not playing it is fully reset, so the reset branch of `start` is the one taken |
| Invariant.InvStart | script.js:121-131 | pressing play keeps the player in a reachable state |
| Invariant.InvStop | script.js:134-149 | stop always leads to a reachable state |
| Invariant.InvSwitch | script.js:169-181 | switching always leads to a reachable state |
| Invariant.InvToggle | script.js:113-119 | the button keeps the player in a reachable state |
| Invariant.InvBounds | script.js:4-9 | in every reachable state: 1 <= roundCount <= rounds; Wim Hof breathCount <= 30; a cyclic breathCount below the step count; a timer pending exactly while playing; idle means `ready`; the phase is never `complete` |
| Player.BreathingExercise.constructor | script.js:2-9 | the new object holds the initial state, which is reachable |
| Player.BreathingExercise.SetPhase | script.js:317-331 | the phase and `phaseDuration` take the new values and the phase is appended to what has been shown |
| Player.BreathingExercise.ResetToStart | script.js:153-156 | phase `ready`, breath 0, round 1 |
| Player.BreathingExercise.Stop | script.js:134-149 | the object is left in `Scheduler.Stop`'s state, which is reachable |
| Player.BreathingExercise.SwitchExercise | script.js:169-172 | the object is left in `Scheduler.SwitchExercise`'s state, which is reachable |
| Player.BreathingExercise.RunWimHof | script.js:205-251 | the object is left in `Scheduler.RunWimHof`'s state |
| Player.BreathingExercise.RunCyclicExercise | script.js:253-279 | the object is left in `Scheduler.RunCyclic`'s state |
| Player.BreathingExercise.RunPhase | script.js:192-203 | the object is left in `Scheduler.RunPhase`'s state |
| Player.BreathingExercise.CompleteRound | script.js:281-314 | the object is left in `Scheduler.CompleteRound`'s state |
| Player.BreathingExercise.Start | script.js:121-131 | the object is left in `Scheduler.Start`'s state, and a reachable state stays reachable |
| Player.BreathingExercise.ToggleExercise | script.js:113-119 | the object is left in `Scheduler.Toggle`'s state, and a reachable state stays reachable |
| Player.BreathingExercise.Fire | script.js:217-296 | the pending callback runs as in `Scheduler.Fire`, and a reachable state stays reachable |
| Scenarios.CalmShown | script.js:253-305 | in a calm run, step j of round r is the phase last shown |
| Scenarios.CalmHoldEvent | script.js:253-267 | calm's second step shows "Hold", "Step 2/3 - Round 1/8", 7000 ms |
| Scenarios.CalmExhaleEvent | script.js:253-267 | calm's third step shows "Breathe Out", "Step 3/3 - Round 1/8", 8000 ms |
| Scenarios.CalmInhaleEvent | script.js:253-267 | round 2 of calm opens with "Breathe In", "Step 1/3 - Round 2/8", 4000 ms |
| Scenarios.CalmOpening | script.js:253-305 | calm's first three firings show the hold, the exhale and round 2's inhale, with no rest between rounds |
| Scenarios.BoxAfterEightRounds | script.js:298-305 | after 32 firings box is playing at step 1 of round 9, with a 4000 ms inhale timer |
| Scenarios.WimHofEnds | script.js:205-311 | Wim Hof opens with "Breath 1/30"; the 191st firing shows `complete` and leaves nothing scheduled |

## Left out

- DOM updates are left out because they are rendering, not sequencing. This covers the icons, CSS classes, the exercise buttons and the description text. It also covers the text writes of `setPhase` and `resetToStart` ("Get Ready", "Press play to begin"). The model keeps the phase, text, subtext and duration passed to `setPhase` as the shown-phase log.
- The congratulation popup, sound, parallax, the debug timer, `updateUI` and `console.log` are left out: none of them writes the sequencing state. `updateUI`, the popup and the debug timer only read it (`roundCount`, `currentExercise`, `phaseDuration`) for display.
- `phaseStartTime` (`Date.now()`) and wall-clock time are left out. A timer is a pending callback with its delay. `Fire` is the moment it elapses.
- A callback that has run is modelled as clearing `phaseTimer`. In the source the field keeps the spent handle until it is overwritten or cleared. The only read in between is `stop()`'s test at script.js:140, on the final-round path where `completeRound` calls `stop()` from inside the callback; clearing a spent handle has no effect, so clearing the field at once is equivalent.
- Scheduler.Start: requires that the player is not playing. Its only caller, `toggleExercise`, guarantees this. A second `start()` while playing would leave two timer chains, which one `phaseTimer` field cannot represent.
- Player.BreathingExercise.Start: requires `!isPlaying`, for the same reason.
- Player.BreathingExercise.RunCyclicExercise: requires a cyclic exercise, as its only caller `runPhase` ensures.
- Scheduler.RunCyclic: requires a cyclic exercise, as its only caller `runPhase` ensures.
- Scheduler.RunWimHof: its own contract states only what it keeps. What it shows and arms is stated, for every reachable state, by `WimHofRun.StartWimHof` and `WimHofRun.WimHofStep`.
- Scheduler.Fire: its own contract states only the no-timer case. Each callback's effect is stated by `CyclicRun.CyclicStep` and `WimHofRun.WimHofStep` for the reachable states.
- `switchExercise` with a key outside the table is left out: the model's exercise is one of the three keys. In the source such a key makes the button lookup fail with a TypeError after `stop()`, leaving `currentExercise` pointing at no exercise. `Catalog.Lookup` states which keys the table has.
- The `name` and `description` strings of the exercise table are left out: they are display text, and the engine never reads them.
- The `steps` entry of the Wim Hof table is not read by the engine. It is kept in `Catalog.Steps` but drives nothing.
