/**
 * The phase-sequencing engine of the breathing player, as pure functions on
 * a snapshot of the player's state. Each function is one operation of the
 * `BreathingExercise` class; the class in module Player is proved to change
 * its fields exactly as these functions say.
 *
 * A pending `setTimeout` is the `timer` field: the callback to run (`action`)
 * and its delay in milliseconds. `Fire` runs the callback; `Stop` clears it.
 * Every call of the source's `setPhase` appends one `PhaseEvent` to `log`,
 * the stream of phase changes handed to the display.
 */
module Scheduler {
  import opened Wrappers
  import opened Text
  import opened Catalog
  import opened Arith

  const BREATHS_PER_ROUND: nat := 30
  const INHALE_MS: nat := 2000
  const EXHALE_MS: nat := 1500
  const BREATH_HOLD_MS: nat := 30000
  const RECOVERY_BREATH_MS: nat := 2000
  const RECOVERY_HOLD_MS: nat := 15000
  const REST_MS: nat := 45000

  /** The callbacks the source passes to `setTimeout`. */
  datatype Action =
    | EndInhale          // Wim Hof: inhale elapsed, show the exhale
    | EndExhale          // Wim Hof: exhale elapsed, next breath or the hold
    | EndBreathHold      // Wim Hof: 30 s hold elapsed, go to recovery
    | EndRecoveryBreath  // Wim Hof: recovery breath elapsed, show the recovery hold
    | EndRecoveryHold    // Wim Hof: recovery hold elapsed, the round is over
    | EndRest            // Wim Hof: rest between rounds elapsed
    | EndStep(exercise: ExerciseId)  // cyclic: a step elapsed (the closure's captured exercise)

  datatype Timer = Timer(action: Action, delay: nat)

  /** The arguments of one `setPhase(phase, text, subtext, duration)` call. */
  datatype PhaseEvent = PhaseEvent(phase: Phase, text: string, subtext: string, duration: nat)

  /** The player's state fields, its pending timer, `phaseDuration`, and the emitted phases. */
  datatype Session = Session(
    playing: bool,
    exercise: ExerciseId,
    phase: Phase,
    breathCount: nat,
    roundCount: nat,
    timer: Option<Timer>,
    duration: nat,
    log: seq<PhaseEvent>)

  /** The reset state: not playing, phase ready, counters 0 and 1, nothing pending. */
  predicate Stopped(s: Session) {
    !s.playing && s.phase == Ready && s.breathCount == 0 && s.roundCount == 1 && s.timer == None
  }

  /** The state the constructor builds. */
  function Initial(): (s: Session)
    ensures Stopped(s) && s.exercise == Calm && s.log == []
  {
    Session(false, Calm, Ready, 0, 1, None, 0, [])
  }

  // ---- the phase events the engine emits ----

  function InhaleEvent(k: nat): PhaseEvent {
    PhaseEvent(Inhale, "Breathe In", "Breath " + NatToString(k) + "/30", INHALE_MS)
  }

  function ExhaleEvent(k: nat): PhaseEvent {
    PhaseEvent(Exhale, "Breathe Out", "Breath " + NatToString(k) + "/30", EXHALE_MS)
  }

  function BreathHoldEvent(): PhaseEvent {
    PhaseEvent(Hold, "Hold", "Hold your breath", BREATH_HOLD_MS)
  }

  function RecoveryEvent(): PhaseEvent {
    PhaseEvent(Recovery, "Recovery Breath", "Deep breath and hold", RECOVERY_BREATH_MS)
  }

  function RecoveryHoldEvent(): PhaseEvent {
    PhaseEvent(Hold, "Hold Recovery", "Hold this breath", RECOVERY_HOLD_MS)
  }

  function RestEvent(round: nat): PhaseEvent {
    PhaseEvent(Ready, "Round Complete", "45-second rest - Starting Round " + NatToString(round), REST_MS)
  }

  function CompleteEvent(): PhaseEvent {
    PhaseEvent(Complete, "Exercise Complete", "Well done!", 0)
  }

  /**
   * What a cyclic exercise shows for the current counters: the step at
   * `breathCount % steps`, its label, "Step k/n - Round r/R" and its duration.
   */
  function CyclicEvent(id: ExerciseId, breathCount: nat, roundCount: nat): (e: PhaseEvent)
    requires id != WimHof
    ensures e.phase in {Inhale, Exhale, Hold} && e.text == Label(e.phase)
  {
    var steps := Steps(id);
    var n := |steps|;
    var step := steps[breathCount % n];
    PhaseEvent(step.kind, Label(step.kind),
               "Step " + NatToString(breathCount % n + 1) + "/" + NatToString(n)
               + " - Round " + NatToString(roundCount) + "/" + NatToString(Rounds(id)),
               step.duration)
  }

  /**
   * Step selection: the step shown is `steps[breathCount % n]`, with its label
   * and duration, and the subtext counts the step from 1 and names the round.
   */
  lemma CyclicEventShows(id: ExerciseId, breathCount: nat, roundCount: nat)
    requires id != WimHof
    ensures var steps := Steps(id);
            var k := breathCount % |steps|;
            var e := CyclicEvent(id, breathCount, roundCount);
            && e.phase == steps[k].kind
            && e.text == Label(steps[k].kind)
            && e.duration == steps[k].duration
            && e.subtext == "Step " + NatToString(k + 1) + "/" + NatToString(|steps|)
                            + " - Round " + NatToString(roundCount) + "/" + NatToString(Rounds(id))
  {
  }

  /**
   * What a step shows depends on `breathCount` only through the position in
   * the round: `n` breaths later the same step is shown again.
   */
  lemma CyclicEventPeriodic(id: ExerciseId, breathCount: nat, roundCount: nat)
    requires id != WimHof
    ensures CyclicEvent(id, breathCount + |Steps(id)|, roundCount) == CyclicEvent(id, breathCount, roundCount)
  {
    var n := |Steps(id)|;
    MulSucc(breathCount / n, n);
    DivModUnique(breathCount + n, n, breathCount / n + 1, breathCount % n);
  }

  // ---- the operations ----

  /** The state-writing part of `setPhase`. */
  function SetPhase(s: Session, e: PhaseEvent): (r: Session)
    ensures r.phase == e.phase && r.duration == e.duration && r.log == s.log + [e]
    ensures r.(phase := s.phase, duration := s.duration, log := s.log) == s
  {
    s.(phase := e.phase, duration := e.duration, log := s.log + [e])
  }

  /** Resets the phase and the counters; the result is the reset state exactly when nothing is pending. */
  function ResetToStart(s: Session): (r: Session)
    ensures r.phase == Ready && r.breathCount == 0 && r.roundCount == 1
    ensures r.(phase := s.phase, breathCount := s.breathCount, roundCount := s.roundCount) == s
    ensures Stopped(r) <==> !s.playing && s.timer.None?
  {
    s.(phase := Ready, breathCount := 0, roundCount := 1)
  }

  /** Cancels the pending timer and resets, from any state; no phase is emitted. */
  function Stop(s: Session): (r: Session)
    ensures Stopped(r)
    ensures r.exercise == s.exercise && r.duration == s.duration && r.log == s.log
  {
    ResetToStart(s.(playing := false, timer := None))
  }

  lemma StopIdempotent(s: Session)
    ensures Stop(Stop(s)) == Stop(s)
  {
  }

  /** Stops, then selects `x`; playback does not start. */
  function SwitchExercise(s: Session, x: ExerciseId): (r: Session)
    ensures Stopped(r) && r.exercise == x
    ensures r.duration == s.duration && r.log == s.log
  {
    Stop(s).(exercise := x)
  }

  /**
   * The breathing-block engine, entered with the phase that is to run next.
   * From `ready` it starts at breath 1; an inhale with fewer than 30 breaths
   * taken shows breath `breathCount + 1`; `hold` shows the 30 s hold and
   * `recovery` the recovery breath. Any other phase does nothing.
   */
  function RunWimHof(s: Session): (r: Session)
    ensures r.playing == s.playing && r.exercise == s.exercise && r.roundCount == s.roundCount
  {
    var s1 := if s.phase == Ready then s.(phase := Inhale, breathCount := 0) else s;
    if s1.phase == Inhale && s1.breathCount < BREATHS_PER_ROUND then
      SetPhase(s1, InhaleEvent(s1.breathCount + 1))
        .(breathCount := s1.breathCount + 1, timer := Some(Timer(EndInhale, INHALE_MS)))
    else if s1.phase == Hold then
      SetPhase(s1, BreathHoldEvent()).(timer := Some(Timer(EndBreathHold, BREATH_HOLD_MS)))
    else if s1.phase == Recovery then
      SetPhase(s1, RecoveryEvent()).(timer := Some(Timer(EndRecoveryBreath, RECOVERY_BREATH_MS)))
    else
      s1
  }

  /** A cyclic exercise runs step `breathCount % steps` and arms a timer for its duration. */
  function RunCyclic(s: Session): (r: Session)
    requires s.exercise != WimHof
    ensures var steps := Steps(s.exercise);
            var step := steps[s.breathCount % |steps|];
            && r.phase == step.kind && r.duration == step.duration
            && r.timer == Some(Timer(EndStep(s.exercise), step.duration))
            && r.log == s.log + [CyclicEvent(s.exercise, s.breathCount, s.roundCount)]
            && r.playing == s.playing && r.exercise == s.exercise
            && r.breathCount == s.breathCount && r.roundCount == s.roundCount
  {
    var steps := Steps(s.exercise);
    var step := steps[s.breathCount % |steps|];
    SetPhase(s, CyclicEvent(s.exercise, s.breathCount, s.roundCount))
      .(timer := Some(Timer(EndStep(s.exercise), step.duration)))
  }

  /** Dispatches on the selected exercise; has no effect when not playing. */
  function RunPhase(s: Session): (r: Session)
    ensures !s.playing ==> r == s
    ensures r.playing == s.playing && r.exercise == s.exercise && r.roundCount == s.roundCount
  {
    if !s.playing then s
    else if s.exercise == WimHof then RunWimHof(s)
    else RunCyclic(s)
  }

  /**
   * End of a round. Below the round count the round advances by one and the
   * breath counter restarts: Wim Hof shows a 45 s "Round Complete" rest,
   * a cyclic exercise goes straight on with its first step. In the last
   * round the `complete` phase (duration 0) is shown and the player stops.
   */
  function CompleteRound(s: Session): (r: Session)
    ensures r.exercise == s.exercise && 1 <= r.roundCount <= Rounds(s.exercise)
    ensures s.roundCount < Rounds(s.exercise) ==> r.roundCount == s.roundCount + 1 && r.breathCount == 0
    ensures s.roundCount >= Rounds(s.exercise) ==> Stopped(r) && r.log == s.log + [CompleteEvent()]
  {
    var steps := Steps(s.exercise);
    if s.roundCount < Rounds(s.exercise) then
      var s1 := s.(roundCount := s.roundCount + 1, breathCount := 0);
      if s.exercise == WimHof then
        SetPhase(s1, RestEvent(s1.roundCount)).(timer := Some(Timer(EndRest, REST_MS)))
      else
        RunPhase(s1.(phase := steps[0].kind))
    else
      Stop(SetPhase(s, CompleteEvent()))
  }

  /** Wim Hof below the round count: the round advances and a 45 s rest is shown. */
  lemma CompleteRoundWimHof(s: Session)
    requires s.exercise == WimHof && s.roundCount < Rounds(WimHof)
    ensures var r := CompleteRound(s);
            && r.roundCount == s.roundCount + 1 && r.breathCount == 0 && r.phase == Ready
            && r.playing == s.playing && r.exercise == s.exercise
            && r.timer == Some(Timer(EndRest, REST_MS))
            && r.log == s.log + [RestEvent(s.roundCount + 1)]
  {
  }

  /** A cyclic exercise below the round count: the next round starts at step 1 with no rest. */
  lemma CompleteRoundCyclic(s: Session)
    requires s.exercise != WimHof && s.playing && s.roundCount < Rounds(s.exercise)
    ensures var r := CompleteRound(s);
            var steps := Steps(s.exercise);
            && r.roundCount == s.roundCount + 1 && r.breathCount == 0
            && r.playing && r.exercise == s.exercise
            && r.phase == steps[0].kind
            && r.timer == Some(Timer(EndStep(s.exercise), steps[0].duration))
            && r.log == s.log + [CyclicEvent(s.exercise, 0, s.roundCount + 1)]
  {
  }

  /**
   * Starts playback: resets the counters when the phase is `ready` or
   * `complete`, then runs the current phase. Its only caller invokes it
   * while not playing.
   */
  function Start(s: Session): (r: Session)
    requires !s.playing
    ensures r.playing && r.exercise == s.exercise
    ensures s.phase in {Ready, Complete} ==> r.roundCount == 1
    ensures !(s.phase in {Ready, Complete}) ==> r.roundCount == s.roundCount
  {
    var s1 := s.(playing := true);
    var s2 := if s1.phase == Ready || s1.phase == Complete then ResetToStart(s1) else s1;
    RunPhase(s2)
  }

  /** The play/stop button. */
  function Toggle(s: Session): (r: Session)
    ensures r.playing == !s.playing
  {
    if s.playing then Stop(s) else Start(s)
  }

  /** Runs the pending timer's callback; with no timer pending nothing happens. */
  function Fire(s: Session): (r: Session)
    ensures s.timer.None? ==> r == s
  {
    match s.timer
    case None => s
    case Some(t) =>
      var s0 := s.(timer := None);
      match t.action
      case EndInhale =>
        SetPhase(s0, ExhaleEvent(s0.breathCount)).(timer := Some(Timer(EndExhale, EXHALE_MS)))
      case EndExhale =>
        RunPhase(s0.(phase := if s0.breathCount < BREATHS_PER_ROUND then Inhale else Hold))
      case EndBreathHold =>
        RunPhase(s0.(phase := Recovery))
      case EndRecoveryBreath =>
        SetPhase(s0, RecoveryHoldEvent()).(timer := Some(Timer(EndRecoveryHold, RECOVERY_HOLD_MS)))
      case EndRecoveryHold =>
        CompleteRound(s0)
      case EndRest =>
        RunPhase(s0.(phase := Inhale))
      case EndStep(ex) =>
        var s1 := s0.(breathCount := s0.breathCount + 1);
        if s1.breathCount % |Steps(ex)| == 0 then CompleteRound(s1) else RunPhase(s1)
  }

  /**
   * Cyclic advance: when a step's timer fires, `breathCount` grows by one, and
   * the round is completed exactly when the new count is a multiple of the
   * step count; otherwise the next step runs.
   */
  lemma FireCyclicStep(s: Session)
    requires s.timer.Some? && s.timer.value.action.EndStep?
    ensures var s1 := s.(timer := None, breathCount := s.breathCount + 1);
            s1.breathCount % |Steps(s.timer.value.action.exercise)| == 0 ==> Fire(s) == CompleteRound(s1)
    ensures var s1 := s.(timer := None, breathCount := s.breathCount + 1);
            s1.breathCount % |Steps(s.timer.value.action.exercise)| != 0 ==> Fire(s) == RunPhase(s1)
  {
  }

  /** A reset player has no timer pending, so a firing changes nothing. */
  lemma FireStopped(s: Session)
    requires Stopped(s)
    ensures Fire(s) == s
  {
  }

  /** Step `i` of a run: state `i + 1` is state `i` after its pending timer fired. */
  ghost predicate FiresInto(run: seq<Session>, i: nat) {
    i + 1 < |run| && run[i + 1] == Fire(run[i])
  }

  /** A run of the player: each state is the previous one after a timer firing. */
  ghost predicate IsRun(run: seq<Session>) {
    forall i: nat :: i + 1 < |run| ==> FiresInto(run, i)
  }

  /**
   * After a run reaches the reset state nothing happens any more: every
   * later entry equals it.
   */
  lemma {:induction false} RunStaysStopped(run: seq<Session>, i: nat, k: nat)
    requires IsRun(run) && i <= k < |run| && Stopped(run[i])
    ensures run[k] == run[i]
  {
    if k > i {
      RunStaysStopped(run, i, k - 1);
      assert FiresInto(run, k - 1);
      FireStopped(run[k - 1]);
    }
  }
}
