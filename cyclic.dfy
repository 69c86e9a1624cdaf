/**
 * Whole runs of the cyclic exercises ("box" and "calm"). A running cyclic
 * exercise is always at some step `j` of some round `r`; a timer firing
 * moves it to the next step, to step 1 of the next round with no rest, or,
 * after the last step of the last round, to completion. Completion happens
 * on exactly the (rounds * steps)-th firing after `start()`.
 */
module CyclicRun {
  import opened Wrappers
  import opened Catalog
  import opened Scheduler
  import opened Arith

  /** Running at step `j` (from 0) of round `r`, with that step's timer pending. */
  ghost predicate CyclicAt(s: Session, r: nat, j: nat) {
    && s.exercise != WimHof
    && 1 <= r <= Rounds(s.exercise)
    && j < |Steps(s.exercise)|
    && var step := Steps(s.exercise)[j];
       && s.playing
       && s.breathCount == j
       && s.roundCount == r
       && s.phase == step.kind
       && s.duration == step.duration
       && s.timer == Some(Timer(EndStep(s.exercise), step.duration))
  }

  /** One round of a cyclic exercise: its steps in order, all shown with round `r`. */
  function CyclicRound(id: ExerciseId, r: nat): (t: seq<PhaseEvent>)
    requires id != WimHof
    ensures |t| == |Steps(id)|
    ensures forall j :: 0 <= j < |t| ==> t[j] == CyclicEvent(id, j, r)
  {
    seq(|Steps(id)|, j requires 0 <= j < |Steps(id)| => CyclicEvent(id, j, r))
  }

  /** Rounds 1 to `m`, back to back. */
  function CyclicRounds(id: ExerciseId, m: nat): (t: seq<PhaseEvent>)
    requires id != WimHof
    ensures |t| == m * |Steps(id)|
  {
    if m == 0 then [] else CyclicRounds(id, m - 1) + CyclicRound(id, m)
  }

  /** The phases shown from `start()` up to and including step `j` of round `r`. */
  function CyclicTraceTo(id: ExerciseId, r: nat, j: nat): seq<PhaseEvent>
    requires id != WimHof && r >= 1 && j < |Steps(id)|
  {
    CyclicRounds(id, r - 1) + CyclicRound(id, r)[..j + 1]
  }

  /** Starting from the reset state shows step 1 of round 1. */
  lemma StartCyclic(s: Session)
    requires Stopped(s) && s.exercise != WimHof
    ensures CyclicAt(Start(s), 1, 0)
    ensures Start(s).log == s.log + CyclicTraceTo(s.exercise, 1, 0)
  {
    ModBelow(0, |Steps(s.exercise)|);
  }

  /** The next step of the same round runs. */
  lemma NextStepInRound(s: Session, r: nat, j: nat)
    requires s.exercise != WimHof && s.playing && 1 <= r <= Rounds(s.exercise)
    requires j < |Steps(s.exercise)| && s.breathCount == j && s.roundCount == r
    ensures CyclicAt(RunPhase(s), r, j)
    ensures RunPhase(s).log == s.log + [CyclicEvent(s.exercise, j, r)]
  {
    ModBelow(j, |Steps(s.exercise)|);
  }

  /**
   * One step completion: the next step of the round, or step 1 of the next
   * round without a rest, or, after the last step of the last round, the
   * `complete` phase and a reset player.
   */
  lemma CyclicStep(s: Session, r: nat, j: nat)
    requires CyclicAt(s, r, j)
    ensures Fire(s).exercise == s.exercise
    ensures j + 1 < |Steps(s.exercise)| ==>
              && CyclicAt(Fire(s), r, j + 1)
              && Fire(s).log == s.log + [CyclicEvent(s.exercise, j + 1, r)]
    ensures j + 1 == |Steps(s.exercise)| && r < Rounds(s.exercise) ==>
              && CyclicAt(Fire(s), r + 1, 0)
              && Fire(s).log == s.log + [CyclicEvent(s.exercise, 0, r + 1)]
    ensures j + 1 == |Steps(s.exercise)| && r == Rounds(s.exercise) ==>
              && Stopped(Fire(s)) && Fire(s).exercise == s.exercise
              && Fire(s).log == s.log + [CompleteEvent()]
  {
    var n := |Steps(s.exercise)|;
    FireCyclicStep(s);
    var s1 := s.(timer := None, breathCount := j + 1);
    if j + 1 < n {
      ModBelow(j + 1, n);
      NextStepInRound(s1, r, j + 1);
    } else {
      ModSelf(n);
      if r < Rounds(s.exercise) {
        CompleteRoundCyclic(s1);
        ModBelow(0, n);
      }
    }
  }

  /** `CyclicStep`, read off a run: what the entry after step `j` of round `r` is. */
  lemma CyclicStepInRun(run: seq<Session>, i: nat, r: nat, j: nat)
    requires IsRun(run) && i + 1 < |run| && CyclicAt(run[i], r, j)
    ensures var id := run[i].exercise;
            j + 1 < |Steps(id)| ==>
              && CyclicAt(run[i + 1], r, j + 1)
              && run[i + 1].log == run[i].log + [CyclicEvent(id, j + 1, r)]
    ensures var id := run[i].exercise;
            j + 1 == |Steps(id)| && r < Rounds(id) ==>
              && CyclicAt(run[i + 1], r + 1, 0)
              && run[i + 1].log == run[i].log + [CyclicEvent(id, 0, r + 1)]
    ensures var id := run[i].exercise;
            j + 1 == |Steps(id)| && r == Rounds(id) ==>
              && Stopped(run[i + 1]) && run[i + 1].exercise == id
              && run[i + 1].log == run[i].log + [CompleteEvent()]
    ensures run[i + 1].exercise == run[i].exercise
  {
    assert FiresInto(run, i);
    CyclicStep(run[i], r, j);
  }

  /** Number of step completions from `start()` to step `j` of round `r`. */
  function Position(id: ExerciseId, r: nat, j: nat): nat
    requires r >= 1
  {
    (r - 1) * |Steps(id)| + j
  }

  /** The shown trace grows by the next step of the same round. */
  lemma TraceNextStep(id: ExerciseId, before: seq<PhaseEvent>, run: seq<Session>, i: nat, r: nat, j: nat)
    requires id != WimHof && IsRun(run) && i + 1 < |run| && j + 1 < |Steps(id)|
    requires CyclicAt(run[i], r, j) && run[i].exercise == id
    requires run[i].log == before + CyclicTraceTo(id, r, j)
    ensures CyclicAt(run[i + 1], r, j + 1) && run[i + 1].exercise == id
    ensures run[i + 1].log == before + CyclicTraceTo(id, r, j + 1)
  {
    CyclicStepInRun(run, i, r, j);
    var e := CyclicEvent(id, j + 1, r);
    assert CyclicRound(id, r)[..j + 2] == CyclicRound(id, r)[..j + 1] + [e];
  }

  /** The shown trace closes round `r` and opens round `r + 1`, with no rest. */
  lemma TraceNextRound(id: ExerciseId, before: seq<PhaseEvent>, run: seq<Session>, i: nat, r: nat)
    requires id != WimHof && IsRun(run) && i + 1 < |run| && r < Rounds(id)
    requires CyclicAt(run[i], r, |Steps(id)| - 1) && run[i].exercise == id
    requires run[i].log == before + CyclicTraceTo(id, r, |Steps(id)| - 1)
    ensures CyclicAt(run[i + 1], r + 1, 0) && run[i + 1].exercise == id
    ensures run[i + 1].log == before + CyclicTraceTo(id, r + 1, 0)
  {
    var n := |Steps(id)|;
    CyclicStepInRun(run, i, r, n - 1);
    var e := CyclicEvent(id, 0, r + 1);
    assert CyclicRound(id, r)[..n] == CyclicRound(id, r);
    assert CyclicRound(id, r + 1)[..1] == [e];
  }

  /**
   * Before completion: `Position(r, j)` firings after step 1 of round 1 the
   * run is at step `j` of round `r` and has shown every earlier step in order.
   */
  lemma {:induction false} CyclicRunFrom(id: ExerciseId, before: seq<PhaseEvent>, run: seq<Session>, r: nat, j: nat)
    requires id != WimHof && 1 <= r <= Rounds(id) && j < |Steps(id)|
    requires IsRun(run) && |run| > Position(id, r, j)
    requires CyclicAt(run[0], 1, 0) && run[0].exercise == id
    requires run[0].log == before + CyclicTraceTo(id, 1, 0)
    ensures CyclicAt(run[Position(id, r, j)], r, j)
    ensures run[Position(id, r, j)].exercise == id
    ensures run[Position(id, r, j)].log == before + CyclicTraceTo(id, r, j)
    decreases r, j
  {
    var n := |Steps(id)|;
    if j > 0 {
      var i := Position(id, r, j - 1);
      CyclicRunFrom(id, before, run, r, j - 1);
      TraceNextStep(id, before, run, i, r, j - 1);
    } else if r > 1 {
      var i := Position(id, r - 1, n - 1);
      MulSucc(r - 2, n);
      assert i + 1 == Position(id, r, 0);
      CyclicRunFrom(id, before, run, r - 1, n - 1);
      TraceNextRound(id, before, run, i, r - 1);
    }
  }

  /**
   * Before completion: `Position(r, j)` firings after `start()` the run is
   * at step `j` of round `r` and has shown every earlier step in order.
   */
  lemma CyclicRunPrefix(s: Session, run: seq<Session>, r: nat, j: nat)
    requires Stopped(s) && s.exercise != WimHof
    requires 1 <= r <= Rounds(s.exercise) && j < |Steps(s.exercise)|
    requires IsRun(run) && |run| > Position(s.exercise, r, j) && run[0] == Start(s)
    ensures CyclicAt(run[Position(s.exercise, r, j)], r, j)
    ensures run[Position(s.exercise, r, j)].exercise == s.exercise
    ensures run[Position(s.exercise, r, j)].log == s.log + CyclicTraceTo(s.exercise, r, j)
  {
    StartCyclic(s);
    CyclicRunFrom(s.exercise, s.log, run, r, j);
  }

  /**
   * Completion: the (rounds * steps)-th firing after `start()` shows
   * `complete` and leaves the player reset; the phases shown are all rounds
   * in order, back to back, and then `complete`.
   */
  lemma CyclicSession(s: Session, run: seq<Session>)
    requires Stopped(s) && s.exercise != WimHof
    requires IsRun(run) && |run| > TotalSteps(s.exercise) && run[0] == Start(s)
    ensures var r := run[TotalSteps(s.exercise)];
            && Stopped(r) && r.exercise == s.exercise
            && r.log == s.log + CyclicRounds(s.exercise, Rounds(s.exercise)) + [CompleteEvent()]
  {
    var id := s.exercise;
    var n := |Steps(id)|;
    var R := Rounds(id);
    assert Position(id, R, n - 1) + 1 == TotalSteps(id);
    CyclicRunPrefix(s, run, R, n - 1);
    CyclicStepInRun(run, Position(id, R, n - 1), R, n - 1);
    assert CyclicRound(id, R)[..n] == CyclicRound(id, R);
  }

  /**
   * Completion count: `k` firings after `start()` the exercise is still
   * playing, with a timer pending, exactly when `k < rounds * steps`; from
   * completion on nothing changes any more.
   */
  lemma CyclicCompletionCount(s: Session, run: seq<Session>, k: nat)
    requires Stopped(s) && s.exercise != WimHof
    requires IsRun(run) && |run| > k && run[0] == Start(s)
    ensures run[k].playing <==> k < TotalSteps(s.exercise)
    ensures run[k].timer.Some? <==> k < TotalSteps(s.exercise)
    ensures k >= TotalSteps(s.exercise) ==> run[k] == run[TotalSteps(s.exercise)]
  {
    var id := s.exercise;
    var n := |Steps(id)|;
    if k < TotalSteps(id) {
      DivBelow(k, n, Rounds(id));
      assert k == Position(id, k / n + 1, k % n);
      CyclicRunPrefix(s, run, k / n + 1, k % n);
    } else {
      CyclicSession(s, run);
      RunStaysStopped(run, TotalSteps(id), k);
    }
  }

  /**
   * No rest and no completion inside a cyclic session: every phase shown
   * before completion is one of the exercise's own inhale, exhale or hold steps.
   */
  lemma {:induction false} CyclicRoundsOnlySteps(id: ExerciseId, m: nat, i: nat)
    requires id != WimHof && i < |CyclicRounds(id, m)|
    ensures CyclicRounds(id, m)[i].phase in {Inhale, Exhale, Hold}
  {
    var prev := CyclicRounds(id, m - 1);
    if i < |prev| {
      CyclicRoundsOnlySteps(id, m - 1, i);
    } else {
      var j := i - |prev|;
      ModBelow(j, |Steps(id)|);
      CyclicEventShows(id, j, m);
    }
  }

  /** The completion counts of the two cyclic exercises: 24 for calm, 80 for box. */
  lemma CyclicCompletionConcrete(s: Session, run: seq<Session>, k: nat)
    requires Stopped(s) && s.exercise != WimHof
    requires IsRun(run) && |run| > k && run[0] == Start(s)
    ensures s.exercise == Calm ==> (run[k].playing <==> k < 24)
    ensures s.exercise == Box ==> (run[k].playing <==> k < 80)
  {
    CyclicTotals();
    CyclicCompletionCount(s, run, k);
  }
}
