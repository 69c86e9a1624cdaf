/**
 * The states the player can reach: reset and idle, or running at a step of
 * a cyclic round, or running at a point of a Wim Hof round. Every
 * operation a user or a timer can trigger keeps the player in such a
 * state, and in such a state the counters stay within their bounds.
 */
module Invariant {
  import opened Catalog
  import opened Scheduler
  import opened CyclicRun
  import opened WimHofRun

  ghost predicate Inv(s: Session) {
    || Stopped(s)
    || (s.exercise != WimHof && exists r: nat, j: nat :: CyclicAt(s, r, j))
    || (s.exercise == WimHof && exists r: nat, p: Point :: WimHofAt(s, r, p))
  }

  lemma InvInitial()
    ensures Inv(Initial())
  {
  }

  /** A timer firing keeps the invariant. */
  lemma InvFire(s: Session)
    requires Inv(s)
    ensures Inv(Fire(s))
  {
    if Stopped(s) {
    } else if s.exercise != WimHof {
      var r: nat, j: nat :| CyclicAt(s, r, j);
      CyclicStep(s, r, j);
      if j + 1 < |Steps(s.exercise)| {
        assert CyclicAt(Fire(s), r, j + 1);
      } else if r < Rounds(s.exercise) {
        assert CyclicAt(Fire(s), r + 1, 0);
      }
    } else {
      var r: nat, p: Point :| WimHofAt(s, r, p);
      WimHofStep(s, r, p);
      if !Final(r, p) {
        var q := Next(r, p);
        assert WimHofAt(Fire(s), q.0, q.1);
      }
    }
  }

  /** Not playing means reset: a running state always has a timer pending. */
  lemma InvIdleIsStopped(s: Session)
    requires Inv(s) && !s.playing
    ensures Stopped(s)
  {
  }

  /** Pressing play from a reachable state keeps the invariant. */
  lemma InvStart(s: Session)
    requires Inv(s) && !s.playing
    ensures Inv(Start(s))
  {
    InvIdleIsStopped(s);
    if s.exercise == WimHof {
      StartWimHof(s);
      assert WimHofAt(Start(s), 1, BreathIn(1));
    } else {
      StartCyclic(s);
      assert CyclicAt(Start(s), 1, 0);
    }
  }

  lemma InvStop(s: Session)
    ensures Inv(Stop(s))
  {
  }

  lemma InvSwitch(s: Session, x: ExerciseId)
    ensures Inv(SwitchExercise(s, x))
  {
  }

  /** The play/stop button keeps the invariant. */
  lemma InvToggle(s: Session)
    requires Inv(s)
    ensures Inv(Toggle(s))
  {
    if !s.playing {
      InvStart(s);
    }
  }

  /**
   * Bounds in every reachable state: the round is between 1 and the
   * exercise's round count; the Wim Hof breath counter is at most 30 and
   * a cyclic one is below the step count; a timer is pending exactly
   * while playing; an idle player is in `ready`; `complete` is never the
   * phase left behind, since the last round stops right after showing it.
   */
  lemma InvBounds(s: Session)
    requires Inv(s)
    ensures 1 <= s.roundCount <= Rounds(s.exercise)
    ensures s.exercise == WimHof ==> s.breathCount <= BREATHS_PER_ROUND
    ensures s.exercise != WimHof ==> s.breathCount < |Steps(s.exercise)|
    ensures s.playing <==> s.timer.Some?
    ensures !s.playing ==> s.phase == Ready
    ensures s.phase != Complete
  {
    if Stopped(s) {
    } else if s.exercise != WimHof {
      var r: nat, j: nat :| CyclicAt(s, r, j);
      assert Steps(s.exercise)[j] in Steps(s.exercise);
    } else {
      var r: nat, p: Point :| WimHofAt(s, r, p);
    }
  }
}
