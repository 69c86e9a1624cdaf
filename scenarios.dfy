/**
 * Concrete sessions: what the player shows at given firings after `start()`
 * for each built-in exercise.
 */
module Scenarios {
  import opened Wrappers
  import opened Text
  import opened Catalog
  import opened Scheduler
  import opened CyclicRun
  import opened WimHofRun

  function Last(t: seq<PhaseEvent>): PhaseEvent
    requires |t| >= 1
  {
    t[|t| - 1]
  }

  /** Calm's step `j` of round `r`, as `CyclicRunPrefix` reports it, is the last phase shown. */
  lemma CalmShown(s: Session, run: seq<Session>, r: nat, j: nat)
    requires Stopped(s) && s.exercise == Calm && 1 <= r <= 8 && j < 3
    requires IsRun(run) && |run| > Position(Calm, r, j) && run[0] == Start(s)
    ensures run[Position(Calm, r, j)].roundCount == r && run[Position(Calm, r, j)].playing
    ensures |run[Position(Calm, r, j)].log| >= 1
    ensures Last(run[Position(Calm, r, j)].log) == CyclicEvent(Calm, j, r)
  {
    CyclicRunPrefix(s, run, r, j);
  }

  lemma SmallNumerals()
    ensures NatToString(0) == "0" && NatToString(1) == "1" && NatToString(2) == "2"
    ensures NatToString(3) == "3" && NatToString(8) == "8"
  {
  }

  lemma CalmHoldEvent()
    ensures CyclicEvent(Calm, 1, 1) == PhaseEvent(Hold, "Hold", "Step 2/3 - Round 1/8", 7000)
  {
    SmallNumerals();
  }

  lemma CalmExhaleEvent()
    ensures CyclicEvent(Calm, 2, 1) == PhaseEvent(Exhale, "Breathe Out", "Step 3/3 - Round 1/8", 8000)
  {
    SmallNumerals();
  }

  lemma CalmInhaleEvent()
    ensures CyclicEvent(Calm, 0, 2) == PhaseEvent(Inhale, "Breathe In", "Step 1/3 - Round 2/8", 4000)
  {
    SmallNumerals();
  }

  /**
   * Calm from the start: the first firing shows the 7 s hold as
   * "Step 2/3 - Round 1/8", the next the 8 s exhale as "Step 3/3 - Round 1/8",
   * and the third goes, without a rest, to round 2's 4 s inhale,
   * "Step 1/3 - Round 2/8".
   */
  lemma CalmOpening(s: Session, run: seq<Session>)
    requires Stopped(s) && s.exercise == Calm
    requires IsRun(run) && |run| > 3 && run[0] == Start(s)
    ensures |run[1].log| >= 1 && Last(run[1].log) == PhaseEvent(Hold, "Hold", "Step 2/3 - Round 1/8", 7000)
    ensures |run[2].log| >= 1 && Last(run[2].log) == PhaseEvent(Exhale, "Breathe Out", "Step 3/3 - Round 1/8", 8000)
    ensures |run[3].log| >= 1 && Last(run[3].log) == PhaseEvent(Inhale, "Breathe In", "Step 1/3 - Round 2/8", 4000)
    ensures run[3].roundCount == 2 && run[3].playing
  {
    assert Position(Calm, 1, 1) == 1 && Position(Calm, 1, 2) == 2 && Position(Calm, 2, 0) == 3;
    CalmShown(s, run, 1, 1);
    CalmShown(s, run, 1, 2);
    CalmShown(s, run, 2, 0);
    CalmHoldEvent();
    CalmExhaleEvent();
    CalmInhaleEvent();
  }

  /** Box after 8 whole rounds (32 firings): round 9 has begun at step 1, still playing. */
  lemma BoxAfterEightRounds(s: Session, run: seq<Session>)
    requires Stopped(s) && s.exercise == Box
    requires IsRun(run) && |run| > 32 && run[0] == Start(s)
    ensures run[32].playing && run[32].roundCount == 9 && run[32].breathCount == 0
    ensures run[32].phase == Inhale && run[32].timer == Some(Timer(EndStep(Box), 4000))
  {
    assert Position(Box, 9, 0) == 32;
    CyclicRunPrefix(s, run, 9, 0);
    assert CyclicAt(run[32], 9, 0);
  }

  /**
   * Wim Hof from the start shows breath 1; the 191st firing, at the end of
   * round 3's recovery hold, shows `complete` and schedules nothing.
   */
  lemma WimHofEnds(s: Session, run: seq<Session>)
    requires Stopped(s) && s.exercise == WimHof
    requires IsRun(run) && |run| > SESSION_FIRINGS && run[0] == Start(s)
    ensures Last(run[0].log) == PhaseEvent(Inhale, "Breathe In", "Breath 1/30", 2000)
    ensures |run[SESSION_FIRINGS].log| >= 1 && Last(run[SESSION_FIRINGS].log) == CompleteEvent()
    ensures run[SESSION_FIRINGS].timer == None && !run[SESSION_FIRINGS].playing
  {
    StartWimHof(s);
    WimHofSession(s, run);
  }
}
