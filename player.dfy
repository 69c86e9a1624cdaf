/**
 * The `BreathingExercise` object: its state fields, updated in place by its
 * methods as the source's methods update them. The one pending `setTimeout`
 * is the field `phaseTimer`; `Fire` runs its callback. Each method leaves
 * the object in the state the matching `Scheduler` function computes, and
 * the operations a user or a timer triggers keep the reachable-state
 * invariant.
 */
module Player {
  import opened Wrappers
  import opened Catalog
  import Scheduler
  import Invariant

  class BreathingExercise {
    var isPlaying: bool
    var currentExercise: ExerciseId
    var currentPhase: Phase
    var breathCount: nat
    var roundCount: nat
    var phaseTimer: Option<Scheduler.Timer>
    var phaseDuration: nat
    /** Every phase shown through `setPhase`, in order. */
    var shown: seq<Scheduler.PhaseEvent>

    function Snapshot(): Scheduler.Session
      reads this
    {
      Scheduler.Session(isPlaying, currentExercise, currentPhase, breathCount, roundCount,
                        phaseTimer, phaseDuration, shown)
    }

    ghost predicate Valid()
      reads this
    {
      Invariant.Inv(Snapshot())
    }

    constructor ()
      ensures Snapshot() == Scheduler.Initial()
      ensures Valid()
    {
      isPlaying := false;
      currentExercise := Calm;
      currentPhase := Ready;
      breathCount := 0;
      roundCount := 1;
      phaseTimer := None;
      phaseDuration := 0;
      shown := [];
    }

    method SetPhase(e: Scheduler.PhaseEvent)
      modifies this
      ensures Snapshot() == Scheduler.SetPhase(old(Snapshot()), e)
    {
      currentPhase := e.phase;
      phaseDuration := e.duration;
      shown := shown + [e];
    }

    method ResetToStart()
      modifies this
      ensures Snapshot() == Scheduler.ResetToStart(old(Snapshot()))
    {
      currentPhase := Ready;
      breathCount := 0;
      roundCount := 1;
    }

    method Stop()
      modifies this
      ensures Snapshot() == Scheduler.Stop(old(Snapshot()))
      ensures Valid()
    {
      isPlaying := false;
      phaseTimer := None;
      ResetToStart();
      Invariant.InvStop(old(Snapshot()));
    }

    method SwitchExercise(exercise: ExerciseId)
      modifies this
      ensures Snapshot() == Scheduler.SwitchExercise(old(Snapshot()), exercise)
      ensures Valid()
    {
      Stop();
      currentExercise := exercise;
      Invariant.InvSwitch(old(Snapshot()), exercise);
    }

    method RunWimHof()
      modifies this
      ensures Snapshot() == Scheduler.RunWimHof(old(Snapshot()))
    {
      if currentPhase == Ready {
        currentPhase := Inhale;
        breathCount := 0;
      }
      if currentPhase == Inhale && breathCount < Scheduler.BREATHS_PER_ROUND {
        SetPhase(Scheduler.InhaleEvent(breathCount + 1));
        breathCount := breathCount + 1;
        phaseTimer := Some(Scheduler.Timer(Scheduler.EndInhale, Scheduler.INHALE_MS));
      } else if currentPhase == Hold {
        SetPhase(Scheduler.BreathHoldEvent());
        phaseTimer := Some(Scheduler.Timer(Scheduler.EndBreathHold, Scheduler.BREATH_HOLD_MS));
      } else if currentPhase == Recovery {
        SetPhase(Scheduler.RecoveryEvent());
        phaseTimer := Some(Scheduler.Timer(Scheduler.EndRecoveryBreath, Scheduler.RECOVERY_BREATH_MS));
      }
    }

    method RunCyclicExercise()
      requires currentExercise != WimHof
      modifies this
      ensures Snapshot() == Scheduler.RunCyclic(old(Snapshot()))
    {
      var steps := Steps(currentExercise);
      var step := steps[breathCount % |steps|];
      SetPhase(Scheduler.CyclicEvent(currentExercise, breathCount, roundCount));
      phaseTimer := Some(Scheduler.Timer(Scheduler.EndStep(currentExercise), step.duration));
    }

    method RunPhase()
      modifies this
      ensures Snapshot() == Scheduler.RunPhase(old(Snapshot()))
    {
      if !isPlaying {
        return;
      }
      if currentExercise == WimHof {
        RunWimHof();
      } else {
        RunCyclicExercise();
      }
    }

    method CompleteRound()
      modifies this
      ensures Snapshot() == Scheduler.CompleteRound(old(Snapshot()))
    {
      if roundCount < Rounds(currentExercise) {
        roundCount := roundCount + 1;
        breathCount := 0;
        if currentExercise == WimHof {
          SetPhase(Scheduler.RestEvent(roundCount));
          phaseTimer := Some(Scheduler.Timer(Scheduler.EndRest, Scheduler.REST_MS));
        } else {
          currentPhase := Steps(currentExercise)[0].kind;
          RunPhase();
        }
      } else {
        SetPhase(Scheduler.CompleteEvent());
        Stop();
      }
    }

    method Start()
      requires !isPlaying
      modifies this
      ensures Snapshot() == Scheduler.Start(old(Snapshot()))
      ensures old(Valid()) ==> Valid()
    {
      isPlaying := true;
      if currentPhase == Ready || currentPhase == Complete {
        ResetToStart();
      }
      RunPhase();
      assert Snapshot() == Scheduler.Start(old(Snapshot()));
      if old(Valid()) {
        Invariant.InvStart(old(Snapshot()));
      }
    }

    method ToggleExercise()
      modifies this
      ensures Snapshot() == Scheduler.Toggle(old(Snapshot()))
      ensures old(Valid()) ==> Valid()
    {
      if isPlaying {
        Stop();
      } else {
        Start();
      }
    }

    /** The pending timer elapses and its callback runs; with none pending nothing happens. */
    method Fire()
      modifies this
      ensures Snapshot() == Scheduler.Fire(old(Snapshot()))
      ensures old(Valid()) ==> Valid()
    {
      match phaseTimer {
      case None =>
      case Some(t) =>
        phaseTimer := None;
        match t.action {
        case EndInhale =>
          SetPhase(Scheduler.ExhaleEvent(breathCount));
          phaseTimer := Some(Scheduler.Timer(Scheduler.EndExhale, Scheduler.EXHALE_MS));
        case EndExhale =>
          currentPhase := if breathCount < Scheduler.BREATHS_PER_ROUND then Inhale else Hold;
          RunPhase();
        case EndBreathHold =>
          currentPhase := Recovery;
          RunPhase();
        case EndRecoveryBreath =>
          SetPhase(Scheduler.RecoveryHoldEvent());
          phaseTimer := Some(Scheduler.Timer(Scheduler.EndRecoveryHold, Scheduler.RECOVERY_HOLD_MS));
        case EndRecoveryHold =>
          CompleteRound();
        case EndRest =>
          currentPhase := Inhale;
          RunPhase();
        case EndStep(exercise) =>
          breathCount := breathCount + 1;
          if breathCount % |Steps(exercise)| == 0 {
            CompleteRound();
          } else {
            RunPhase();
          }
        }
      }
      assert Snapshot() == Scheduler.Fire(old(Snapshot()));
      if old(Valid()) {
        Invariant.InvFire(old(Snapshot()));
      }
    }
  }
}
