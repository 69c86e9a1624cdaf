/**
 * The constant exercise table of the breathing player (`this.exercises`):
 * three built-in exercises keyed by "wim-hof", "box" and "calm", each with a
 * round count and an ordered list of steps.
 */
module Catalog {
  import opened Wrappers

  /** The keys of the exercise table. */
  datatype ExerciseId = WimHof | Box | Calm

  /** Every value the player's `currentPhase` takes, and the step types. */
  datatype Phase = Ready | Inhale | Exhale | Hold | Recovery | Complete

  /**
   * A step of an exercise: a single timed phase, or the Wim Hof breathing
   * block with its breath count and per-breath durations.
   */
  datatype Step =
    | Timed(kind: Phase, duration: nat)
    | Breathing(count: nat, inhaleDuration: nat, exhaleDuration: nat)

  /** The string the source uses for a phase (and for a step's `type`). */
  function PhaseName(p: Phase): string {
    match p
    case Ready => "ready"
    case Inhale => "inhale"
    case Exhale => "exhale"
    case Hold => "hold"
    case Recovery => "recovery"
    case Complete => "complete"
  }

  function Key(id: ExerciseId): string {
    match id
    case WimHof => "wim-hof"
    case Box => "box"
    case Calm => "calm"
  }

  /** Looking a key up in the exercise table; only the three keys are present. */
  function Lookup(key: string): (r: Option<ExerciseId>)
    ensures r.Some? ==> Key(r.value) == key
    ensures r.None? ==> forall id: ExerciseId :: Key(id) != key
  {
    if key == "wim-hof" then Some(WimHof)
    else if key == "box" then Some(Box)
    else if key == "calm" then Some(Calm)
    else None
  }

  lemma LookupKey(id: ExerciseId)
    ensures Lookup(Key(id)) == Some(id)
  {
  }

  /**
   * Steps the cyclic engine can run: at least one, each a single timed
   * inhale, exhale or hold.
   */
  ghost predicate IsCyclic(steps: seq<Step>) {
    && |steps| >= 1
    && forall i :: 0 <= i < |steps| ==> steps[i].Timed? && steps[i].kind in {Inhale, Exhale, Hold}
  }

  /** `exercise.rounds` of the table entry. */
  function Rounds(id: ExerciseId): (n: nat)
    ensures n >= 1
  {
    match id
    case WimHof => 3
    case Box => 20
    case Calm => 8
  }

  /**
   * `exercise.steps` of the table entry. The Wim Hof entry is part of the
   * table, but the Wim Hof engine never reads it: its durations are fixed in
   * the scheduler.
   */
  function Steps(id: ExerciseId): (steps: seq<Step>)
    ensures |steps| >= 1
    ensures id != WimHof ==> IsCyclic(steps)
  {
    match id
    case WimHof => [Breathing(30, 2000, 1500), Timed(Hold, 30000), Timed(Recovery, 17000)]
    case Box => [Timed(Inhale, 4000), Timed(Hold, 4000), Timed(Exhale, 4000), Timed(Hold, 4000)]
    case Calm => [Timed(Inhale, 4000), Timed(Hold, 7000), Timed(Exhale, 8000)]
  }

  /**
   * The display text of a cyclic step: the inhale/exhale/hold label table,
   * falling back to the raw step type for any other kind.
   */
  function Label(kind: Phase): (text: string)
    ensures kind == Inhale ==> text == "Breathe In"
    ensures kind == Exhale ==> text == "Breathe Out"
    ensures kind == Hold ==> text == "Hold"
    ensures kind !in {Inhale, Exhale, Hold} ==> text == PhaseName(kind)
  {
    match kind
    case Inhale => "Breathe In"
    case Exhale => "Breathe Out"
    case Hold => "Hold"
    case _ => PhaseName(kind)
  }

  /** Number of step completions a cyclic exercise needs to finish. */
  function TotalSteps(id: ExerciseId): nat {
    Rounds(id) * |Steps(id)|
  }

  lemma CyclicTotals()
    ensures TotalSteps(Calm) == 24 && TotalSteps(Box) == 80
  {
  }
}
