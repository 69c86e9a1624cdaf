/**
 * Whole runs of the Wim Hof exercise. A running Wim Hof session is always
 * at one point of one round: breathing in or out on breath `b` of 30, the
 * 30 s hold, the recovery breath, the 15 s recovery hold, or the 45 s rest
 * before rounds 2 and 3. A timer firing moves it to the next point; the
 * recovery hold of the last round ends in completion, 191 firings after
 * `start()`.
 */
module WimHofRun {
  import opened Wrappers
  import opened Catalog
  import opened Scheduler

  /** A point of a Wim Hof round at which a timer is pending. */
  datatype Point =
    | BreathIn(breath: nat)
    | BreathOut(breath: nat)
    | BreathHold
    | RecoveryBreath
    | RecoveryHold
    | Rest

  /** The points that exist: breaths 1 to 30, and a rest only before rounds after the first. */
  predicate ValidPoint(r: nat, p: Point) {
    && 1 <= r <= Rounds(WimHof)
    && match p
       case BreathIn(b) => 1 <= b <= BREATHS_PER_ROUND
       case BreathOut(b) => 1 <= b <= BREATHS_PER_ROUND
       case Rest => r >= 2
       case _ => true
  }

  /** The phase shown on arriving at point `p` of round `r`. */
  function Event(r: nat, p: Point): PhaseEvent {
    match p
    case BreathIn(b) => InhaleEvent(b)
    case BreathOut(b) => ExhaleEvent(b)
    case BreathHold => BreathHoldEvent()
    case RecoveryBreath => RecoveryEvent()
    case RecoveryHold => RecoveryHoldEvent()
    case Rest => RestEvent(r)
  }

  /** The callback pending at each point. */
  function Pending(p: Point): Action {
    match p
    case BreathIn(_) => EndInhale
    case BreathOut(_) => EndExhale
    case BreathHold => EndBreathHold
    case RecoveryBreath => EndRecoveryBreath
    case RecoveryHold => EndRecoveryHold
    case Rest => EndRest
  }

  /** `breathCount` at each point: the breath being taken, 30 after the breaths, 0 in the rest. */
  function Breaths(p: Point): nat {
    match p
    case BreathIn(b) => b
    case BreathOut(b) => b
    case Rest => 0
    case _ => BREATHS_PER_ROUND
  }

  /** Running at point `p` of round `r`, with that point's timer pending. */
  ghost predicate WimHofAt(s: Session, r: nat, p: Point) {
    && ValidPoint(r, p)
    && s.exercise == WimHof
    && s.playing
    && s.roundCount == r
    && s.breathCount == Breaths(p)
    && s.phase == Event(r, p).phase
    && s.duration == Event(r, p).duration
    && s.timer == Some(Timer(Pending(p), Event(r, p).duration))
  }

  /** The recovery hold of the last round: the point whose timer completes the exercise. */
  predicate Final(r: nat, p: Point) {
    p == RecoveryHold && r == Rounds(WimHof)
  }

  /** The point that follows `p` of round `r`. */
  function Next(r: nat, p: Point): (q: (nat, Point))
    requires ValidPoint(r, p) && !Final(r, p)
    ensures ValidPoint(q.0, q.1)
  {
    match p
    case BreathIn(b) => (r, BreathOut(b))
    case BreathOut(b) => if b < BREATHS_PER_ROUND then (r, BreathIn(b + 1)) else (r, BreathHold)
    case BreathHold => (r, RecoveryBreath)
    case RecoveryBreath => (r, RecoveryHold)
    case RecoveryHold => (r + 1, Rest)
    case Rest => (r, BreathIn(1))
  }

  /** Starting from the reset state shows breath 1 of round 1. */
  lemma StartWimHof(s: Session)
    requires Stopped(s) && s.exercise == WimHof
    ensures WimHofAt(Start(s), 1, BreathIn(1))
    ensures Start(s).log == s.log + [Event(1, BreathIn(1))]
  {
  }

  /** The inhale of breath `b` ends: its exhale, "Breath b/30", 1500 ms. */
  lemma FireBreathIn(s: Session, r: nat, b: nat)
    requires WimHofAt(s, r, BreathIn(b))
    ensures WimHofAt(Fire(s), r, BreathOut(b)) && Fire(s).log == s.log + [ExhaleEvent(b)]
  {
  }

  /** The exhale of breath `b` ends: the next inhale, or after breath 30 the 30 s hold. */
  lemma FireBreathOut(s: Session, r: nat, b: nat)
    requires WimHofAt(s, r, BreathOut(b))
    ensures b < BREATHS_PER_ROUND ==>
              WimHofAt(Fire(s), r, BreathIn(b + 1)) && Fire(s).log == s.log + [InhaleEvent(b + 1)]
    ensures b == BREATHS_PER_ROUND ==>
              WimHofAt(Fire(s), r, BreathHold) && Fire(s).log == s.log + [BreathHoldEvent()]
  {
  }

  /** The 30 s hold ends: the recovery breath. */
  lemma FireBreathHold(s: Session, r: nat)
    requires WimHofAt(s, r, BreathHold)
    ensures WimHofAt(Fire(s), r, RecoveryBreath) && Fire(s).log == s.log + [RecoveryEvent()]
  {
  }

  /** The recovery breath ends: the 15 s recovery hold. */
  lemma FireRecoveryBreath(s: Session, r: nat)
    requires WimHofAt(s, r, RecoveryBreath)
    ensures WimHofAt(Fire(s), r, RecoveryHold) && Fire(s).log == s.log + [RecoveryHoldEvent()]
  {
  }

  /** The recovery hold ends the round: the rest before the next one, or completion. */
  lemma FireRecoveryHold(s: Session, r: nat)
    requires WimHofAt(s, r, RecoveryHold)
    ensures Fire(s).exercise == WimHof
    ensures r < Rounds(WimHof) ==>
              WimHofAt(Fire(s), r + 1, Rest) && Fire(s).log == s.log + [RestEvent(r + 1)]
    ensures r == Rounds(WimHof) ==> Stopped(Fire(s)) && Fire(s).log == s.log + [CompleteEvent()]
  {
    if r < Rounds(WimHof) {
      CompleteRoundWimHof(s.(timer := None));
    }
  }

  /** The rest ends: breath 1 of the round. */
  lemma FireRest(s: Session, r: nat)
    requires WimHofAt(s, r, Rest)
    ensures WimHofAt(Fire(s), r, BreathIn(1)) && Fire(s).log == s.log + [InhaleEvent(1)]
  {
  }

  /**
   * One timer firing: the next point, showing its phase; or, at the recovery
   * hold of the last round, the `complete` phase and a reset player.
   */
  lemma WimHofStep(s: Session, r: nat, p: Point)
    requires WimHofAt(s, r, p)
    ensures Fire(s).exercise == WimHof
    ensures !Final(r, p) ==>
              var q := Next(r, p);
              WimHofAt(Fire(s), q.0, q.1) && Fire(s).log == s.log + [Event(q.0, q.1)]
    ensures Final(r, p) ==> Stopped(Fire(s)) && Fire(s).log == s.log + [CompleteEvent()]
  {
    match p
    case BreathIn(b) =>
      FireBreathIn(s, r, b);
      assert Next(r, p) == (r, BreathOut(b));
    case BreathOut(b) =>
      FireBreathOut(s, r, b);
    case BreathHold =>
      FireBreathHold(s, r);
      assert Next(r, p) == (r, RecoveryBreath);
    case RecoveryBreath =>
      FireRecoveryBreath(s, r);
      assert Next(r, p) == (r, RecoveryHold);
    case RecoveryHold =>
      FireRecoveryHold(s, r);
    case Rest =>
      FireRest(s, r);
      assert Next(r, p) == (r, BreathIn(1));
  }

  /** `WimHofStep`, read off a run. */
  lemma WimHofStepInRun(run: seq<Session>, i: nat, r: nat, p: Point)
    requires IsRun(run) && i + 1 < |run| && WimHofAt(run[i], r, p)
    ensures run[i + 1].exercise == WimHof
    ensures !Final(r, p) ==>
              var q := Next(r, p);
              WimHofAt(run[i + 1], q.0, q.1) && run[i + 1].log == run[i].log + [Event(q.0, q.1)]
    ensures Final(r, p) ==> Stopped(run[i + 1]) && run[i + 1].log == run[i].log + [CompleteEvent()]
  {
    assert FiresInto(run, i);
    WimHofStep(run[i], r, p);
  }

  /** Firings from breath 1 of round 1 to point `p` of round `r`; 64 per round. */
  function Index(r: nat, p: Point): nat
    requires ValidPoint(r, p)
  {
    var base := 64 * (r - 1);
    match p
    case BreathIn(b) => base + 2 * (b - 1)
    case BreathOut(b) => base + 2 * b - 1
    case BreathHold => base + 60
    case RecoveryBreath => base + 61
    case RecoveryHold => base + 62
    case Rest => base - 1
  }

  /** Different points of a session are reached after different numbers of firings. */
  lemma IndexInjective(r: nat, p: Point, r2: nat, p2: Point)
    requires ValidPoint(r, p) && ValidPoint(r2, p2) && Index(r, p) == Index(r2, p2)
    ensures (r, p) == (r2, p2)
  {
  }

  /** The point before `p` of round `r`: `Next` undoes it, one firing earlier. */
  function Prev(r: nat, p: Point): (q: (nat, Point))
    requires ValidPoint(r, p) && (r, p) != (1, BreathIn(1))
    ensures ValidPoint(q.0, q.1) && !Final(q.0, q.1)
    ensures Next(q.0, q.1) == (r, p)
    ensures Index(q.0, q.1) + 1 == Index(r, p)
  {
    match p
    case BreathIn(b) => if b > 1 then (r, BreathOut(b - 1)) else (r, Rest)
    case BreathOut(b) => (r, BreathIn(b))
    case BreathHold => (r, BreathOut(BREATHS_PER_ROUND))
    case RecoveryBreath => (r, BreathHold)
    case RecoveryHold => (r, RecoveryBreath)
    case Rest => (r - 1, RecoveryHold)
  }

  /** Every phase shown from breath 1 of round 1 up to and including point `p` of round `r`. */
  function TraceTo(r: nat, p: Point): seq<PhaseEvent>
    requires ValidPoint(r, p)
    decreases Index(r, p)
  {
    if (r, p) == (1, BreathIn(1)) then [Event(1, BreathIn(1))]
    else
      var q := Prev(r, p);
      TraceTo(q.0, q.1) + [Event(r, p)]
  }

  lemma AppendAssoc<T>(a: seq<T>, b: seq<T>, c: seq<T>)
    ensures (a + b) + c == a + (b + c)
  {
  }

  /** After `Index(r, p)` firings the run is at point `p` of round `r`, having shown `before` and then `TraceTo(r, p)`. */
  ghost predicate ReachedAt(before: seq<PhaseEvent>, run: seq<Session>, r: nat, p: Point) {
    && ValidPoint(r, p)
    && |run| > Index(r, p)
    && WimHofAt(run[Index(r, p)], r, p)
    && run[Index(r, p)].log == before + TraceTo(r, p)
  }

  /** One firing of a run, from the point before `p` to `p`, extends the trace by `p`'s phase. */
  lemma WimHofAdvance(before: seq<PhaseEvent>, run: seq<Session>, r: nat, p: Point)
    requires ValidPoint(r, p) && (r, p) != (1, BreathIn(1))
    requires IsRun(run) && |run| > Index(r, p)
    requires var q := Prev(r, p); ReachedAt(before, run, q.0, q.1)
    ensures ReachedAt(before, run, r, p)
  {
    var q := Prev(r, p);
    var k := Index(q.0, q.1);
    assert k + 1 == Index(r, p);
    WimHofStepInRun(run, k, q.0, q.1);
    var t, e := TraceTo(q.0, q.1), Event(r, p);
    assert TraceTo(r, p) == t + [e];
    assert run[k + 1].log == (before + t) + [e];
    AppendAssoc(before, t, [e]);
  }

  /**
   * `Index(r, p)` firings after breath 1 of round 1 the run is at point `p`
   * of round `r` and has shown every earlier phase in order.
   */
  lemma {:induction false} WimHofRunFrom(before: seq<PhaseEvent>, run: seq<Session>, r: nat, p: Point)
    requires ValidPoint(r, p)
    requires IsRun(run) && |run| > Index(r, p)
    requires ReachedAt(before, run, 1, BreathIn(1))
    ensures ReachedAt(before, run, r, p)
    decreases Index(r, p)
  {
    if (r, p) != (1, BreathIn(1)) {
      var q := Prev(r, p);
      WimHofRunFrom(before, run, q.0, q.1);
      WimHofAdvance(before, run, r, p);
    }
  }

  /** `WimHofRunFrom`, counted from `start()`. */
  lemma WimHofRunPrefix(s: Session, run: seq<Session>, r: nat, p: Point)
    requires Stopped(s) && s.exercise == WimHof && ValidPoint(r, p)
    requires IsRun(run) && |run| > Index(r, p) && run[0] == Start(s)
    ensures WimHofAt(run[Index(r, p)], r, p)
    ensures run[Index(r, p)].log == s.log + TraceTo(r, p)
  {
    StartWimHof(s);
    assert ReachedAt(s.log, run, 1, BreathIn(1));
    WimHofRunFrom(s.log, run, r, p);
  }

  /** Firings from `start()` to completion: three rounds of 64, less the rest before round 1. */
  const SESSION_FIRINGS: nat := 191

  /**
   * Completion: the 191st firing after `start()` shows `complete` and leaves
   * the player reset, after every phase of the three rounds in order.
   */
  lemma WimHofSession(s: Session, run: seq<Session>)
    requires Stopped(s) && s.exercise == WimHof
    requires IsRun(run) && |run| > SESSION_FIRINGS && run[0] == Start(s)
    ensures Stopped(run[SESSION_FIRINGS]) && run[SESSION_FIRINGS].exercise == WimHof
    ensures run[SESSION_FIRINGS].log == s.log + WimHofRounds(Rounds(WimHof)) + [CompleteEvent()]
  {
    var R := Rounds(WimHof);
    WimHofRunPrefix(s, run, R, RecoveryHold);
    WimHofStepInRun(run, Index(R, RecoveryHold), R, RecoveryHold);
    TraceClosedForm(R, RecoveryHold);
    assert ClosedAt(R, RecoveryHold);
  }

  /** The point reached `k` firings after breath 1 of round 1, for `k` before completion. */
  function PointAt(k: nat): (q: (nat, Point))
    requires k < SESSION_FIRINGS
    ensures ValidPoint(q.0, q.1) && Index(q.0, q.1) == k
  {
    var r := k / 64 + 1;
    var o := k % 64;
    if o == 63 then (r + 1, Rest)
    else if o < 60 then
      if o % 2 == 0 then (r, BreathIn(o / 2 + 1)) else (r, BreathOut((o + 1) / 2))
    else if o == 60 then (r, BreathHold)
    else if o == 61 then (r, RecoveryBreath)
    else (r, RecoveryHold)
  }

  /**
   * Completion count: `k` firings after `start()` the exercise is still
   * playing, with a timer pending, exactly when `k < 191`; from completion on
   * nothing changes any more.
   */
  lemma WimHofCompletionCount(s: Session, run: seq<Session>, k: nat)
    requires Stopped(s) && s.exercise == WimHof
    requires IsRun(run) && |run| > k && run[0] == Start(s)
    ensures run[k].playing <==> k < SESSION_FIRINGS
    ensures run[k].timer.Some? <==> k < SESSION_FIRINGS
    ensures k >= SESSION_FIRINGS ==> run[k] == run[SESSION_FIRINGS]
  {
    if k < SESSION_FIRINGS {
      var q := PointAt(k);
      WimHofRunPrefix(s, run, q.0, q.1);
    } else {
      WimHofSession(s, run);
      RunStaysStopped(run, SESSION_FIRINGS, k);
    }
  }

  // ---- the phases of a session in closed form ----

  /** Breaths 1 to `b`: each an inhale then an exhale, both captioned "Breath k/30". */
  function BreathPairs(b: nat): seq<PhaseEvent> {
    if b == 0 then [] else BreathPairs(b - 1) + [InhaleEvent(b), ExhaleEvent(b)]
  }

  /** The 45 s rest that opens every round after the first. */
  function RestPart(r: nat): seq<PhaseEvent> {
    if r <= 1 then [] else [RestEvent(r)]
  }

  /** Round `r`: its rest, 30 breaths, the 30 s hold, the recovery breath and the 15 s recovery hold. */
  function WimHofRound(r: nat): seq<PhaseEvent> {
    RestPart(r) + BreathPairs(BREATHS_PER_ROUND) + [BreathHoldEvent(), RecoveryEvent(), RecoveryHoldEvent()]
  }

  /** Rounds 1 to `m`, back to back. */
  function WimHofRounds(m: nat): seq<PhaseEvent> {
    if m == 0 then [] else WimHofRounds(m - 1) + WimHofRound(m)
  }

  /** What round `r` has shown up to and including point `p`. */
  function Partial(r: nat, p: Point): seq<PhaseEvent>
    requires ValidPoint(r, p)
  {
    match p
    case BreathIn(b) => RestPart(r) + BreathPairs(b - 1) + [InhaleEvent(b)]
    case BreathOut(b) => RestPart(r) + BreathPairs(b)
    case BreathHold => RestPart(r) + BreathPairs(BREATHS_PER_ROUND) + [BreathHoldEvent()]
    case RecoveryBreath => RestPart(r) + BreathPairs(BREATHS_PER_ROUND) + [BreathHoldEvent(), RecoveryEvent()]
    case RecoveryHold => WimHofRound(r)
    case Rest => [RestEvent(r)]
  }

  lemma PartialBreathOut(r: nat, b: nat)
    requires ValidPoint(r, BreathOut(b))
    ensures Partial(r, BreathOut(b)) == Partial(r, BreathIn(b)) + [ExhaleEvent(b)]
  {
    var pre, i, x := BreathPairs(b - 1), InhaleEvent(b), ExhaleEvent(b);
    assert BreathPairs(b) == pre + [i, x];
    assert [i, x] == [i] + [x];
    AppendAssoc(pre, [i], [x]);
    AppendAssoc(RestPart(r), pre + [i], [x]);
  }

  lemma PartialBreathIn(r: nat, b: nat)
    requires ValidPoint(r, BreathIn(b)) && b > 1
    ensures Partial(r, BreathIn(b)) == Partial(r, BreathOut(b - 1)) + [InhaleEvent(b)]
  {
  }

  lemma PartialFirstBreath(r: nat)
    requires ValidPoint(r, Rest)
    ensures Partial(r, BreathIn(1)) == Partial(r, Rest) + [InhaleEvent(1)]
  {
  }

  lemma PartialHolds(r: nat)
    requires ValidPoint(r, BreathHold)
    ensures Partial(r, BreathHold) == Partial(r, BreathOut(BREATHS_PER_ROUND)) + [BreathHoldEvent()]
    ensures Partial(r, RecoveryBreath) == Partial(r, BreathHold) + [RecoveryEvent()]
    ensures Partial(r, RecoveryHold) == Partial(r, RecoveryBreath) + [RecoveryHoldEvent()]
  {
    var pre, h, v, w := RestPart(r) + BreathPairs(BREATHS_PER_ROUND), BreathHoldEvent(), RecoveryEvent(), RecoveryHoldEvent();
    assert [h, v] == [h] + [v];
    assert [h, v, w] == [h, v] + [w];
    AppendAssoc(pre, [h], [v]);
    AppendAssoc(pre, [h, v], [w]);
  }

  /** Within round `r`, what the round has shown grows by the phase of the next point. */
  lemma PartialStep(r: nat, p: Point)
    requires ValidPoint(r, p) && p != Rest && (r, p) != (1, BreathIn(1))
    ensures Prev(r, p).0 == r
    ensures Partial(r, p) == Partial(r, Prev(r, p).1) + [Event(r, p)]
  {
    match p
    case BreathIn(b) =>
      if b == 1 {
        PartialFirstBreath(r);
      } else {
        PartialBreathIn(r, b);
      }
    case BreathOut(b) =>
      PartialBreathOut(r, b);
    case _ =>
      PartialHolds(r);
  }

  /** The trace up to point `p` of round `r` is the earlier rounds whole, then round `r` so far. */
  ghost predicate ClosedAt(r: nat, p: Point)
    requires ValidPoint(r, p)
  {
    TraceTo(r, p) == WimHofRounds(r - 1) + Partial(r, p)
  }

  /** `ClosedAt`, carried over one point within a round. */
  lemma ClosedFormInRound(r: nat, p: Point)
    requires ValidPoint(r, p) && p != Rest && (r, p) != (1, BreathIn(1))
    requires ClosedAt(Prev(r, p).0, Prev(r, p).1)
    ensures ClosedAt(r, p)
  {
    var q := Prev(r, p);
    PartialStep(r, p);
    var before, t, e := WimHofRounds(r - 1), Partial(r, q.1), Event(r, p);
    assert TraceTo(r, p) == TraceTo(q.0, q.1) + [e];
    assert TraceTo(q.0, q.1) == before + t;
    AppendAssoc(before, t, [e]);
  }

  /** `ClosedAt`, carried over the rest that opens round `r`. */
  lemma ClosedFormRest(r: nat)
    requires ValidPoint(r, Rest)
    requires ClosedAt(Prev(r, Rest).0, Prev(r, Rest).1)
    ensures ClosedAt(r, Rest)
  {
  }

  /** `ClosedAt` holds of breath 1 of round 1. */
  lemma ClosedFormFirst()
    ensures ClosedAt(1, BreathIn(1))
  {
    assert Partial(1, BreathIn(1)) == [InhaleEvent(1)];
  }

  /** By induction over the points: the trace up to any point is in closed form. */
  lemma {:induction false} TraceClosedForm(r: nat, p: Point)
    requires ValidPoint(r, p)
    ensures ClosedAt(r, p)
    decreases Index(r, p)
  {
    if (r, p) == (1, BreathIn(1)) {
      ClosedFormFirst();
    } else {
      var q := Prev(r, p);
      TraceClosedForm(q.0, q.1);
      if p == Rest {
        ClosedFormRest(r);
      } else {
        ClosedFormInRound(r, p);
      }
    }
  }

  /** Breath `i` of the first `b` is an inhale at position `2(i-1)` and an exhale right after it. */
  lemma {:induction false} BreathPairsShape(b: nat, i: nat)
    requires 1 <= i <= b
    ensures |BreathPairs(b)| == 2 * b
    ensures BreathPairs(b)[2 * (i - 1)] == InhaleEvent(i)
    ensures BreathPairs(b)[2 * i - 1] == ExhaleEvent(i)
  {
    if i < b {
      BreathPairsShape(b - 1, i);
    } else if b > 1 {
      BreathPairsShape(b - 1, b - 1);
    }
  }
}
