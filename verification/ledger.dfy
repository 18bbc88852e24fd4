/** The per-user attempt history of one coding exercise: the gate that
    refuses an attempt once the allowance is used up, and the way each
    graded or failed-to-compile submission is merged into the history. */
module Ledger {
  import opened Wrappers

  /** The stored history row.  Times are milliseconds. */
  datatype History = History(attemptedOn: int, attemptCount: int, isPassed: bool,
                             totalCases: int, passedCases: nat, duration: int,
                             minDuration: int, rankScore: real)

  /** One submission as the ledger sees it: either graded against the
      submit cases, or stopped by a compilation error. */
  datatype Attempt =
    | Graded(at: int, verdict: bool, totalCases: int, passed: nat, duration: int, elapsed: int, rank: real)
    | CompileFailed(at: int, totalCases: int, duration: int, compileTime: int)

  /** The gate: only an existing history can refuse an attempt, so an
      exercise whose allowance is zero or negative still admits one. */
  predicate Exhausted(prior: Option<History>, maxAttempts: int) {
    prior.Some? && prior.value.attemptCount >= maxAttempts
  }

  /** The number this attempt gets. */
  function AttemptNumber(prior: Option<History>): int {
    if prior.None? then 1 else prior.value.attemptCount + 1
  }

  function Max(a: int, b: int): int { if a >= b then a else b }
  function Min(a: int, b: int): int { if a <= b then a else b }
  function MaxReal(a: real, b: real): real { if a >= b then a else b }

  /** `next` keeps everything `prior` achieved: a pass stays a pass, the
      best case count, shortest time and best rank never get worse, and the
      case total and declared duration of the first attempt stay. */
  predicate KeepsBest(prior: Option<History>, next: History) {
    prior.Some? ==>
      var p := prior.value;
      (p.isPassed ==> next.isPassed) && next.passedCases >= p.passedCases &&
      next.minDuration <= p.minDuration && next.rankScore >= p.rankScore &&
      next.totalCases == p.totalCases && next.duration == p.duration
  }

  /** A graded submission: a first history records it as is; an existing
      one takes the sticky pass, the larger case count, the shorter time and
      the better rank, and keeps its attemptedOn. */
  function RecordGraded(prior: Option<History>, at: int, verdict: bool, totalCases: int,
                        passed: nat, duration: int, elapsed: int, rank: real): (h: History)
    ensures h.attemptCount == AttemptNumber(prior)
    ensures KeepsBest(prior, h)
    ensures h.isPassed <==> verdict || (prior.Some? && prior.value.isPassed)
    ensures h.passedCases >= passed && (h.passedCases == passed || (prior.Some? && h.passedCases == prior.value.passedCases))
    ensures h.minDuration <= elapsed && (h.minDuration == elapsed || (prior.Some? && h.minDuration == prior.value.minDuration))
    ensures h.rankScore >= rank && (h.rankScore == rank || (prior.Some? && h.rankScore == prior.value.rankScore))
    ensures h.attemptedOn == (if prior.None? then at else prior.value.attemptedOn)
    ensures prior.None? ==> h.totalCases == totalCases && h.duration == duration
  {
    match prior
    case None => History(at, 1, verdict, totalCases, passed, duration, elapsed, rank)
    case Some(p) =>
      p.(attemptCount := p.attemptCount + 1,
         isPassed := p.isPassed || verdict,
         passedCases := Max(p.passedCases, passed),
         minDuration := Min(p.minDuration, elapsed),
         rankScore := MaxReal(p.rankScore, rank))
  }

  /** A submission that did not compile: an existing history only counts
      the attempt and moves attemptedOn; a first history is a failed one
      with no passed cases and no rank, whose shortest time is the
      compilation time. */
  function RecordCompileError(prior: Option<History>, at: int, totalCases: int,
                              duration: int, compileTime: int): (h: History)
    ensures h.attemptCount == AttemptNumber(prior)
    ensures KeepsBest(prior, h)
    ensures h.attemptedOn == at
    ensures prior.Some? ==> h.(attemptCount := prior.value.attemptCount, attemptedOn := prior.value.attemptedOn) == prior.value
    ensures prior.None? ==> !h.isPassed && h.passedCases == 0 && h.rankScore == 0.0 && h.minDuration == compileTime
    ensures prior.None? ==> h.totalCases == totalCases && h.duration == duration
  {
    match prior
    case None => History(at, 1, false, totalCases, 0, duration, compileTime, 0.0)
    case Some(p) => p.(attemptCount := p.attemptCount + 1, attemptedOn := at)
  }

  /** The history after one submission. */
  function Step(prior: Option<History>, a: Attempt): History {
    match a
    case Graded(at, verdict, total, passed, duration, elapsed, rank) =>
      RecordGraded(prior, at, verdict, total, passed, duration, elapsed, rank)
    case CompileFailed(at, total, duration, compileTime) =>
      RecordCompileError(prior, at, total, duration, compileTime)
  }

  /** The history after a series of submissions, oldest first. */
  function Replay(prior: Option<History>, attempts: seq<Attempt>): Option<History>
    decreases |attempts|
  {
    if attempts == [] then prior else Replay(Some(Step(prior, attempts[0])), attempts[1..])
  }

  /** Reference definitions over the submissions themselves. */
  function PassedOf(a: Attempt): nat {
    if a.Graded? then a.passed else 0
  }

  function BestPassed(attempts: seq<Attempt>): nat {
    if attempts == [] then 0 else Max(PassedOf(attempts[0]), BestPassed(attempts[1..]))
  }

  predicate EverPassed(attempts: seq<Attempt>) {
    exists i :: 0 <= i < |attempts| && attempts[i].Graded? && attempts[i].verdict
  }

  function PriorCount(prior: Option<History>): int {
    if prior.None? then 0 else prior.value.attemptCount
  }

  function PriorPassed(prior: Option<History>): nat {
    if prior.None? then 0 else prior.value.passedCases
  }

  /** Replaying submissions counts each of them once, passes once any
      graded submission passed, and keeps the best passed-case count of all
      of them. */
  lemma {:induction false} ReplaySummary(prior: Option<History>, attempts: seq<Attempt>)
    requires prior.Some? || attempts != []
    ensures Replay(prior, attempts).Some?
    ensures Replay(prior, attempts).value.attemptCount == PriorCount(prior) + |attempts|
    ensures Replay(prior, attempts).value.isPassed <==>
              (prior.Some? && prior.value.isPassed) || EverPassed(attempts)
    ensures Replay(prior, attempts).value.passedCases == Max(PriorPassed(prior), BestPassed(attempts))
    decreases |attempts|
  {
    if attempts != [] {
      var next := Some(Step(prior, attempts[0]));
      ReplaySummary(next, attempts[1..]);
      if EverPassed(attempts[1..]) {
        var i :| 0 <= i < |attempts[1..]| && attempts[1..][i].Graded? && attempts[1..][i].verdict;
        assert attempts[i + 1] == attempts[1..][i];
      }
      if EverPassed(attempts) {
        var i :| 0 <= i < |attempts| && attempts[i].Graded? && attempts[i].verdict;
        if i > 0 { assert attempts[1..][i - 1] == attempts[i]; }
      }
    }
  }

  /** Replay never loses ground: the result keeps the best of the start. */
  lemma {:induction false} ReplayKeepsBest(prior: Option<History>, attempts: seq<Attempt>)
    requires prior.Some?
    ensures Replay(prior, attempts).Some? && KeepsBest(prior, Replay(prior, attempts).value)
    decreases |attempts|
  {
    if attempts != [] {
      var next := Some(Step(prior, attempts[0]));
      ReplayKeepsBest(next, attempts[1..]);
    }
  }

  /** The history before submission i of a series that started with none. */
  function Before(attempts: seq<Attempt>, i: nat): Option<History>
    requires i <= |attempts|
  {
    Replay(None, attempts[..i])
  }

  /** Every submission of the series passed the gate when it was made. */
  predicate AllAdmitted(attempts: seq<Attempt>, maxAttempts: int) {
    forall i :: 0 <= i < |attempts| ==> !Exhausted(Before(attempts, i), maxAttempts)
  }

  /** The gate bounds the number of submissions that reach the ledger by
      the allowance, except that one submission always gets through. */
  lemma AdmittedAttemptsBounded(attempts: seq<Attempt>, maxAttempts: int)
    requires AllAdmitted(attempts, maxAttempts)
    ensures |attempts| <= Max(1, maxAttempts)
  {
    if |attempts| > 1 {
      var i := |attempts| - 1;
      assert !Exhausted(Before(attempts, i), maxAttempts);
      ReplaySummary(None, attempts[..i]);
    }
  }

  /** The history each save in a series replaced: none before the first. */
  function PreviousSave(saves: seq<History>, i: nat): Option<History>
    requires i < |saves|
  {
    if i == 0 then None else Some(saves[i - 1])
  }

  /** Each saved history was written by an attempt the gate admitted, and
      numbers that attempt one past the history it replaced. */
  predicate SavedInTurn(saves: seq<History>, maxAttempts: int) {
    forall i :: 0 <= i < |saves| ==>
      !Exhausted(PreviousSave(saves, i), maxAttempts) &&
      saves[i].attemptCount == AttemptNumber(PreviousSave(saves, i))
  }

  /** Saves made in turn are numbered 1, 2, 3, ... and there are at most
      as many as the allowance, or one when the allowance is below one. */
  lemma {:induction false} SavedInTurnBounded(saves: seq<History>, maxAttempts: int)
    requires SavedInTurn(saves, maxAttempts)
    ensures forall i :: 0 <= i < |saves| ==> saves[i].attemptCount == i + 1
    ensures |saves| <= Max(1, maxAttempts)
    decreases |saves|
  {
    if saves != [] {
      var n := |saves| - 1;
      assert SavedInTurn(saves[..n], maxAttempts) by {
        forall i | 0 <= i < n
          ensures !Exhausted(PreviousSave(saves[..n], i), maxAttempts) &&
                  saves[..n][i].attemptCount == AttemptNumber(PreviousSave(saves[..n], i))
        {
          assert PreviousSave(saves[..n], i) == PreviousSave(saves, i);
        }
      }
      SavedInTurnBounded(saves[..n], maxAttempts);
      assert forall i :: 0 <= i < n ==> saves[i] == saves[..n][i];
      assert !Exhausted(PreviousSave(saves, n), maxAttempts);
    }
  }
}
