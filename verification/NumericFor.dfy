/** The numeric `for` with an integer start and an integer step.  The limit is a number of either kind
and compared as a double; doubles are real numbers here. */
module NumericFor {
  import opened Helpers

  /** The contents of the loop variable, which the body may replace by anything. */
  datatype Value = Int(i: int) | Other(id: int)

  /** The loop ran to its end, its body left it, or the counter left the range of an `int`. */
  datatype End = Finished | Left | Overflow

  /** Iteration number `k` is due. */
  ghost predicate Due(start: int, limit: real, step: int, k: int) {
    (start + k * step) as real <= limit
  }

  /** The number of iterations of a loop with a positive step. */
  ghost function Trips(start: int, limit: real, step: int): nat
    requires step >= 1
  {
    if start as real > limit then 0
    else
      QuotientNonNegative(limit - start as real, step as real);
      ((limit - start as real) / step as real).Floor + 1
  }

  lemma QuotientNonNegative(x: real, s: real)
    requires x >= 0.0 && s > 0.0
    ensures x / s >= 0.0
  { }

  lemma AtMostQuotient(k: real, x: real, s: real)
    requires s > 0.0
    ensures k * s <= x <==> k <= x / s
  {
    assert x / s * s == x;
    if k <= x / s {
      assert k * s <= x / s * s;
    } else {
      assert k * s > x / s * s;
    }
  }

  /** Exactly the first `Trips` iterations are due. */
  lemma DueMeansTrips(start: int, limit: real, step: int, k: nat)
    requires step >= 1
    ensures Due(start, limit, step, k) <==> k < Trips(start, limit, step)
  {
    ProductAsReal(k, step);
    assert (start + k * step) as real == start as real + k as real * step as real;
    AtMostQuotient(k as real, limit - start as real, step as real);
    if start as real > limit {
      assert k as real * step as real >= 0.0;
    }
  }

  /** With a step that is not positive, all iterations are due or none is. */
  lemma DueForever(start: int, limit: real, step: int, k: nat)
    requires step <= 0 && start as real <= limit
    ensures Due(start, limit, step, k)
  {
    assert k * step <= 0;
  }

  /** Runs the loop; the body leaves it in iteration number `leaves`, if that one is reached.  Whatever
      the body writes to the loop variable, iteration `k` begins with `start + k * step`. */
  method ProcessForLoop(start: int, limit: real, step: int, leaves: nat) returns (starts: seq<Value>, end: End)
    requires Fits(start) && Fits(step)
    ensures forall k | 0 <= k < |starts| :: starts[k] == Int(start + k * step) && Due(start, limit, step, k)
    ensures end.Finished? <==> |starts| <= leaves && !Due(start, limit, step, |starts|) && Fits(start + |starts| * step)
    ensures end.Left? <==> |starts| == leaves + 1
    ensures end.Overflow? <==> 1 <= |starts| <= leaves && !Fits(start + |starts| * step)
    ensures forall k | 0 <= k < |starts| :: Fits(start + k * step)
  {
    hide Due;
    var value, counter := Int(start), start;
    starts := [];
    DueNow(start, limit, step, 0, value.i);
    while value.i as real <= limit
      invariant value == Int(counter) && counter == start + |starts| * step && Fits(counter) && |starts| <= leaves
      invariant forall k | 0 <= k < |starts| :: starts[k] == Int(start + k * step) && Due(start, limit, step, k)
      invariant forall k | 0 <= k < |starts| :: Fits(start + k * step)
      decreases leaves - |starts|
    {
      DueNow(start, limit, step, |starts|, value.i);
      starts := starts + [value];
      if |starts| == leaves + 1 {
        return starts, Left;
      }
      var written: Value := *;
      value := written;
      NextStart(start, step, |starts| - 1);
      if !Fits(counter + step) {
        return starts, Overflow;
      }
      value, counter := Int(counter + step), counter + step;
    }
    DueNow(start, limit, step, |starts|, value.i);
    end := Finished;
  }

  lemma DueNow(start: int, limit: real, step: int, k: int, i: int)
    requires i == start + k * step
    ensures Due(start, limit, step, k) <==> i as real <= limit
  { }

  lemma NextStart(start: int, step: int, k: int)
    ensures start + (k + 1) * step == start + k * step + step
  { }

  /** A loop with a positive step ends by itself after exactly `Trips` iterations if its body lets it and
      the counter stays in range. */
  method RunUpward(start: int, limit: real, step: int, leaves: nat) returns (starts: seq<Value>, end: End)
    requires Fits(start) && Fits(step) && step >= 1
    ensures forall k | 0 <= k < |starts| :: starts[k] == Int(start + k * step)
    ensures |starts| <= Trips(start, limit, step)
    ensures end.Finished? <==> Trips(start, limit, step) <= leaves && Fits(start + Trips(start, limit, step) * step)
    ensures end.Finished? ==> |starts| == Trips(start, limit, step)
  {
    hide Due, Trips, Fits;
    starts, end := ProcessForLoop(start, limit, step, leaves);
    ghost var n, trips: nat := |starts|, Trips(start, limit, step);
    DueMeansTrips(start, limit, step, n);
    if n > 0 {
      assert Due(start, limit, step, n - 1);
      DueMeansTrips(start, limit, step, n - 1);
    }
    if end.Overflow? {
      FitsBelow(start, step, n, trips);
    }
  }

  /** What fits after more steps upward also fits after fewer. */
  lemma FitsBelow(start: int, step: int, n: nat, more: nat)
    requires step >= 1 && n <= more && Fits(start)
    ensures Fits(start + more * step) ==> Fits(start + n * step)
  {
    assert 0 <= n * step <= more * step;
  }

  /** A loop whose step is not positive ends by itself exactly when its body never runs. */
  method RunDownward(start: int, limit: real, step: int, leaves: nat) returns (starts: seq<Value>, end: End)
    requires Fits(start) && Fits(step) && step <= 0
    ensures end.Finished? <==> start as real > limit
    ensures end.Finished? ==> starts == []
    ensures step == 0 && start as real <= limit ==> end.Left? && starts == seq(leaves + 1, _ => Int(start))
  {
    starts, end := ProcessForLoop(start, limit, step, leaves);
    if start as real <= limit {
      DueForever(start, limit, step, |starts|);
    } else {
      assert starts != [] ==> Due(start, limit, step, 0);
    }
  }
}
