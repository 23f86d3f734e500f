/**
 * `ConversionStats`: the counters every job reports into. The mutex that
 * guards them in Go is not modelled; each update is one additive step.
 */
module Stats {
  import opened Wrappers
  import opened Multisets

  /** The terminal outcome of one job. */
  datatype Outcome = Skip | Error | Success(excluded: nat)

  /** A snapshot of the counters that jobs move. */
  datatype Counts = Counts(success: nat, errors: nat, skipped: nat, nonImageFiles: nat)

  const Zero := Counts(0, 0, 0, 0)

  function Plus(a: Counts, b: Counts): Counts
  {
    Counts(a.success + b.success, a.errors + b.errors, a.skipped + b.skipped, a.nonImageFiles + b.nonImageFiles)
  }

  /** What one job adds: exactly one of the three outcome counters, and excluded files only on success. */
  function Of(o: Outcome): (c: Counts)
    ensures c.success + c.errors + c.skipped == 1
    ensures c.success == 1 <==> o.Success?
    ensures c.errors == 1 <==> o.Error?
    ensures c.skipped == 1 <==> o.Skip?
    ensures c.nonImageFiles == if o.Success? then o.excluded else 0
  {
    match o
    case Skip => Counts(0, 0, 1, 0)
    case Error => Counts(0, 1, 0, 0)
    case Success(n) => Counts(1, 0, 0, n)
  }

  /** The counters after a run of jobs with these outcomes, starting from zero. */
  function Tally(outcomes: seq<Outcome>): (c: Counts)
    ensures c.success + c.errors + c.skipped == |outcomes|
  {
    if outcomes == [] then Zero
    else Plus(Tally(outcomes[..|outcomes| - 1]), Of(outcomes[|outcomes| - 1]))
  }

  lemma PlusZero(c: Counts)
    ensures Plus(Zero, c) == c
  {
  }

  lemma PlusAssociative(x: Counts, y: Counts, z: Counts)
    ensures Plus(Plus(x, y), z) == Plus(x, Plus(y, z))
  {
  }

  lemma TallySnoc(init: seq<Outcome>, last: Outcome)
    ensures Tally(init + [last]) == Plus(Tally(init), Of(last))
  {
    assert (init + [last])[..|init|] == init;
  }

  lemma {:induction false} TallyConcat(a: seq<Outcome>, b: seq<Outcome>)
    ensures Tally(a + b) == Plus(Tally(a), Tally(b))
    decreases |b|
  {
    if b == [] {
      assert a + b == a;
      assert Tally(b) == Zero;
      assert Plus(Tally(a), Zero) == Tally(a);
    } else {
      var init, last := b[..|b| - 1], b[|b| - 1];
      assert b == init + [last];
      assert a + b == (a + init) + [last];
      TallySnoc(a + init, last);
      TallySnoc(init, last);
      TallyConcat(a, init);
      PlusAssociative(Tally(a), Tally(init), Of(last));
      calc {
        Tally(a + b);
        Tally((a + init) + [last]);
        Plus(Tally(a + init), Of(last));
        Plus(Plus(Tally(a), Tally(init)), Of(last));
        Plus(Tally(a), Plus(Tally(init), Of(last)));
        Plus(Tally(a), Tally(init + [last]));
        Plus(Tally(a), Tally(b));
      }
    }
  }

  lemma PlusCommutative(x: Counts, y: Counts)
    ensures Plus(x, y) == Plus(y, x)
  {
  }

  /** Taking one job out of the list takes exactly its contribution out of the tally. */
  lemma TallyRemove(b: seq<Outcome>, j: nat)
    requires j < |b|
    ensures Tally(b) == Plus(Tally(b[..j] + b[j + 1..]), Of(b[j]))
  {
    var left, x, right := b[..j], b[j], b[j + 1..];
    RemoveAt(b, j);
    TallyConcat(left + [x], right);
    TallySnoc(left, x);
    TallyConcat(left, right);
    PlusAssociative(Tally(left), Of(x), Tally(right));
    PlusCommutative(Of(x), Tally(right));
    PlusAssociative(Tally(left), Tally(right), Of(x));
  }

  /**
   * The counters receive additive increments only, so the totals do not
   * depend on the order in which the jobs finish.
   */
  lemma {:induction false} TallyPermutation(a: seq<Outcome>, b: seq<Outcome>)
    requires multiset(a) == multiset(b)
    ensures Tally(a) == Tally(b)
    decreases |a|
  {
    if a == [] {
      EmptyPermutation(a, b);
    } else {
      var j := MatchLast(a, b);
      TallyPermutation(a[..|a| - 1], b[..j] + b[j + 1..]);
      TallyRemove(b, j);
    }
  }

  class ConversionStats {
    var total: nat
    var success: nat
    var errors: nat
    var skipped: nat
    var nonImageFiles: nat

    function Counters(): Counts
      reads this
    {
      Counts(success, errors, skipped, nonImageFiles)
    }

    /** `&ConversionStats{Total: n}`: the job count is fixed, every counter is zero. */
    constructor (total: nat)
      ensures this.total == total && Counters() == Zero
    {
      this.total := total;
      success, errors, skipped, nonImageFiles := 0, 0, 0, 0;
    }

    method RecordSkipped()
      modifies this
      ensures Counters() == Plus(old(Counters()), Of(Skip))
      ensures total == old(total)
    {
      skipped := skipped + 1;
    }

    method RecordError()
      modifies this
      ensures Counters() == Plus(old(Counters()), Of(Error))
      ensures total == old(total)
    {
      errors := errors + 1;
    }

    method RecordSuccess(excluded: nat)
      modifies this
      ensures Counters() == Plus(old(Counters()), Of(Success(excluded)))
      ensures total == old(total)
    {
      success := success + 1;
      nonImageFiles := nonImageFiles + excluded;
    }
  }

  /**
   * The success rate of `printFinalStats`, in percent of the jobs that
   * reached success or error; absent when there are none (all skipped).
   * Exact rational arithmetic stands in for `float64`.
   */
  function SuccessRate(success: nat, errors: nat): (rate: Option<real>)
    ensures rate.Some? <==> success + errors > 0
    ensures rate.Some? ==> 0.0 <= rate.value <= 100.0
    ensures rate.Some? && errors == 0 ==> rate.value == 100.0
    ensures rate.Some? && success == 0 ==> rate.value == 0.0
  {
    var processed := success + errors;
    if processed > 0 then
      var fraction := success as real / processed as real;
      assert fraction <= 1.0 by {
        assert success as real <= processed as real;
      }
      Some(fraction * 100.0)
    else None
  }
}
