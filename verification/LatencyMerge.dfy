/**
 The report's merge of per-run latency histograms.  A bucket is added to the entry with the same upper
 bound, or appended if there is none; runs without metrics contribute nothing.
 */
module LatencyMerge {
  import opened Buckets

  // ---- The merge ----

  /** The first entry with the given bound, or |canon|. */
  function Find(canon: seq<Bucket>, bound: real): (i: nat)
    ensures i <= |canon|
    ensures i < |canon| ==> canon[i].upperBound == bound
    ensures forall k | 0 <= k < i :: canon[k].upperBound != bound
  {
    if canon == [] then 0 else if canon[0].upperBound == bound then 0 else 1 + Find(canon[1..], bound)
  }

  function Absorb(canon: seq<Bucket>, b: Bucket): seq<Bucket> {
    var i := Find(canon, b.upperBound);
    if i < |canon| then canon[i := canon[i].(count := canon[i].count + b.count)] else canon + [b]
  }

  function AbsorbRun(canon: seq<Bucket>, run: seq<Bucket>): seq<Bucket>
    decreases |run|
  {
    if run == [] then canon else Absorb(AbsorbRun(canon, run[..|run| - 1]), run[|run| - 1])
  }

  function Merged(runs: seq<seq<Bucket>>): seq<Bucket>
    decreases |runs|
  {
    if runs == [] then [] else AbsorbRun(Merged(runs[..|runs| - 1]), runs[|runs| - 1])
  }

  /** The merge loop. */
  method Merge(runs: seq<seq<Bucket>>) returns (canon: seq<Bucket>)
    ensures canon == Merged(runs)
  {
    canon := [];
    for r := 0 to |runs|
      invariant canon == Merged(runs[..r])
    {
      var latencies := runs[r];
      ghost var before := canon;
      for k := 0 to |latencies|
        invariant canon == AbsorbRun(before, latencies[..k])
      {
        assert latencies[..k + 1][..k] == latencies[..k];
        var i := Find(canon, latencies[k].upperBound);
        if i < |canon| {
          canon := canon[i := canon[i].(count := canon[i].count + latencies[k].count)];
        } else {
          canon := canon + [latencies[k]];
        }
      }
      assert latencies[..|latencies|] == latencies && runs[..r + 1][..r] == runs[..r];
    }
    assert runs[..|runs|] == runs;
  }

  // ---- The merge is a pointwise sum ----

  ghost predicate SameBounds(a: seq<Bucket>, b: seq<Bucket>) {
    |a| == |b| && forall i | 0 <= i < |a| :: a[i].upperBound == b[i].upperBound
  }

  function Plus(a: seq<Bucket>, b: seq<Bucket>): seq<Bucket>
    requires |a| == |b|
  {
    seq(|a|, i requires 0 <= i < |a| => Bucket(a[i].upperBound, a[i].count + b[i].count))
  }

  ghost predicate Distinct(bs: seq<Bucket>) {
    forall i, j | 0 <= i < j < |bs| :: bs[i].upperBound != bs[j].upperBound
  }

  lemma FindAt(canon: seq<Bucket>, i: nat)
    requires i < |canon| && Distinct(canon)
    ensures Find(canon, canon[i].upperBound) == i
  {
  }

  lemma FindNone(canon: seq<Bucket>, b: Bucket)
    requires Distinct(canon + [b])
    ensures Distinct(canon) && Absorb(canon, b) == canon + [b]
  {
    assert forall i | 0 <= i < |canon| :: (canon + [b])[i] == canon[i];
    assert (canon + [b])[|canon|] == b;
  }

  /** The first run is copied. */
  lemma {:induction false} AbsorbIntoEmpty(run: seq<Bucket>)
    requires Distinct(run)
    ensures AbsorbRun([], run) == run
    decreases |run|
  {
    if run != [] {
      var n := |run| - 1;
      assert run == run[..n] + [run[n]];
      FindNone(run[..n], run[n]);
      AbsorbIntoEmpty(run[..n]);
    }
  }

  lemma AbsorbAt(canon: seq<Bucket>, b: Bucket, i: nat)
    requires Distinct(canon) && i < |canon| && canon[i].upperBound == b.upperBound
    ensures Absorb(canon, b) == canon[i := Bucket(b.upperBound, canon[i].count + b.count)]
  {
    FindAt(canon, i);
  }

  /** Every later run is added bucket by bucket. */
  lemma {:induction false} AbsorbIsPlus(canon: seq<Bucket>, run: seq<Bucket>, k: nat)
    requires Distinct(canon) && SameBounds(canon, run) && k <= |run|
    ensures AbsorbRun(canon, run[..k]) == Plus(canon, run)[..k] + canon[k..]
  {
    if k == 0 {
      assert run[..0] == [];
    } else {
      AbsorbIsPlus(canon, run, k - 1);
      assert run[..k][..k - 1] == run[..k - 1];
      PlusStep(canon, run, k - 1, AbsorbRun(canon, run[..k - 1]));
    }
  }

  lemma PlusStep(canon: seq<Bucket>, run: seq<Bucket>, k: nat, before: seq<Bucket>)
    requires Distinct(canon) && SameBounds(canon, run) && k < |run|
    requires before == Plus(canon, run)[..k] + canon[k..]
    ensures Absorb(before, run[k]) == Plus(canon, run)[..k + 1] + canon[k + 1..]
  {
    assert forall i | 0 <= i < |canon| :: before[i].upperBound == canon[i].upperBound;
    AbsorbAt(before, run[k], k);
  }

  /** The runs that have metrics all have the bounds of `bounds`. */
  ghost predicate Shared(runs: seq<seq<Bucket>>, bounds: seq<Bucket>) {
    && bounds != []
    && forall r | 0 <= r < |runs| :: WellFormed(runs[r]) && (runs[r] != [] ==> SameBounds(runs[r], bounds))
  }

  lemma PlusWellFormed(a: seq<Bucket>, b: seq<Bucket>)
    requires WellFormed(a) && WellFormed(b) && SameBounds(a, b)
    ensures WellFormed(Plus(a, b)) && SameBounds(Plus(a, b), a)
  {
  }

  lemma {:induction false} MergedStep(canon: seq<Bucket>, run: seq<Bucket>, bounds: seq<Bucket>)
    requires WellFormed(canon) && WellFormed(run)
    requires canon != [] ==> SameBounds(canon, bounds)
    requires run != [] ==> SameBounds(run, bounds)
    ensures AbsorbRun(canon, run) == if run == [] then canon else if canon == [] then run else Plus(canon, run)
    ensures WellFormed(AbsorbRun(canon, run))
    ensures AbsorbRun(canon, run) != [] ==> SameBounds(AbsorbRun(canon, run), bounds)
  {
    if run != [] {
      if canon == [] {
        AbsorbIntoEmpty(run);
      } else {
        AbsorbIsPlus(canon, run, |run|);
        assert run[..|run|] == run;
        assert Plus(canon, run)[..|run|] + canon[|run|..] == Plus(canon, run);
        PlusWellFormed(canon, run);
      }
    }
  }

  /** The merge of runs with shared bounds is again a well-formed histogram with those bounds. */
  lemma {:induction false} MergedIsWellFormed(runs: seq<seq<Bucket>>, bounds: seq<Bucket>)
    requires Shared(runs, bounds)
    ensures WellFormed(Merged(runs)) && (Merged(runs) != [] ==> SameBounds(Merged(runs), bounds))
    ensures Merged(runs) == [] <==> forall r | 0 <= r < |runs| :: runs[r] == []
    decreases |runs|
  {
    if runs != [] {
      var n := |runs| - 1;
      assert forall r | 0 <= r < n :: runs[..n][r] == runs[r];
      MergedIsWellFormed(runs[..n], bounds);
      MergedStep(Merged(runs[..n]), runs[n], bounds);
      assert Merged(runs) == AbsorbRun(Merged(runs[..n]), runs[n]);
    }
  }

  // ---- Curves add up ----

  /** The curves of all runs at `x`, added up. */
  ghost function CurveTotal(runs: seq<seq<Bucket>>, x: real): real
    requires forall r | 0 <= r < |runs| :: WellFormed(runs[r])
    decreases |runs|
  {
    if runs == [] then 0.0 else CurveTotal(runs[..|runs| - 1], x) + Curve(runs[|runs| - 1], x)
  }

  lemma BetweenAdds(a: real, b: real, c: real, d: real, f: real)
    ensures Between(a + c, b + d, f) == Between(a, b, f) + Between(c, d, f)
  {
    assert (b + d - (a + c)) * f == (b - a) * f + (d - c) * f;
  }

  lemma InBucketPlus(a: seq<Bucket>, b: seq<Bucket>, n: nat, x: real)
    requires WellFormed(a) && WellFormed(b) && SameBounds(a, b) && n < |a|
    ensures WellFormed(Plus(a, b)) && LowerBound(Plus(a, b), n) == LowerBound(a, n) == LowerBound(b, n)
    ensures InBucket(Plus(a, b), n, x) == InBucket(a, n, x) + InBucket(b, n, x)
  {
    PlusWellFormed(a, b);
    BetweenAdds(LowerCount(a, n) as real, a[n].count as real, LowerCount(b, n) as real, b[n].count as real,
                Fraction(a, n, x));
  }

  lemma {:induction false} CurveToPlus(a: seq<Bucket>, b: seq<Bucket>, n: nat, x: real)
    requires WellFormed(a) && WellFormed(b) && SameBounds(a, b) && n <= |a|
    ensures WellFormed(Plus(a, b))
    ensures CurveTo(Plus(a, b), n, x) == CurveTo(a, n, x) + CurveTo(b, n, x)
  {
    PlusWellFormed(a, b);
    if n > 0 {
      CurveToPlus(a, b, n - 1, x);
      InBucketPlus(a, b, n - 1, x);
    }
  }

  lemma CurvePlus(a: seq<Bucket>, b: seq<Bucket>, x: real)
    requires WellFormed(a) && WellFormed(b) && SameBounds(a, b)
    ensures WellFormed(Plus(a, b))
    ensures Curve(Plus(a, b), x) == Curve(a, x) + Curve(b, x)
  {
    CurveToPlus(a, b, |a|, x);
  }

  lemma CurveStep(canon: seq<Bucket>, run: seq<Bucket>, bounds: seq<Bucket>, x: real)
    requires WellFormed(canon) && WellFormed(run)
    requires canon != [] ==> SameBounds(canon, bounds)
    requires run != [] ==> SameBounds(run, bounds)
    ensures WellFormed(AbsorbRun(canon, run))
    ensures Curve(AbsorbRun(canon, run), x) == Curve(canon, x) + Curve(run, x)
  {
    MergedStep(canon, run, bounds);
    if canon != [] && run != [] {
      CurvePlus(canon, run, x);
    }
  }

  /** The merged curve is the sum of the runs' curves. */
  lemma {:induction false} MergedCurve(runs: seq<seq<Bucket>>, bounds: seq<Bucket>, x: real)
    requires Shared(runs, bounds)
    ensures WellFormed(Merged(runs))
    ensures Curve(Merged(runs), x) == CurveTotal(runs, x)
    decreases |runs|
  {
    if runs != [] {
      var n := |runs| - 1;
      MergedCurve(runs[..n], bounds, x);
      MergedIsWellFormed(runs[..n], bounds);
      CurveStep(Merged(runs[..n]), runs[n], bounds, x);
    }
  }

  // ---- The merged quantile ----

  lemma CeilSubadditive(x: real, y: real)
    ensures Ceil(x + y) <= Ceil(x) + Ceil(y)
  {
  }

  function TargetOf(bs: seq<Bucket>, q: real): nat {
    if bs == [] then 0 else Target(bs, q)
  }

  /** Merging two histograms never asks for more than the two together. */
  lemma TargetPlus(a: seq<Bucket>, b: seq<Bucket>, q: real)
    requires a != [] && |a| == |b| && 0.0 <= q <= 1.0
    ensures Target(Plus(a, b), q) <= Target(a, q) + Target(b, q)
  {
    var n := |a| - 1;
    var x, y := q * a[n].count as real, q * b[n].count as real;
    assert q * Plus(a, b)[n].count as real == x + y;
    CeilSubadditive(x, y);
  }

  lemma {:induction false} ReachStep(canon: seq<Bucket>, run: seq<Bucket>, bounds: seq<Bucket>, q: real, x: real)
    requires WellFormed(canon) && WellFormed(run) && 0.0 <= q <= 1.0
    requires canon != [] ==> SameBounds(canon, bounds)
    requires run != [] ==> SameBounds(run, bounds)
    requires Curve(canon, x) >= TargetOf(canon, q) as real && Curve(run, x) >= TargetOf(run, q) as real
    ensures WellFormed(AbsorbRun(canon, run))
    ensures Curve(AbsorbRun(canon, run), x) >= TargetOf(AbsorbRun(canon, run), q) as real
  {
    MergedStep(canon, run, bounds);
    if canon != [] && run != [] {
      CurvePlus(canon, run, x);
      TargetPlus(canon, run, q);
    }
  }

  /** A latency at which every run has reached its own target is one at which the merge has. */
  lemma {:induction false} MergedReaches(runs: seq<seq<Bucket>>, bounds: seq<Bucket>, q: real, x: real)
    requires Shared(runs, bounds) && 0.0 <= q <= 1.0
    requires forall r | 0 <= r < |runs| :: Curve(runs[r], x) >= TargetOf(runs[r], q) as real
    ensures WellFormed(Merged(runs)) && Curve(Merged(runs), x) >= TargetOf(Merged(runs), q) as real
    decreases |runs|
  {
    if runs != [] {
      var n := |runs| - 1;
      assert forall r | 0 <= r < n :: runs[..n][r] == runs[r];
      MergedReaches(runs[..n], bounds, q, x);
      MergedIsWellFormed(runs[..n], bounds);
      ReachStep(Merged(runs[..n]), runs[n], bounds, q, x);
    }
  }

  /** The run with the largest estimate. */
  lemma {:induction false} LargestEstimate(runs: seq<seq<Bucket>>, estimates: seq<real>) returns (k: nat)
    requires |estimates| == |runs| && exists r | 0 <= r < |runs| :: runs[r] != []
    ensures k < |runs| && runs[k] != []
    ensures forall r | 0 <= r < |runs| && runs[r] != [] :: estimates[r] <= estimates[k]
    decreases |runs|
  {
    var n := |runs| - 1;
    if r :| 0 <= r < n && runs[r] != [] {
      assert runs[..n][r] != [];
      k := LargestEstimate(runs[..n], estimates[..n]);
      assert forall r | 0 <= r < n && runs[r] != [] :: runs[..n][r] != [] && estimates[..n][r] <= estimates[k];
      if runs[n] != [] && estimates[n] > estimates[k] {
        k := n;
      }
    } else {
      k := n;
    }
  }

  /** For every q in [0, 1] the merged estimate is at most the largest estimate of a run with metrics. */
  lemma MergedQuantileBound(runs: seq<seq<Bucket>>, bounds: seq<Bucket>, q: real, estimates: seq<real>, merged: real)
    requires Shared(runs, bounds) && 0.0 <= q <= 1.0
    requires |estimates| == |runs| && exists r | 0 <= r < |runs| :: runs[r] != []
    requires forall r | 0 <= r < |runs| && runs[r] != [] :: QuantileAt(runs[r], q, estimates[r])
    requires Merged(runs) != [] ==> QuantileAt(Merged(runs), q, merged)
    ensures Merged(runs) != []
    ensures exists k | 0 <= k < |runs| && runs[k] != [] :: merged <= estimates[k]
  {
    MergedIsWellFormed(runs, bounds);
    var k := LargestEstimate(runs, estimates);
    var x := estimates[k];
    forall r | 0 <= r < |runs|
      ensures Curve(runs[r], x) >= TargetOf(runs[r], q) as real
    {
      if runs[r] != [] {
        QuantileAtTarget(runs[r], q, estimates[r]);
        CurveMonotone(runs[r], estimates[r], x);
      }
    }
    MergedReaches(runs, bounds, q, x);
    QuantileAtTarget(Merged(runs), q, merged);
    assert merged <= x;
  }
}
