/**
 How a campaign stage splits its rate over a mix of scenarios: every share is rounded on its own, a
 second pass gives rate 1 to scenarios that were rounded to zero, taking from the largest entries,
 and the last entry absorbs what is left.  Shares are exact reals and rates are unbounded.
 */
module Apportionment {
  import opened Options
  import opened Naturals

  // ---- Sums ----

  function Total(s: seq<nat>): nat
    decreases |s|
  {
    if s == [] then 0 else Total(s[..|s| - 1]) + s[|s| - 1]
  }

  lemma {:induction false} TotalUpdate(s: seq<nat>, i: nat, v: nat)
    requires i < |s|
    ensures Total(s[i := v]) == Total(s) - s[i] + v
    decreases |s|
  {
    var n := |s| - 1;
    if i == n {
      assert s[i := v][..n] == s[..n];
    } else {
      assert s[i := v][..n] == s[..n][i := v];
      TotalUpdate(s[..n], i, v);
    }
  }

  lemma {:induction false} TotalAtLeast(s: seq<nat>, i: nat)
    requires i < |s|
    ensures s[i] <= Total(s)
    decreases |s|
  {
    if i < |s| - 1 {
      TotalAtLeast(s[..|s| - 1], i);
    }
  }

  function ShareTotal(shares: seq<real>): real
    decreases |shares|
  {
    if shares == [] then 0.0 else ShareTotal(shares[..|shares| - 1]) + shares[|shares| - 1]
  }

  /** What the entries could give away and still keep 1 each. */
  function Spare(s: seq<nat>): seq<nat> {
    seq(|s|, i requires 0 <= i < |s| => if s[i] > 1 then s[i] - 1 else 0)
  }

  function Excess(s: seq<nat>): nat {
    Total(Spare(s))
  }

  lemma ExcessUpdate(s: seq<nat>, i: nat, v: nat)
    requires i < |s|
    ensures Excess(s[i := v]) == Excess(s) - Spare(s)[i] + if v > 1 then v - 1 else 0
  {
    assert Spare(s[i := v]) == Spare(s)[i := if v > 1 then v - 1 else 0];
    TotalUpdate(Spare(s), i, if v > 1 then v - 1 else 0);
  }

  lemma {:induction false} NoExcess(s: seq<nat>)
    requires forall i | 0 <= i < |s| :: s[i] <= 1
    ensures Excess(s) == 0
    decreases |s|
  {
    if s != [] {
      var n := |s| - 1;
      assert Spare(s)[..n] == Spare(s[..n]);
      NoExcess(s[..n]);
    }
  }

  // ---- The first pass ----

  /** Rounding to the nearest integer, halves up, as an unsigned number. */
  function RoundU64(x: real): nat {
    if x < 0.0 then 0 else (x + 0.5).Floor
  }

  function Ideal(shares: seq<real>, rate: nat, i: nat): real
    requires i < |shares| && ShareTotal(shares) != 0.0
  {
    rate as real * (shares[i] / ShareTotal(shares))
  }

  /** The first `k` entries, each rounded on its own. */
  function RoundedTo(shares: seq<real>, rate: nat, k: nat): (rates: seq<nat>)
    requires ShareTotal(shares) != 0.0 && k <= |shares|
    ensures |rates| == k
  {
    if k == 0 then [] else RoundedTo(shares, rate, k - 1) + [RoundU64(Ideal(shares, rate, k - 1))]
  }

  function FirstPass(shares: seq<real>, rate: nat): (rates: seq<nat>)
    requires ShareTotal(shares) != 0.0
    ensures |rates| == |shares|
  {
    RoundedTo(shares, rate, |shares|)
  }

  lemma {:induction false} RoundedAt(shares: seq<real>, rate: nat, k: nat, i: nat)
    requires ShareTotal(shares) != 0.0 && i < k <= |shares|
    ensures RoundedTo(shares, rate, k)[i] == RoundU64(Ideal(shares, rate, i))
    decreases k
  {
    if i < k - 1 {
      RoundedAt(shares, rate, k - 1, i);
    }
  }

  lemma FirstPassAt(shares: seq<real>, rate: nat, i: nat)
    requires ShareTotal(shares) != 0.0 && i < |shares|
    ensures FirstPass(shares, rate)[i] == RoundU64(Ideal(shares, rate, i))
  {
    RoundedAt(shares, rate, |shares|, i);
  }

  function NonLast<T>(s: seq<T>): seq<T>
    requires s != []
  {
    s[..|s| - 1]
  }

  /** How many entries have a positive share. */
  function Positives(shares: seq<real>): nat
    decreases |shares|
  {
    if shares == [] then 0
    else Positives(shares[..|shares| - 1]) + if shares[|shares| - 1] > 0.0 then 1 else 0
  }

  /** The entries with a positive share that the first pass rounded to zero, in order. */
  function ZeroIndices(shares: seq<real>, rates: seq<nat>, k: nat): (zs: seq<nat>)
    requires |rates| == |shares| && k <= |rates|
    ensures forall t | 0 <= t < |zs| :: zs[t] < k && shares[zs[t]] > 0.0 && rates[zs[t]] == 0
    ensures forall t, u | 0 <= t < u < |zs| :: zs[t] < zs[u]
  {
    if k == 0 then []
    else ZeroIndices(shares, rates, k - 1) +
         if shares[k - 1] > 0.0 && rates[k - 1] == 0 then [k - 1] else []
  }

  /** Every such entry is listed. */
  lemma {:induction false} ZeroIndexOf(shares: seq<real>, rates: seq<nat>, k: nat, i: nat) returns (t: nat)
    requires |rates| == |shares| && i < k <= |rates| && shares[i] > 0.0 && rates[i] == 0
    ensures t < |ZeroIndices(shares, rates, k)| && ZeroIndices(shares, rates, k)[t] == i
  {
    if i == k - 1 {
      t := |ZeroIndices(shares, rates, k - 1)|;
    } else {
      t := ZeroIndexOf(shares, rates, k - 1, i);
    }
  }

  // ---- The second pass ----

  ghost predicate IsLastMax(s: seq<nat>, m: nat) {
    && m < |s| && (forall i | 0 <= i < |s| :: s[i] <= s[m])
    && (forall i | m < i < |s| :: s[i] < s[m])
  }

  /** The last index of the largest element. */
  method MaxIndex(s: seq<nat>) returns (r: Option<nat>)
    ensures r.None? <==> s == []
    ensures r.Some? ==> IsLastMax(s, r.value)
  {
    r := None;
    for i := 0 to |s|
      invariant r.None? <==> i == 0
      invariant r.Some? ==> r.value < i && (forall k | 0 <= k < i :: s[k] <= s[r.value])
                            && (forall k | r.value < k < i :: s[k] < s[r.value])
    {
      if r.None? || s[i] >= s[r.value] {
        r := Some(i);
      }
    }
  }

  /** The first `served` zero entries got a 1; the entries that had something have something. */
  ghost predicate Entries(before: seq<nat>, zeros: seq<nat>, served: nat, now: seq<nat>) {
    && |now| == |before|
    && (forall t | 0 <= t < |zeros| :: zeros[t] < |before| && before[zeros[t]] == 0)
    && (forall t | 0 <= t < |zeros| :: now[zeros[t]] == if t < served then 1 else 0)
    && (forall i | 0 <= i < |now| && before[i] > 0 :: 1 <= now[i] <= before[i])
    && (forall i {:trigger i in zeros} | 0 <= i < |now| && before[i] == 0 :: i in zeros || now[i] == 0)
  }

  /** Where the second pass has got to after `k` of the zero entries, `served` of which got a 1. */
  ghost predicate Repaired(before: seq<nat>, zeros: seq<nat>, k: nat, now: seq<nat>) {
    && |now| == |before| && before != [] && k <= |zeros|
    && var served := Min(k, Excess(NonLast(before)));
    && Entries(before, zeros, served, now)
    && Total(now) == Total(before)
    && Excess(NonLast(now)) == Excess(NonLast(before)) - served
    && Total(NonLast(now)) + (if 0 < served && zeros[served - 1] == |before| - 1 then 1 else 0)
       == Total(NonLast(before))
  }

  lemma EntriesMove(before: seq<nat>, zeros: seq<nat>, k: nat, now: seq<nat>, donor: nat)
    requires Entries(before, zeros, k, now) && k < |zeros|
    requires forall t, u | 0 <= t < u < |zeros| :: zeros[t] < zeros[u]
    requires donor < |now| && now[donor] > 1
    ensures Entries(before, zeros, k + 1, now[donor := now[donor] - 1][zeros[k] := 1])
  {
    assert donor in zeros || now[donor] == 0 || before[donor] > 0;
  }

  /** One unit moves from entry `donor`, not the last, to the zero entry `to`. */
  lemma {:induction false} MoveOne(s: seq<nat>, donor: nat, to: nat)
    requires donor < |s| - 1 && to < |s| && s[donor] > 1 && s[to] == 0
    ensures var s' := s[donor := s[donor] - 1][to := 1];
            && Total(s') == Total(s) && Excess(NonLast(s')) == Excess(NonLast(s)) - 1
            && Total(NonLast(s')) == Total(NonLast(s)) - if to == |s| - 1 then 1 else 0
  {
    var s1 := s[donor := s[donor] - 1];
    TotalUpdate(s, donor, s[donor] - 1);
    TotalUpdate(s1, to, 1);
    assert NonLast(s1) == NonLast(s)[donor := s[donor] - 1];
    TotalUpdate(NonLast(s), donor, s[donor] - 1);
    ExcessUpdate(NonLast(s), donor, s[donor] - 1);
    TotalAtLeast(Spare(NonLast(s)), donor);
    if to < |s| - 1 {
      assert NonLast(s1[to := 1]) == NonLast(s1)[to := 1];
      TotalUpdate(NonLast(s1), to, 1);
      ExcessUpdate(NonLast(s1), to, 1);
    } else {
      assert NonLast(s1[to := 1]) == NonLast(s1);
    }
  }

  /** A move reaches the next zero entry. */
  lemma RepairMove(before: seq<nat>, zeros: seq<nat>, k: nat, now: seq<nat>, donor: nat)
    requires Repaired(before, zeros, k, now) && k < |zeros|
    requires forall t, u | 0 <= t < u < |zeros| :: zeros[t] < zeros[u]
    requires donor < |now| - 1 && now[donor] > 1
    ensures Repaired(before, zeros, k + 1, now[donor := now[donor] - 1][zeros[k] := 1])
  {
    TotalAtLeast(Spare(NonLast(now)), donor);
    assert Spare(NonLast(now))[donor] >= 1;
    assert Min(k, Excess(NonLast(before))) == k && Min(k + 1, Excess(NonLast(before))) == k + 1;
    assert 0 < k ==> zeros[k - 1] < zeros[k];
    EntriesMove(before, zeros, k, now, donor);
    MoveOne(now, donor, zeros[k]);
  }

  /** Without a donor nothing moves any more. */
  lemma RepairStuck(before: seq<nat>, zeros: seq<nat>, k: nat, now: seq<nat>)
    requires Repaired(before, zeros, k, now) && k < |zeros|
    requires forall i | 0 <= i < |now| - 1 :: now[i] <= 1
    ensures Repaired(before, zeros, k + 1, now)
  {
    NoExcess(NonLast(now));
    assert Min(k, Excess(NonLast(before))) == Min(k + 1, Excess(NonLast(before)));
  }

  lemma RepairBase(before: seq<nat>, zeros: seq<nat>)
    requires before != []
    requires forall t | 0 <= t < |zeros| :: zeros[t] < |before| && before[zeros[t]] == 0
    ensures Repaired(before, zeros, 0, before)
  {
  }

  lemma RepairAlone(before: seq<nat>, zeros: seq<nat>, k: nat, now: seq<nat>)
    requires Repaired(before, zeros, k, now) && k < |zeros| && |now| == 1
    ensures Repaired(before, zeros, k + 1, now)
  {
    assert NonLast(before) == [];
  }

  lemma RepairedAt(before: seq<nat>, zeros: seq<nat>, now: seq<nat>, t: nat)
    requires Repaired(before, zeros, |zeros|, now) && t < |zeros|
    ensures now[zeros[t]] == if t < Excess(NonLast(before)) then 1 else 0
  {
  }

  /** Whoever gave is no lower than the entries behind it, and at most 1 lower than those before it. */
  ghost predicate Level(before: seq<nat>, now: seq<nat>) {
    && |now| == |before|
    && forall i, j | 0 <= i < |now| - 1 && 0 <= j < |now| - 1 && now[i] < before[i] ::
         now[j] <= now[i] + if j < i then 1 else 0
  }

  /** Taking from the last of the largest entries keeps the level. */
  lemma LevelMove(before: seq<nat>, now: seq<nat>, donor: nat, to: nat)
    requires Level(before, now) && donor < |now| - 1 && to < |now| && now[donor] > 1 && now[to] == 0
    requires forall i | 0 <= i < |now| && before[i] > 0 :: 1 <= now[i]
    requires IsLastMax(NonLast(now), donor)
    ensures Level(before, now[donor := now[donor] - 1][to := 1])
  {
    forall i | 0 <= i < |now| - 1
      ensures now[i] <= now[donor] && (donor < i ==> now[i] < now[donor])
    {
      assert NonLast(now)[i] == now[i];
    }
  }

  /** One turn of the second pass. */
  function Turn(now: seq<nat>, donor: nat, to: nat): seq<nat>
    requires donor < |now| && to < |now|
  {
    if now[donor] > 1 then now[donor := now[donor] - 1][to := 1] else now
  }

  lemma RepairTurn(before: seq<nat>, zeros: seq<nat>, k: nat, now: seq<nat>, donor: nat)
    requires Repaired(before, zeros, k, now) && Level(before, now) && k < |zeros|
    requires forall t, u | 0 <= t < u < |zeros| :: zeros[t] < zeros[u]
    requires IsLastMax(NonLast(now), donor)
    ensures Repaired(before, zeros, k + 1, Turn(now, donor, zeros[k]))
    ensures Level(before, Turn(now, donor, zeros[k]))
  {
    if now[donor] > 1 {
      RepairMove(before, zeros, k, now, donor);
      LevelMove(before, now, donor, zeros[k]);
    } else {
      forall i | 0 <= i < |now| - 1 ensures now[i] <= 1 {
        assert NonLast(now)[i] == now[i];
      }
      RepairStuck(before, zeros, k, now);
    }
  }

  /** The second pass over the zero entries. */
  method Repair(rates: seq<nat>, zeros: seq<nat>) returns (now: seq<nat>)
    requires rates != []
    requires forall t | 0 <= t < |zeros| :: zeros[t] < |rates| && rates[zeros[t]] == 0
    requires forall t, u | 0 <= t < u < |zeros| :: zeros[t] < zeros[u]
    ensures Repaired(rates, zeros, |zeros|, now) && Level(rates, now)
  {
    now := rates;
    RepairBase(rates, zeros);
    for k := 0 to |zeros|
      invariant Repaired(rates, zeros, k, now) && Level(rates, now)
    {
      var donor := MaxIndex(now[..|now| - 1]);
      if donor.Some? {
        RepairTurn(rates, zeros, k, now, donor.value);
        now := Turn(now, donor.value, zeros[k]);
      } else {
        RepairAlone(rates, zeros, k, now);
      }
    }
  }

  /** The outcome of the repair is determined: the level leaves no choice of donors. */
  lemma {:induction false} RepairIsDetermined(before: seq<nat>, zeros: seq<nat>, a: seq<nat>, b: seq<nat>)
    requires Repaired(before, zeros, |zeros|, a) && Level(before, a)
    requires Repaired(before, zeros, |zeros|, b) && Level(before, b)
    ensures a == b
  {
    var x, y := NonLast(a), NonLast(b);
    if i :| 0 <= i < |x| && x[i] < y[i] {
      forall j | 0 <= j < |x| ensures x[j] <= y[j] {
        NoCrossing(before, zeros, a, b, i, j);
      }
      LargerTotal(x, y);
    } else {
      LargerTotal(y, x);
    }
    SameLast(a, b);
  }

  lemma SameLast(a: seq<nat>, b: seq<nat>)
    requires |a| == |b| > 0 && NonLast(a) == NonLast(b) && Total(a) == Total(b)
    ensures a == b
  {
    assert a == NonLast(a) + [a[|a| - 1]] && b == NonLast(b) + [b[|b| - 1]];
  }

  lemma NoCrossing(before: seq<nat>, zeros: seq<nat>, a: seq<nat>, b: seq<nat>, i: nat, j: nat)
    requires Repaired(before, zeros, |zeros|, a) && Level(before, a)
    requires Repaired(before, zeros, |zeros|, b) && Level(before, b)
    requires i < |a| - 1 && j < |a| - 1 && a[i] < b[i]
    ensures a[j] <= b[j]
  {
    ZerosEndAlike(before, zeros, a, b, i);
    ZerosEndAlike(before, zeros, a, b, j);
  }

  lemma ZerosEndAlike(before: seq<nat>, zeros: seq<nat>, a: seq<nat>, b: seq<nat>, i: nat)
    requires Repaired(before, zeros, |zeros|, a) && Repaired(before, zeros, |zeros|, b)
    requires i < |before|
    ensures before[i] == 0 ==> a[i] == b[i]
  {
    if before[i] == 0 && i in zeros {
      var t :| 0 <= t < |zeros| && zeros[t] == i;
      assert a[zeros[t]] == b[zeros[t]];
    }
  }

  /**
   The repair conserves the total, never raises what the entries before the last one add up to, and
   creates no zero; a zero survives only if no entry before the last could spare anything.
   */
  lemma RepairGuarantees(rates: seq<nat>, zeros: seq<nat>, now: seq<nat>)
    requires Repaired(rates, zeros, |zeros|, now)
    ensures Total(now) == Total(rates)
    ensures Total(NonLast(now)) <= Total(NonLast(rates))
    ensures forall i | 0 <= i < |now| && now[i] == 0 :: rates[i] == 0
    ensures forall t | 0 <= t < |zeros| && now[zeros[t]] == 0 ::
              forall i | 0 <= i < |now| - 1 :: now[i] <= 1
  {
    forall t, i | 0 <= t < |zeros| && now[zeros[t]] == 0 && 0 <= i < |now| - 1
      ensures now[i] <= 1
    {
      TotalAtLeast(Spare(NonLast(now)), i);
      assert Spare(NonLast(now))[i] == 0;
    }
  }

  // ---- The whole split ----

  /** The second pass runs only when there is at least 1 for every positive share. */
  predicate Repairs(shares: seq<real>, rate: nat) {
    0 < Positives(shares) <= rate
  }

  function Zeros(shares: seq<real>, rate: nat): seq<nat>
    requires ShareTotal(shares) != 0.0
  {
    if Repairs(shares, rate) then ZeroIndices(shares, FirstPass(shares, rate), |shares|) else []
  }

  /** The zero entries before the last one. */
  function EarlyZeros(shares: seq<real>, rate: nat): nat
    requires shares != [] && ShareTotal(shares) != 0.0
  {
    |ZeroIndices(shares, FirstPass(shares, rate), |shares| - 1)|
  }

  /** Whether the second pass takes a unit for the last entry. */
  predicate TakesForLast(shares: seq<real>, rate: nat)
    requires shares != [] && ShareTotal(shares) != 0.0
  {
    var zeros := Zeros(shares, rate);
    && zeros != [] && zeros[|zeros| - 1] == |shares| - 1
    && |zeros| <= Excess(NonLast(FirstPass(shares, rate)))
  }

  /** What the entries before the last one are assigned in the end, from the first pass alone. */
  function Assigned(shares: seq<real>, rate: nat): int
    requires shares != [] && ShareTotal(shares) != 0.0
  {
    Total(NonLast(FirstPass(shares, rate))) - if TakesForLast(shares, rate) then 1 else 0
  }

  /** Every scenario with a positive share gets a positive rate. */
  predicate AllServed(shares: seq<real>, rates: seq<nat>)
    requires |rates| == |shares|
  {
    forall i | 0 <= i < |shares| && shares[i] > 0.0 :: rates[i] > 0
  }

  /** Exactly when that happens: enough rate, enough to spare before the last entry, something left for it. */
  predicate CanServe(shares: seq<real>, rate: nat)
    requires shares != [] && ShareTotal(shares) != 0.0
  {
    && Positives(shares) <= rate
    && EarlyZeros(shares, rate) <= Excess(NonLast(FirstPass(shares, rate)))
    && (shares[|shares| - 1] > 0.0 ==> Assigned(shares, rate) < rate)
  }

  lemma {:induction false} ServedNeedRate(shares: seq<real>, rates: seq<nat>)
    requires |rates| == |shares| && AllServed(shares, rates)
    ensures Positives(shares) <= Total(rates)
    decreases |shares|
  {
    if shares != [] {
      ServedNeedRate(NonLast(shares), NonLast(rates));
    }
  }

  lemma {:induction false} SomePositive(shares: seq<real>)
    requires ShareTotal(shares) > 0.0
    ensures Positives(shares) > 0
    decreases |shares|
  {
    if shares[|shares| - 1] <= 0.0 {
      SomePositive(NonLast(shares));
    }
  }

  /** Rounding, and the repair when there is enough rate for it. */
  method RoundAndRepair(shares: seq<real>, rate: nat) returns (rates: seq<nat>)
    requires shares != [] && ShareTotal(shares) > 0.0
    ensures Repaired(FirstPass(shares, rate), Zeros(shares, rate), |Zeros(shares, rate)|, rates)
    ensures Level(FirstPass(shares, rate), rates)
  {
    rates := FirstPass(shares, rate);
    var positives := Positives(shares);
    if positives > 0 && rate >= positives {
      var zeros := ZeroIndices(shares, rates, |shares|);
      rates := Repair(rates, zeros);
    } else {
      RepairBase(rates, []);
    }
  }

  /** The first two passes led to `split`, up to its last entry. */
  ghost predicate SplitOf(shares: seq<real>, rate: nat, split: seq<nat>)
    requires shares != [] && ShareTotal(shares) != 0.0
  {
    && |split| == |shares| && Total(split) == rate
    && exists rates :: SplitFrom(shares, rate, rates, split)
  }

  ghost predicate SplitFrom(shares: seq<real>, rate: nat, rates: seq<nat>, split: seq<nat>)
    requires shares != [] && ShareTotal(shares) != 0.0 && |split| == |shares|
  {
    && Repaired(FirstPass(shares, rate), Zeros(shares, rate), |Zeros(shares, rate)|, rates)
    && Level(FirstPass(shares, rate), rates) && NonLast(split) == NonLast(rates)
  }

  /** The split is determined by the shares and the rate. */
  lemma SplitIsDetermined(shares: seq<real>, rate: nat, a: seq<nat>, b: seq<nat>)
    requires shares != [] && ShareTotal(shares) != 0.0
    requires SplitOf(shares, rate, a) && SplitOf(shares, rate, b)
    ensures a == b
  {
    var x :| SplitFrom(shares, rate, x, a);
    var y :| SplitFrom(shares, rate, y, b);
    RepairIsDetermined(FirstPass(shares, rate), Zeros(shares, rate), x, y);
    SameLast(a, b);
  }

  /** The third pass: the last entry gets what is left. */
  method Place(rates: seq<nat>, rate: nat) returns (r: Result<seq<nat>, nat>)
    requires rates != []
    ensures r.Err? <==> Total(NonLast(rates)) > rate
    ensures r.Err? ==> r.error == Total(NonLast(rates))
    ensures r.Ok? ==> r.value == NonLast(rates) + [rate - Total(NonLast(rates))]
  {
    var split: seq<nat>, placed := [], 0;
    for idx := 0 to |rates| - 1
      invariant split == rates[..idx] && placed == Total(rates[..idx])
    {
      assert rates[..idx + 1][..idx] == rates[..idx];
      split, placed := split + [rates[idx]], placed + rates[idx];
    }
    if placed > rate {
      return Err(placed);
    }
    return Ok(split + [rate - placed]);
  }

  /** The three passes.  The error carries what was assigned before the last entry. */
  method Apportion(shares: seq<real>, rate: nat) returns (r: Result<seq<nat>, nat>)
    requires shares != [] && ShareTotal(shares) > 0.0
    ensures r.Err? <==> Assigned(shares, rate) > rate
    ensures r.Err? ==> r.error == Assigned(shares, rate)
    ensures r.Ok? ==> SplitOf(shares, rate, r.value)
    ensures r.Ok? ==> Total(NonLast(r.value)) == Assigned(shares, rate)
    ensures r.Ok? ==> (AllServed(shares, r.value) <==> CanServe(shares, rate))
    ensures r.Ok? && rate < |set i | 0 <= i < |shares| && shares[i] > 0.0| ==> RoundedOnly(shares, rate, r.value)
    ensures r.Ok? && rate >= |set i | 0 <= i < |shares| && shares[i] > 0.0| ==> UnservedOnlyIfLow(shares, r.value)
  {
    var rates := RoundAndRepair(shares, rate);
    AssignedAfterRepair(shares, rate, rates);
    r := Place(rates, rate);
    if r.Ok? {
      SplitIsRight(shares, rate, rates, r.value);
      if rate < |set i | 0 <= i < |shares| && shares[i] > 0.0| {
        TooLittleIsRounded(shares, rate, r.value);
      } else {
        EnoughIsRepaired(shares, rate, r.value);
      }
    }
  }

  // ---- When the second pass runs ----

  /** `k` is the natural number nearest to `x`, the larger one if there are two. */
  predicate Nearest(k: nat, x: real) {
    if x < 0.0 then k == 0 else k as real - 0.5 <= x < k as real + 0.5
  }

  /** Every entry before the last one is its share of the rate, rounded. */
  predicate RoundedOnly(shares: seq<real>, rate: nat, split: seq<nat>)
    requires ShareTotal(shares) != 0.0 && |split| == |shares|
  {
    forall i | 0 <= i < |shares| - 1 :: Nearest(split[i], rate as real * shares[i] / ShareTotal(shares))
  }

  /** A positive share before the last one gets nothing only if no entry there could spare a unit. */
  predicate UnservedOnlyIfLow(shares: seq<real>, split: seq<nat>)
    requires |split| == |shares|
  {
    forall i, j | 0 <= i < |shares| - 1 && 0 <= j < |shares| - 1 && shares[i] > 0.0 && split[i] == 0 :: split[j] <= 1
  }

  lemma {:induction false} PositivesAreCounted(shares: seq<real>)
    ensures Positives(shares) == |set i | 0 <= i < |shares| && shares[i] > 0.0|
    decreases |shares|
  {
    if shares != [] {
      var n := |shares| - 1;
      PositivesAreCounted(shares[..n]);
      var before := set i | 0 <= i < n && shares[..n][i] > 0.0;
      assert (set i | 0 <= i < |shares| && shares[i] > 0.0) == before + if shares[n] > 0.0 then {n} else {};
    }
  }

  lemma {:induction false} IdealIsShare(shares: seq<real>, rate: nat, i: nat)
    requires i < |shares| && ShareTotal(shares) > 0.0
    ensures Ideal(shares, rate, i) == rate as real * shares[i] / ShareTotal(shares)
  {
    ProductOverTotal(rate as real, shares[i], ShareTotal(shares));
  }

  lemma {:induction false} ProductOverTotal(rate: real, share: real, total: real)
    requires total > 0.0
    ensures rate * (share / total) == rate * share / total
  {
    var x := share / total;
    assert x * total == share;
    assert rate * share == rate * x * total;
    assert rate * x * total / total == rate * x;
  }

  lemma {:induction false} RoundIsNearest(x: real)
    ensures Nearest(RoundU64(x), x)
  {
  }

  /** With less than 1 for every positive share the split is the rounding. */
  lemma {:induction false} TooLittleIsRounded(shares: seq<real>, rate: nat, split: seq<nat>)
    requires shares != [] && ShareTotal(shares) > 0.0 && SplitOf(shares, rate, split)
    requires rate < |set i | 0 <= i < |shares| && shares[i] > 0.0|
    ensures RoundedOnly(shares, rate, split)
  {
    var first := FirstPass(shares, rate);
    var rates :| SplitFrom(shares, rate, rates, split);
    PositivesAreCounted(shares);
    UnrepairedIsRounded(first, Zeros(shares, rate), rates);
    forall i | 0 <= i < |shares| - 1
      ensures Nearest(split[i], rate as real * shares[i] / ShareTotal(shares))
    {
      FirstPassAt(shares, rate, i);
      assert split[i] == NonLast(split)[i] == NonLast(first)[i] == RoundU64(Ideal(shares, rate, i));
      RoundIsNearest(Ideal(shares, rate, i));
      IdealIsShare(shares, rate, i);
    }
  }

  lemma {:induction false} EnoughRepairs(shares: seq<real>, rate: nat)
    requires ShareTotal(shares) > 0.0 && rate >= |set i | 0 <= i < |shares| && shares[i] > 0.0|
    ensures Repairs(shares, rate)
  {
    PositivesAreCounted(shares);
    SomePositive(shares);
  }

  lemma {:induction false} EnoughIsRepaired(shares: seq<real>, rate: nat, split: seq<nat>)
    requires shares != [] && ShareTotal(shares) > 0.0 && SplitOf(shares, rate, split)
    requires rate >= |set i | 0 <= i < |shares| && shares[i] > 0.0|
    ensures UnservedOnlyIfLow(shares, split)
  {
    EnoughRepairs(shares, rate);
    RepairedSplit(shares, rate, split);
  }

  lemma {:induction false} RepairedSplit(shares: seq<real>, rate: nat, split: seq<nat>)
    requires shares != [] && ShareTotal(shares) > 0.0 && SplitOf(shares, rate, split) && Repairs(shares, rate)
    ensures UnservedOnlyIfLow(shares, split)
  {
    var first, zeros := FirstPass(shares, rate), Zeros(shares, rate);
    var rates :| SplitFrom(shares, rate, rates, split);
    LowAfterRepair(shares, first, zeros, rates, split);
  }

  /** In a list that holds every positive share rounded to zero, whoever is not served found no donor. */
  lemma {:induction false} LowAfterRepair(shares: seq<real>, first: seq<nat>, zeros: seq<nat>, rates: seq<nat>,
                                          split: seq<nat>)
    requires shares != [] && |first| == |shares| == |split|
    requires zeros == ZeroIndices(shares, first, |shares|)
    requires Repaired(first, zeros, |zeros|, rates) && Level(first, rates) && NonLast(split) == NonLast(rates)
    ensures UnservedOnlyIfLow(shares, split)
  {
    RepairGuarantees(first, zeros, rates);
    forall i, j | 0 <= i < |shares| - 1 && 0 <= j < |shares| - 1 && shares[i] > 0.0 && split[i] == 0
      ensures split[j] <= 1
    {
      assert split[i] == NonLast(split)[i] == rates[i] && split[j] == NonLast(split)[j] == rates[j];
      var t := ZeroIndexOf(shares, first, |shares|, i);
      assert rates[zeros[t]] == 0;
    }
  }

  lemma {:induction false} SplitIsRight(shares: seq<real>, rate: nat, rates: seq<nat>, split: seq<nat>)
    requires shares != [] && ShareTotal(shares) > 0.0
    requires Repaired(FirstPass(shares, rate), Zeros(shares, rate), |Zeros(shares, rate)|, rates)
    requires Level(FirstPass(shares, rate), rates)
    requires Total(NonLast(rates)) == Assigned(shares, rate) <= rate
    requires split == NonLast(rates) + [rate - Total(NonLast(rates))]
    ensures Total(NonLast(split)) == Assigned(shares, rate)
    ensures SplitOf(shares, rate, split)
    ensures AllServed(shares, split) <==> CanServe(shares, rate)
    ensures Zeros(shares, rate) == [] ==> NonLast(split) == NonLast(FirstPass(shares, rate))
  {
    assert NonLast(split) == NonLast(rates);
    ServedExactly(shares, rate, rates, split);
    assert SplitFrom(shares, rate, rates, split);
    if Zeros(shares, rate) == [] {
      UnrepairedIsRounded(FirstPass(shares, rate), Zeros(shares, rate), rates);
    }
  }

  /** With nothing to repair the second pass changes nothing. */
  lemma UnrepairedIsRounded(before: seq<nat>, zeros: seq<nat>, now: seq<nat>)
    requires zeros == [] && Repaired(before, zeros, 0, now)
    ensures now == before
  {
    forall i | 0 <= i < |now| ensures now[i] <= before[i] {
      assert i !in zeros;
    }
    LargerTotal(now, before);
  }

  lemma {:induction false} LargerTotal(s: seq<nat>, t: seq<nat>)
    requires |s| == |t| && (forall i | 0 <= i < |s| :: s[i] <= t[i])
    ensures Total(s) <= Total(t)
    ensures Total(s) == Total(t) ==> s == t
    decreases |s|
  {
    if s != [] {
      LargerTotal(NonLast(s), NonLast(t));
      assert s == NonLast(s) + [s[|s| - 1]] && t == NonLast(t) + [t[|t| - 1]];
    }
  }

  lemma {:induction false} AssignedAfterRepair(shares: seq<real>, rate: nat, rates: seq<nat>)
    requires shares != [] && ShareTotal(shares) > 0.0
    requires Repaired(FirstPass(shares, rate), Zeros(shares, rate), |Zeros(shares, rate)|, rates)
    ensures Total(NonLast(rates)) == Assigned(shares, rate)
  {
    var zeros := Zeros(shares, rate);
    var served := Min(|zeros|, Excess(NonLast(FirstPass(shares, rate))));
    if 0 < served && served < |zeros| {
      assert zeros[served - 1] < zeros[|zeros| - 1] < |shares|;
    }
  }

  /** After the split, everyone with a positive share is served exactly under `CanServe`. */
  lemma {:induction false} ServedExactly(shares: seq<real>, rate: nat, rates: seq<nat>, split: seq<nat>)
    requires shares != [] && ShareTotal(shares) > 0.0
    requires Repaired(FirstPass(shares, rate), Zeros(shares, rate), |Zeros(shares, rate)|, rates)
    requires |split| == |shares| && NonLast(split) == NonLast(rates)
    requires Total(NonLast(rates)) == Assigned(shares, rate) <= rate
    requires split[|split| - 1] == rate - Assigned(shares, rate)
    ensures Total(split) == rate
    ensures AllServed(shares, split) <==> CanServe(shares, rate)
  {
    assert Total(split) == rate;
    SomePositive(shares);
    if Positives(shares) <= rate {
      assert EarlyOnes(shares, split) <==> EarlyZeros(shares, rate) <= Excess(NonLast(FirstPass(shares, rate))) by {
        EarlyServedExactly(shares, FirstPass(shares, rate), Zeros(shares, rate), rates, split);
      }
      AllServedSplit(shares, split);
    } else {
      NotAllServed(shares, split);
    }
  }

  lemma NotAllServed(shares: seq<real>, split: seq<nat>)
    requires |split| == |shares| && Total(split) < Positives(shares)
    ensures !AllServed(shares, split)
  {
    if AllServed(shares, split) {
      ServedNeedRate(shares, split);
    }
  }

  lemma AllServedSplit(shares: seq<real>, split: seq<nat>)
    requires shares != [] && |split| == |shares|
    ensures AllServed(shares, split) <==>
            EarlyOnes(shares, split) && (shares[|shares| - 1] > 0.0 ==> split[|shares| - 1] > 0)
  {
  }

  /** Every scenario before the last one with a positive share gets a positive rate. */
  predicate EarlyOnes(shares: seq<real>, split: seq<nat>)
    requires |split| == |shares|
  {
    forall i | 0 <= i < |shares| - 1 && shares[i] > 0.0 :: split[i] > 0
  }

  /** Before the last entry all are served exactly if the excess covers the zeros there. */
  lemma {:induction false} EarlyServedExactly(shares: seq<real>, first: seq<nat>, zeros: seq<nat>, rates: seq<nat>,
                                              split: seq<nat>)
    requires shares != [] && |first| == |shares|
    requires zeros == ZeroIndices(shares, first, |shares|) && Repaired(first, zeros, |zeros|, rates)
    requires |split| == |shares| && NonLast(split) == NonLast(rates)
    ensures EarlyOnes(shares, split) <==> |ZeroIndices(shares, first, |shares| - 1)| <= Excess(NonLast(first))
  {
    if EarlyOnes(shares, split) {
      EarlyZerosServed(shares, first, zeros, rates, split);
    }
    if |ZeroIndices(shares, first, |shares| - 1)| <= Excess(NonLast(first)) {
      EarlyServed(shares, first, zeros, rates, split);
    }
  }

  lemma {:induction false} ZeroIndicesSplit(shares: seq<real>, first: seq<nat>)
    requires shares != [] && |first| == |shares|
    ensures ZeroIndices(shares, first, |shares| - 1) <= ZeroIndices(shares, first, |shares|)
  {
  }

  /** Whoever is served before the last entry had something, or got it from the excess. */
  lemma {:induction false} EarlyZerosServed(shares: seq<real>, first: seq<nat>, zeros: seq<nat>, rates: seq<nat>,
                                            split: seq<nat>)
    requires shares != [] && |first| == |shares|
    requires zeros == ZeroIndices(shares, first, |shares|) && Repaired(first, zeros, |zeros|, rates)
    requires |split| == |shares| && NonLast(split) == NonLast(rates) && EarlyOnes(shares, split)
    ensures |ZeroIndices(shares, first, |shares| - 1)| <= Excess(NonLast(first))
  {
    var early := ZeroIndices(shares, first, |shares| - 1);
    ZeroIndicesSplit(shares, first);
    if early != [] {
      var t := |early| - 1;
      assert zeros[t] == early[t];
      assert split[early[t]] == NonLast(split)[early[t]] == rates[early[t]];
      RepairedAt(first, zeros, rates, t);
    }
  }

  lemma {:induction false} EarlyServed(shares: seq<real>, first: seq<nat>, zeros: seq<nat>, rates: seq<nat>,
                                       split: seq<nat>)
    requires shares != [] && |first| == |shares|
    requires zeros == ZeroIndices(shares, first, |shares|) && Repaired(first, zeros, |zeros|, rates)
    requires |ZeroIndices(shares, first, |shares| - 1)| <= Excess(NonLast(first))
    requires |split| == |shares| && NonLast(split) == NonLast(rates)
    ensures EarlyOnes(shares, split)
  {
    var early := ZeroIndices(shares, first, |shares| - 1);
    ZeroIndicesSplit(shares, first);
    forall i | 0 <= i < |shares| - 1 && shares[i] > 0.0 ensures split[i] > 0 {
      assert split[i] == NonLast(split)[i] == rates[i];
      if first[i] == 0 {
        var t := ZeroIndexOf(shares, first, |shares| - 1, i);
        assert zeros[t] == early[t];
        RepairedAt(first, zeros, rates, t);
      }
    }
  }

  // ---- Rounding errors ----

  predicate NonNegative(shares: seq<real>) {
    forall i | 0 <= i < |shares| :: shares[i] >= 0.0
  }

  lemma RoundError(x: real)
    requires x >= 0.0
    ensures x - 0.5 < RoundU64(x) as real <= x + 0.5
  {
  }

  /** Rounding entries one by one is off by at most 1/2 each. */
  lemma {:induction false} RoundedTotal(xs: seq<real>, rounded: seq<nat>)
    requires NonNegative(xs) && |rounded| == |xs|
    requires forall i | 0 <= i < |xs| :: rounded[i] == RoundU64(xs[i])
    ensures ShareTotal(xs) - |xs| as real / 2.0 <= Total(rounded) as real <= ShareTotal(xs) + |xs| as real / 2.0
    decreases |xs|
  {
    if xs != [] {
      RoundedTotal(NonLast(xs), NonLast(rounded));
      RoundError(xs[|xs| - 1]);
    }
  }

  lemma {:induction false} ScaledTotal(xs: seq<real>, shares: seq<real>, c: real)
    requires |xs| == |shares| && forall i | 0 <= i < |xs| :: xs[i] == c * shares[i]
    ensures ShareTotal(xs) == c * ShareTotal(shares)
    decreases |shares|
  {
    if shares != [] {
      ScaledTotal(NonLast(xs), NonLast(shares), c);
      Distributes(c, ShareTotal(NonLast(shares)), shares[|shares| - 1]);
    }
  }

  lemma Distributes(c: real, x: real, y: real)
    ensures c * (x + y) == c * x + c * y
  {
  }

  lemma IdealScale(rate: real, share: real, total: real)
    requires total > 0.0
    ensures rate * (share / total) == rate / total * share
    ensures rate >= 0.0 && share >= 0.0 ==> rate * (share / total) >= 0.0
    ensures rate / total * total == rate
  {
  }

  function Ideals(shares: seq<real>, rate: nat): seq<real>
    requires ShareTotal(shares) != 0.0
  {
    seq(|shares|, i requires 0 <= i < |shares| => Ideal(shares, rate, i))
  }

  /** The ideal rates add up to the rate. */
  lemma IdealsTotal(shares: seq<real>, rate: nat)
    requires ShareTotal(shares) > 0.0
    ensures ShareTotal(Ideals(shares, rate)) == rate as real
    ensures NonNegative(shares) ==> NonNegative(Ideals(shares, rate))
  {
    var c := rate as real / ShareTotal(shares);
    forall i | 0 <= i < |shares|
      ensures Ideals(shares, rate)[i] == c * shares[i]
      ensures shares[i] >= 0.0 ==> Ideals(shares, rate)[i] >= 0.0
    {
      IdealScale(rate as real, shares[i], ShareTotal(shares));
    }
    ScaledTotal(Ideals(shares, rate), shares, c);
    IdealScale(rate as real, 0.0, ShareTotal(shares));
  }

  /** What the rounded entries before the last one can add up to. */
  lemma RoundedRest(xs: seq<real>, rounded: seq<nat>, rate: nat)
    requires xs != [] && NonNegative(xs) && |rounded| == |xs| && ShareTotal(xs) == rate as real
    requires forall i | 0 <= i < |xs| :: rounded[i] == RoundU64(xs[i])
    ensures rate as real - xs[|xs| - 1] - (|xs| - 1) as real / 2.0
            <= Total(NonLast(rounded)) as real
            <= rate as real - xs[|xs| - 1] + (|xs| - 1) as real / 2.0
    ensures |xs| <= 2 ==> Total(NonLast(rounded)) <= rate
  {
    RoundedTotal(NonLast(xs), NonLast(rounded));
    if |xs| == 2 {
      assert NonLast(xs)[..0] == [] && NonLast(rounded)[..0] == [];
    }
  }

  /** Mixes of up to two entries, and mixes whose last entry is large enough, are never rejected. */
  lemma {:induction false} NeverExceeds(shares: seq<real>, rate: nat)
    requires NonNegative(shares) && shares != [] && ShareTotal(shares) > 0.0
    requires |shares| <= 2 ||
             rate as real * shares[|shares| - 1] / ShareTotal(shares) >= (|shares| - 1) as real / 2.0
    ensures Assigned(shares, rate) <= rate
  {
    IdealIsShare(shares, rate, |shares| - 1);
    LargeLast(shares, rate, Ideal(shares, rate, |shares| - 1));
  }

  lemma {:induction false} LargeLast(shares: seq<real>, rate: nat, last: real)
    requires NonNegative(shares) && shares != [] && ShareTotal(shares) > 0.0
    requires last == Ideal(shares, rate, |shares| - 1)
    requires |shares| <= 2 || last >= (|shares| - 1) as real / 2.0
    ensures Assigned(shares, rate) <= rate
  {
    IdealsTotal(shares, rate);
    FirstPassIsRounded(shares, rate);
    RoundedRest(Ideals(shares, rate), FirstPass(shares, rate), rate);
  }

  lemma FirstPassIsRounded(shares: seq<real>, rate: nat)
    requires ShareTotal(shares) != 0.0
    ensures forall i | 0 <= i < |shares| :: FirstPass(shares, rate)[i] == RoundU64(Ideals(shares, rate)[i])
  {
    forall i | 0 <= i < |shares| ensures FirstPass(shares, rate)[i] == RoundU64(Ideals(shares, rate)[i]) {
      FirstPassAt(shares, rate, i);
    }
  }

  lemma NearestIsRound(k: nat, x: real)
    requires Nearest(k, x)
    ensures RoundU64(x) == k
  {
  }

  lemma {:induction false} RoundedIsFirstPass(shares: seq<real>, rate: nat, split: seq<nat>)
    requires shares != [] && ShareTotal(shares) > 0.0 && |split| == |shares| && RoundedOnly(shares, rate, split)
    ensures NonLast(split) == NonLast(FirstPass(shares, rate))
  {
    var first := FirstPass(shares, rate);
    forall i | 0 <= i < |shares| - 1 ensures NonLast(split)[i] == NonLast(first)[i] {
      FirstPassAt(shares, rate, i);
      IdealIsShare(shares, rate, i);
      NearestIsRound(split[i], Ideal(shares, rate, i));
    }
  }

  /** Without repair every entry is near its share of the rate; the last one carries all the drift. */
  lemma {:induction false} NearIdeal(shares: seq<real>, rate: nat, split: seq<nat>, i: nat)
    requires NonNegative(shares) && shares != [] && ShareTotal(shares) > 0.0 && i < |shares|
    requires |split| == |shares| && RoundedOnly(shares, rate, split) && Total(split) == rate
    ensures var slack := if i < |shares| - 1 then 0.5 else (|shares| - 1) as real / 2.0;
            var ideal := rate as real * shares[i] / ShareTotal(shares);
            ideal - slack <= split[i] as real <= ideal + slack
  {
    IdealsTotal(shares, rate);
    IdealIsShare(shares, rate, i);
    if i < |shares| - 1 {
      assert Ideals(shares, rate)[i] >= 0.0;
    } else {
      RoundedIsFirstPass(shares, rate, split);
      FirstPassIsRounded(shares, rate);
      RoundedRest(Ideals(shares, rate), FirstPass(shares, rate), rate);
    }
  }

  // ---- Where the promises fail ----

  lemma ThreeShares(a: real, b: real, c: real)
    ensures ShareTotal([a, b, c]) == a + b + c
    ensures Positives([a, b, c]) ==
            (if a > 0.0 then 1 else 0) + (if b > 0.0 then 1 else 0) + if c > 0.0 then 1 else 0
  {
    assert [a, b, c][..2] == [a, b] && [a, b][..1] == [a] && [a][..0] == [];
    assert ShareTotal([a]) == a && ShareTotal([a, b]) == a + b;
    assert Positives([a]) == if a > 0.0 then 1 else 0;
    assert Positives([a, b]) == Positives([a]) + if b > 0.0 then 1 else 0;
  }

  lemma {:induction false} NoZeros(shares: seq<real>, rates: seq<nat>, k: nat)
    requires |rates| == |shares| && k <= |rates|
    requires forall i | 0 <= i < k :: shares[i] > 0.0 ==> rates[i] > 0
    ensures ZeroIndices(shares, rates, k) == []
  {
    if k > 0 {
      NoZeros(shares, rates, k - 1);
    }
  }

  lemma TotalTwo(s: seq<nat>)
    requires |s| == 3
    ensures Total(NonLast(s)) == s[0] + s[1]
  {
    assert NonLast(s)[..1] == [s[0]] && [s[0]][..0] == [];
    assert Total([s[0]]) == s[0];
  }

  lemma UnrepairedAssigned(shares: seq<real>, rate: nat, first: seq<nat>)
    requires |shares| == 3 && ShareTotal(shares) != 0.0 && first == FirstPass(shares, rate)
    requires ZeroIndices(shares, first, 3) == []
    ensures Assigned(shares, rate) == first[0] + first[1]
  {
    TotalTwo(first);
  }

  lemma FirstPassOfThree(shares: seq<real>, rate: nat)
    requires |shares| == 3 && ShareTotal(shares) != 0.0
    ensures var ideal := i requires 0 <= i < 3 => RoundU64(Ideal(shares, rate, i));
            FirstPass(shares, rate) == [ideal(0), ideal(1), ideal(2)]
  {
    FirstPassAt(shares, rate, 0);
    FirstPassAt(shares, rate, 1);
    FirstPassAt(shares, rate, 2);
  }

  lemma RejectedFirstPass(shares: seq<real>, rate: nat)
    requires shares == [50.0, 50.0, 0.0] && rate == 3
    ensures ShareTotal(shares) == 100.0 && FirstPass(shares, rate) == [2, 2, 0]
  {
    ThreeShares(50.0, 50.0, 0.0);
    FirstPassOfThree(shares, rate);
    assert Ideal(shares, rate, 0) == 1.5 && Ideal(shares, rate, 1) == 1.5 && Ideal(shares, rate, 2) == 0.0;
  }

  /** Two equal shares and an unused third scenario at rate 3 are rejected: 4 is assigned before the last. */
  lemma RejectedMix(shares: seq<real>, rate: nat)
    requires shares == [50.0, 50.0, 0.0] && rate == 3
    ensures ShareTotal(shares) == 100.0 && Assigned(shares, rate) == 4
  {
    RejectedFirstPass(shares, rate);
    var first := FirstPass(shares, rate);
    NoZeros(shares, first, 3);
    UnrepairedAssigned(shares, rate, first);
  }

  lemma UnservedFirstPass(shares: seq<real>, rate: nat)
    requires shares == [1.0, 1.0, 8.0] && rate == 3
    ensures ShareTotal(shares) == 10.0 && Positives(shares) == 3 && FirstPass(shares, rate) == [0, 0, 2]
  {
    ThreeShares(1.0, 1.0, 8.0);
    FirstPassOfThree(shares, rate);
  }

  /** Three positive shares at rate 3 are accepted, and the first two still get nothing. */
  lemma UnservedMix(shares: seq<real>, rate: nat)
    requires shares == [1.0, 1.0, 8.0] && rate == 3
    ensures ShareTotal(shares) == 10.0 && Positives(shares) == 3
    ensures Assigned(shares, rate) <= rate && !CanServe(shares, rate)
  {
    UnservedFirstPass(shares, rate);
    var first := FirstPass(shares, rate);
    TotalTwo(first);
    NoExcess(NonLast(first));
    assert 0 in ZeroIndices(shares, first, 2);
  }
}

