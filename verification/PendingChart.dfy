/**
 The chart of pending transactions per second of a run.  A transaction counts as pending in second `t`
 if it was sent before the second ended and had not landed when it began.
 */
module PendingChart {
  import opened Options
  import opened Naturals

  const U64_MAX: nat := 0xFFFF_FFFF_FFFF_FFFF

  type Millis = x: nat | x <= U64_MAX

  datatype TxSpan = TxSpan(startMs: Millis, endMs: Option<Millis>)

  function StartSecond(tx: TxSpan): nat {
    tx.startMs / 1000
  }

  function EndSecond(tx: TxSpan): nat {
    if tx.endMs.Some? then tx.endMs.value / 1000 else 0
  }

  predicate Pending(tx: TxSpan, t: nat) {
    tx.startMs < t * 1000 + 1000 && t * 1000 < if tx.endMs.Some? then tx.endMs.value else U64_MAX
  }

  function CountPending(txs: seq<TxSpan>, t: nat): nat
    decreases |txs|
  {
    if txs == [] then 0 else CountPending(txs[..|txs| - 1], t) + if Pending(txs[|txs| - 1], t) then 1 else 0
  }

  /** The earliest start and the latest end, in seconds. */
  function FirstSecond(txs: seq<TxSpan>): nat
    decreases |txs|
  {
    if txs == [] then U64_MAX else Min(FirstSecond(txs[..|txs| - 1]), StartSecond(txs[|txs| - 1]))
  }

  function LastSecond(txs: seq<TxSpan>): nat
    decreases |txs|
  {
    if txs == [] then 0 else Max(LastSecond(txs[..|txs| - 1]), EndSecond(txs[|txs| - 1]))
  }

  function WindowStart(txs: seq<TxSpan>): nat {
    if FirstSecond(txs) == 0 then 0 else FirstSecond(txs) - 1
  }

  /** One entry per second of the padded window. */
  ghost predicate IsChart(txs: seq<TxSpan>, chart: map<nat, nat>) {
    && (forall t :: t in chart <==> WindowStart(txs) <= t <= LastSecond(txs))
    && (forall t | t in chart :: chart[t] == CountPending(txs, t))
  }

  method BuildChart(txs: seq<TxSpan>) returns (chart: map<nat, nat>)
    ensures IsChart(txs, chart)
  {
    var first, last := U64_MAX, 0;
    for i := 0 to |txs|
      invariant first == FirstSecond(txs[..i]) && last == LastSecond(txs[..i])
    {
      assert txs[..i + 1][..i] == txs[..i];
      first, last := Min(first, StartSecond(txs[i])), Max(last, EndSecond(txs[i]));
    }
    assert txs[..|txs|] == txs;
    chart := map[];
    var t := if first == 0 then 0 else first - 1;
    while t < last + 1
      invariant WindowStart(txs) <= t
      invariant forall u :: u in chart <==> WindowStart(txs) <= u < t && u <= last
      invariant forall u | u in chart :: chart[u] == CountPending(txs, u)
    {
      var count := 0;
      for i := 0 to |txs|
        invariant count == CountPending(txs[..i], t)
      {
        assert txs[..i + 1][..i] == txs[..i];
        if Pending(txs[i], t) {
          count := count + 1;
        }
      }
      chart := chart[t := count];
      t := t + 1;
    }
  }

  lemma {:induction false} CountIsCard(txs: seq<TxSpan>, t: nat)
    ensures CountPending(txs, t) ==
            |set i | 0 <= i < |txs| && txs[i].startMs < 1000 * (t + 1) &&
                     1000 * t < (if txs[i].endMs.Some? then txs[i].endMs.value else 0xFFFF_FFFF_FFFF_FFFF)|
    decreases |txs|
  {
    if txs != [] {
      var n := |txs| - 1;
      CountIsCard(txs[..n], t);
      var before := set i | 0 <= i < n && txs[..n][i].startMs < 1000 * (t + 1) &&
                            1000 * t < (if txs[..n][i].endMs.Some? then txs[..n][i].endMs.value else 0xFFFF_FFFF_FFFF_FFFF);
      var all := set i | 0 <= i < |txs| && txs[i].startMs < 1000 * (t + 1) &&
                         1000 * t < (if txs[i].endMs.Some? then txs[i].endMs.value else 0xFFFF_FFFF_FFFF_FFFF);
      assert all == before + if Pending(txs[n], t) then {n} else {};
    }
  }

  lemma {:induction false} FirstIsAttained(txs: seq<TxSpan>) returns (i: nat)
    requires txs != []
    ensures i < |txs| && FirstSecond(txs) == txs[i].startMs / 1000
    decreases |txs|
  {
    var n := |txs| - 1;
    i := n;
    if n > 0 && FirstSecond(txs[..n]) <= StartSecond(txs[n]) {
      i := FirstIsAttained(txs[..n]);
    }
  }

  lemma {:induction false} LastIsAttained(txs: seq<TxSpan>) returns (i: nat)
    requires LastSecond(txs) > 0
    ensures i < |txs| && txs[i].endMs.Some? && LastSecond(txs) == txs[i].endMs.value / 1000
    decreases |txs|
  {
    var n := |txs| - 1;
    i := n;
    if LastSecond(txs[..n]) >= EndSecond(txs[n]) {
      i := LastIsAttained(txs[..n]);
    }
  }

  /**
   The chart begins one second before the second of the earliest start, or at 0, and ends with the second
   of the latest landing; every count is the number of transactions pending in that second.
   */
  lemma ChartExactly(txs: seq<TxSpan>, chart: map<nat, nat>, first: nat, last: nat)
    requires IsChart(txs, chart)
    requires (exists i | 0 <= i < |txs| :: txs[i].startMs / 1000 == first) && forall i | 0 <= i < |txs| :: first <= txs[i].startMs / 1000
    requires forall i | 0 <= i < |txs| && txs[i].endMs.Some? :: txs[i].endMs.value / 1000 <= last
    requires last == 0 || exists i | 0 <= i < |txs| && txs[i].endMs.Some? :: txs[i].endMs.value / 1000 == last
    ensures forall t: nat :: t in chart <==> first <= t + 1 && t <= last
    ensures forall t | t in chart ::
              chart[t] == |set i | 0 <= i < |txs| && txs[i].startMs < 1000 * (t + 1) &&
                                   1000 * t < (if txs[i].endMs.Some? then txs[i].endMs.value else 0xFFFF_FFFF_FFFF_FFFF)|
  {
    var i :| 0 <= i < |txs| && txs[i].startMs / 1000 == first;
    WindowCovers(txs, i);
    var a := FirstIsAttained(txs);
    assert FirstSecond(txs) == first;
    LastIs(txs, last);
    forall t | t in chart {
      CountIsCard(txs, t);
    }
  }

  lemma LastIs(txs: seq<TxSpan>, last: nat)
    requires forall i | 0 <= i < |txs| && txs[i].endMs.Some? :: txs[i].endMs.value / 1000 <= last
    requires last == 0 || exists i | 0 <= i < |txs| && txs[i].endMs.Some? :: txs[i].endMs.value / 1000 == last
    ensures LastSecond(txs) == last
  {
    if last > 0 {
      var i :| 0 <= i < |txs| && txs[i].endMs.Some? && txs[i].endMs.value / 1000 == last;
      WindowCovers(txs, i);
    }
    if LastSecond(txs) > 0 {
      var j := LastIsAttained(txs);
    }
  }

  // ---- The area under the chart ----

  /** The sum of the charted counts of the seconds from `lo` up to, not including, `hi`. */
  ghost function Area(chart: map<nat, nat>, lo: nat, hi: nat): nat
    requires forall t | lo <= t < hi :: t in chart
    decreases hi
  {
    if hi <= lo then 0 else Area(chart, lo, hi - 1) + chart[hi - 1]
  }

  /** How long a transaction is pending: to its landing, or to the last charted second. */
  function Seconds(tx: TxSpan, last: nat): nat {
    var end := if tx.endMs.Some? then (tx.endMs.value + 999) / 1000 else last + 1;
    if StartSecond(tx) < end then end - StartSecond(tx) else 0
  }

  function TotalSeconds(txs: seq<TxSpan>, last: nat): nat
    decreases |txs|
  {
    if txs == [] then 0 else TotalSeconds(txs[..|txs| - 1], last) + Seconds(txs[|txs| - 1], last)
  }

  /** In how many of the seconds `lo..hi` the transaction is pending. */
  function PendingIn(tx: TxSpan, lo: nat, hi: nat): nat
    decreases hi
  {
    if hi <= lo then 0 else PendingIn(tx, lo, hi - 1) + if Pending(tx, hi - 1) then 1 else 0
  }

  function TotalPendingIn(txs: seq<TxSpan>, lo: nat, hi: nat): nat
    decreases |txs|
  {
    if txs == [] then 0 else TotalPendingIn(txs[..|txs| - 1], lo, hi) + PendingIn(txs[|txs| - 1], lo, hi)
  }

  lemma {:induction false} AddSecond(txs: seq<TxSpan>, lo: nat, hi: nat)
    requires lo < hi
    ensures TotalPendingIn(txs, lo, hi) == TotalPendingIn(txs, lo, hi - 1) + CountPending(txs, hi - 1)
    decreases |txs|
  {
    if txs != [] {
      AddSecond(txs[..|txs| - 1], lo, hi);
    }
  }

  lemma {:induction false} NoSeconds(txs: seq<TxSpan>, lo: nat, hi: nat)
    requires hi <= lo
    ensures TotalPendingIn(txs, lo, hi) == 0
    decreases |txs|
  {
    if txs != [] {
      NoSeconds(txs[..|txs| - 1], lo, hi);
    }
  }

  /** Counting by second and counting by transaction agree. */
  lemma {:induction false} AreaByTransaction(txs: seq<TxSpan>, chart: map<nat, nat>, lo: nat, hi: nat)
    requires forall t | lo <= t < hi :: t in chart && chart[t] == CountPending(txs, t)
    ensures Area(chart, lo, hi) == TotalPendingIn(txs, lo, hi)
    decreases hi
  {
    if lo < hi {
      AreaByTransaction(txs, chart, lo, hi - 1);
      AddSecond(txs, lo, hi);
    } else {
      NoSeconds(txs, lo, hi);
    }
  }

  /** The second in which a transaction is no longer pending. */
  function Landed(tx: TxSpan): nat {
    ((if tx.endMs.Some? then tx.endMs.value else U64_MAX) + 999) / 1000
  }

  lemma PendingIsInterval(tx: TxSpan, t: nat)
    ensures Pending(tx, t) <==> StartSecond(tx) <= t < Landed(tx)
  {
  }

  /** An interval meets a window in as many seconds as their overlap is long. */
  lemma {:induction false} PendingOverlap(tx: TxSpan, lo: nat, hi: nat)
    requires lo <= hi
    ensures var a, b := Max(lo, StartSecond(tx)), Min(hi, Landed(tx));
            PendingIn(tx, lo, hi) == if a < b then b - a else 0
    decreases hi
  {
    if lo < hi {
      PendingOverlap(tx, lo, hi - 1);
      PendingIsInterval(tx, hi - 1);
    }
  }

  lemma {:induction false} WindowCovers(txs: seq<TxSpan>, i: nat)
    requires i < |txs|
    ensures FirstSecond(txs) <= StartSecond(txs[i]) && EndSecond(txs[i]) <= LastSecond(txs)
    decreases |txs|
  {
    if i < |txs| - 1 {
      WindowCovers(txs[..|txs| - 1], i);
    }
  }

  lemma {:induction false} LastSecondBound(txs: seq<TxSpan>)
    ensures LastSecond(txs) <= U64_MAX / 1000
    decreases |txs|
  {
    if txs != [] {
      LastSecondBound(txs[..|txs| - 1]);
    }
  }

  /** The window cuts off no part of a transaction that it should count. */
  lemma WindowTruncatesNothing(tx: TxSpan, lo: nat, last: nat)
    requires lo <= StartSecond(tx) && EndSecond(tx) <= last <= U64_MAX / 1000 && lo <= last + 1
    ensures PendingIn(tx, lo, last + 1) == Seconds(tx, last)
  {
    PendingOverlap(tx, lo, last + 1);
  }

  lemma {:induction false} SecondsAddUp(txs: seq<TxSpan>, lo: nat, last: nat)
    requires last <= U64_MAX / 1000 && lo <= last + 1
    requires forall i | 0 <= i < |txs| :: lo <= StartSecond(txs[i]) && EndSecond(txs[i]) <= last
    ensures TotalPendingIn(txs, lo, last + 1) == TotalSeconds(txs, last)
    decreases |txs|
  {
    if txs != [] {
      SecondsAddUp(txs[..|txs| - 1], lo, last);
      WindowTruncatesNothing(txs[|txs| - 1], lo, last);
    }
  }

  /** The window is empty only if nothing could be charted. */
  lemma {:induction false} EmptyWindow(txs: seq<TxSpan>, lo: nat, last: nat)
    requires last + 1 < lo
    requires forall i | 0 <= i < |txs| :: lo <= StartSecond(txs[i]) && EndSecond(txs[i]) <= last
    ensures TotalSeconds(txs, last) == 0
    decreases |txs|
  {
    if txs != [] {
      EmptyWindow(txs[..|txs| - 1], lo, last);
    }
  }

  /**
   The area under the chart is the time the transactions were pending: for a confirmed one from the
   second of its start to the second of its end, for an unconfirmed one to the end of the chart.
   */
  lemma ChartArea(txs: seq<TxSpan>, chart: map<nat, nat>)
    requires IsChart(txs, chart)
    ensures Area(chart, WindowStart(txs), LastSecond(txs) + 1) == TotalSeconds(txs, LastSecond(txs))
  {
    var lo, last := WindowStart(txs), LastSecond(txs);
    AreaByTransaction(txs, chart, lo, last + 1);
    forall i | 0 <= i < |txs| ensures lo <= StartSecond(txs[i]) && EndSecond(txs[i]) <= last {
      WindowCovers(txs, i);
    }
    LastSecondBound(txs);
    if lo <= last + 1 {
      SecondsAddUp(txs, lo, last);
    } else {
      NoSeconds(txs, lo, last + 1);
      EmptyWindow(txs, lo, last);
    }
  }
}
