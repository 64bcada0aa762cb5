/** What the statistics mean: capture and travel times in wrapping uint64 arithmetic, their
    telescoping sums, and minimum, maximum and mean of an array. */
module StatsSpec {
  import opened Bytes
  import opened AvtpTime
  import opened Settings

  datatype Entry = Entry(arrival: Timespec, presentation: Timespec)

  /** capture = presentation - transit - hardware latency, split back into seconds. */
  function CapTime(e: Entry, cfg: StreamSettings): Timespec
  {
    FromNs(Wrap64(Wrap64(ToNs(e.presentation) - TransitNs(cfg.maxTransitMs)) - cfg.hwLatencyNs))
  }

  /** travel = arrival - (capture + latency) */
  function TravelByCapture(e: Entry, cfg: StreamSettings): u64
  {
    Wrap64(ToNs(e.arrival) - Wrap64(ToNs(CapTime(e, cfg)) + cfg.hwLatencyNs))
  }

  /** travel = arrival - (presentation - transit) */
  function Travel(e: Entry, cfg: StreamSettings): u64
  {
    Wrap64(ToNs(e.arrival) - Wrap64(ToNs(e.presentation) - TransitNs(cfg.maxTransitMs)))
  }

  /** Capture time of a packet minus that of the one pushed before it. */
  function Delta(later: Entry, earlier: Entry, cfg: StreamSettings): u64
  {
    Wrap64(ToNs(CapTime(later, cfg)) - ToNs(CapTime(earlier, cfg)))
  }

  /** Travel times of a stack, newest first. */
  function Travels(stack: seq<Entry>, cfg: StreamSettings): (t: seq<u64>)
    ensures |t| == |stack|
  {
    seq(|stack|, i requires 0 <= i < |stack| => Travel(stack[i], cfg))
  }

  /** Capture deltas of a stack, newest first: one fewer than its entries. */
  function Deltas(stack: seq<Entry>, cfg: StreamSettings): (d: seq<u64>)
    requires |stack| > 0
    ensures |d| == |stack| - 1
  {
    seq(|stack| - 1, i requires 0 <= i < |stack| - 1 => Delta(stack[i], stack[i + 1], cfg))
  }

  function Sum(a: seq<u64>): nat
  {
    if a == [] then 0 else Sum(a[..|a| - 1]) + a[|a| - 1]
  }

  function MinOf(a: seq<u64>, start: u64): u64
  {
    if a == [] then start else var m := MinOf(a[..|a| - 1], start); if a[|a| - 1] < m then a[|a| - 1] else m
  }

  function MaxOf(a: seq<u64>, start: u64): u64
  {
    if a == [] then start else var m := MaxOf(a[..|a| - 1], start); if a[|a| - 1] > m then a[|a| - 1] else m
  }

  // ---------- the two travel formulas ----------

  lemma WrapLeft(a: int, b: int)
    ensures Wrap64(Wrap64(a) - b) == Wrap64(a - b)
  {
  }

  lemma WrapRight(a: int, b: int)
    ensures Wrap64(a - Wrap64(b)) == Wrap64(a - b)
  {
  }

  lemma WrapAdd(a: int, b: int)
    ensures Wrap64(Wrap64(a) + b) == Wrap64(a + b)
  {
  }

  /** Both ways the source computes a travel time agree, for every packet and every setting. */
  lemma TravelFormulasAgree(e: Entry, cfg: StreamSettings)
    ensures TravelByCapture(e, cfg) == Travel(e, cfg)
  {
    var sent := Wrap64(ToNs(e.presentation) - TransitNs(cfg.maxTransitMs));
    NsRoundTrip(Wrap64(sent - cfg.hwLatencyNs));
    WrapBack(sent, cfg.hwLatencyNs);
  }

  lemma WrapBack(x: u64, y: int)
    ensures Wrap64(Wrap64(x - y) + y) == x
  {
  }

  /** The capture time in plain numbers: presentation less transit milliseconds and latency nanoseconds,
      modulo 2^64, split at a thousand million. */
  lemma CaptureInUnits(e: Entry, cfg: StreamSettings)
    ensures var p, c := e.presentation, CapTime(e, cfg);
            && c.sec * 1_000_000_000 + c.nsec
                 == (p.sec * 1_000_000_000 + p.nsec - cfg.maxTransitMs * 1_000_000 - cfg.hwLatencyNs)
                    % 0x1_0000_0000_0000_0000
            && 0 <= c.nsec < 1_000_000_000
  {
    var p := e.presentation.sec * NSEC_PER_SEC + e.presentation.nsec;
    var sent := Wrap64(ToNs(e.presentation) - TransitNs(cfg.maxTransitMs));
    SplitInUnits(Wrap64(sent - cfg.hwLatencyNs));
    WrapLeft(p, TransitNs(cfg.maxTransitMs));
    WrapLeft(p - TransitNs(cfg.maxTransitMs), cfg.hwLatencyNs);
  }

  /** The travel time in plain numbers: arrival less presentation plus transit, modulo 2^64. */
  lemma TravelInUnits(e: Entry, cfg: StreamSettings)
    ensures var p, a := e.presentation, e.arrival;
            Travel(e, cfg) == ((a.sec - p.sec) * 1_000_000_000 + a.nsec - p.nsec + cfg.maxTransitMs * 1_000_000)
                              % 0x1_0000_0000_0000_0000
  {
    var a := e.arrival.sec * NSEC_PER_SEC + e.arrival.nsec;
    var p := e.presentation.sec * NSEC_PER_SEC + e.presentation.nsec;
    WrapLeft(p, TransitNs(cfg.maxTransitMs));
    WrapRight(ToNs(e.arrival), p - TransitNs(cfg.maxTransitMs));
    WrapLeft(a, p - TransitNs(cfg.maxTransitMs));
  }

  // ---------- telescoping ----------

  /** Transit and latency cancel in a delta. */
  lemma DeltaIsPresentation(later: Entry, earlier: Entry, cfg: StreamSettings)
    ensures Delta(later, earlier, cfg) == Wrap64(ToNs(later.presentation) - ToNs(earlier.presentation))
  {
    var off := TransitNs(cfg.maxTransitMs) + cfg.hwLatencyNs;
    CapNs(later, cfg);
    CapNs(earlier, cfg);
    WrapLeft(ToNs(later.presentation) - off, ToNs(CapTime(earlier, cfg)));
    WrapRight(ToNs(later.presentation) - off, ToNs(earlier.presentation) - off);
  }

  lemma CapNs(e: Entry, cfg: StreamSettings)
    ensures ToNs(CapTime(e, cfg)) == Wrap64(ToNs(e.presentation) - (TransitNs(cfg.maxTransitMs) + cfg.hwLatencyNs))
  {
    NsRoundTrip(Wrap64(Wrap64(ToNs(e.presentation) - TransitNs(cfg.maxTransitMs)) - cfg.hwLatencyNs));
    WrapLeft(ToNs(e.presentation) - TransitNs(cfg.maxTransitMs), cfg.hwLatencyNs);
  }

  /** The deltas of a stack sum, modulo 2^64, to the presentation time of the newest entry minus
      that of the oldest, whatever lies between. */
  lemma {:induction false} DeltasTelescope(stack: seq<Entry>, cfg: StreamSettings)
    requires |stack| > 0
    ensures Wrap64(Sum(Deltas(stack, cfg)))
         == Wrap64(ToNs(stack[0].presentation) - ToNs(stack[|stack| - 1].presentation))
    decreases |stack|
  {
    hide ToNs, CapTime, Wrap64, Delta;
    var n := |stack|;
    if n > 1 {
      var front := stack[..n - 1];
      DeltasTelescope(front, cfg);
      var d := Deltas(stack, cfg);
      assert d[..n - 2] == Deltas(front, cfg);
      assert d[n - 2] == Delta(stack[n - 2], stack[n - 1], cfg);
      DeltaIsPresentation(stack[n - 2], stack[n - 1], cfg);
      Chain(Sum(d[..n - 2]), ToNs(stack[0].presentation), ToNs(stack[n - 2].presentation),
            ToNs(stack[n - 1].presentation));
    }
  }

  lemma Chain(sum: int, a: int, b: int, c: int)
    requires Wrap64(sum) == Wrap64(a - b)
    ensures Wrap64(sum + Wrap64(b - c)) == Wrap64(a - c)
  {
    WrapAdd(sum, Wrap64(b - c));
    WrapAdd(a - b, Wrap64(b - c));
    WrapSumRight(a - b, b - c);
  }

  lemma WrapSumRight(a: int, b: int)
    ensures Wrap64(a + Wrap64(b)) == Wrap64(a + b)
  {
  }

  // ---------- minimum, maximum, mean ----------

  /** Starting from the initial statistic, the folds are the true minimum and maximum. */
  lemma {:induction false} ExtremesCorrect(a: seq<u64>)
    requires |a| > 0
    ensures MinOf(a, TWO_64 - 1) in a && forall x :: x in a ==> MinOf(a, TWO_64 - 1) <= x
    ensures MaxOf(a, 0) in a && forall x :: x in a ==> x <= MaxOf(a, 0)
    decreases |a|
  {
    var front, last := a[..|a| - 1], a[|a| - 1];
    assert a == front + [last];
    if front != [] {
      ExtremesCorrect(front);
    }
  }

  lemma {:induction false} SumBounds(a: seq<u64>, lo: int, hi: int)
    requires forall x :: x in a ==> lo <= x <= hi
    ensures lo * |a| <= Sum(a) <= hi * |a|
    decreases |a|
  {
    if a != [] {
      var front := a[..|a| - 1];
      assert forall x :: x in front ==> x in a;
      SumBounds(front, lo, hi);
      assert |a| == |front| + 1;
      MulSucc(lo, |front|);
      MulSucc(hi, |front|);
      assert a[|a| - 1] in a;
    }
  }

  lemma MulSucc(a: int, n: int)
    ensures a * (n + 1) == a * n + a
  {
  }

  /** The accumulated sum wraps at 2^64.  The reported mean is the floor of the true mean exactly
      when the true sum does not wrap (for arrays that fit a 64-bit address space). */
  lemma MeanExactIff(a: seq<u64>)
    requires 0 < |a| <= TWO_64
    ensures Wrap64(Sum(a)) / |a| == Sum(a) / |a| <==> Sum(a) < TWO_64
  {
    hide Sum;
    if Sum(a) >= TWO_64 {
      WrappedQuotient(Sum(a), |a|);
    } else {
      assert Wrap64(Sum(a)) == Sum(a);
    }
  }

  lemma WrappedQuotient(s: int, n: int)
    requires s >= TWO_64 && 0 < n <= TWO_64
    ensures Wrap64(s) / n != s / n
  {
    var w := Wrap64(s);
    WrapLoses(s);
    DivStep(w, n);
    DivMonotone(w + n, s, n);
  }

  lemma WrapLoses(s: int)
    requires s >= TWO_64
    ensures Wrap64(s) + TWO_64 <= s
  {
  }

  lemma DivStep(w: int, n: int)
    requires n > 0
    ensures (w + n) / n == w / n + 1
  {
    assert w == n * (w / n) + w % n;
    MulDistributes(n, w / n, 1);
    DivUnique(n, w / n + 1, w % n);
    assert w + n == n * (w / n + 1) + w % n;
  }

  lemma DivMonotone(x: int, y: int, n: int)
    requires n > 0 && x <= y
    ensures x / n <= y / n
  {
    if x / n > y / n {
      MulGap(n, x / n, y / n);
    }
  }

  /** The mean lies between the extremes. */
  lemma MeanBetween(a: seq<u64>)
    requires |a| > 0 && Sum(a) < TWO_64
    ensures MinOf(a, TWO_64 - 1) <= Wrap64(Sum(a)) / |a| <= MaxOf(a, 0)
  {
    ExtremesCorrect(a);
    SumBounds(a, MinOf(a, TWO_64 - 1), MaxOf(a, 0));
    QuotientBetween(MinOf(a, TWO_64 - 1), MaxOf(a, 0), Sum(a), |a|);
    assert Wrap64(Sum(a)) == Sum(a);
    hide Sum, MinOf, MaxOf, Wrap64;
  }

  lemma QuotientBetween(lo: int, hi: int, s: int, n: int)
    requires n > 0 && lo * n <= s <= hi * n
    ensures lo <= s / n <= hi
  {
    DivMonotone(lo * n, s, n);
    DivMonotone(s, hi * n, n);
    MulDiv(lo, n);
    MulDiv(hi, n);
  }

  /** The mean capture delta the code reports: its accumulator wraps, and so do the deltas. */
  function MeanDelta(stack: seq<Entry>, cfg: StreamSettings): u64
    requires |stack| > 1
  {
    var d := Deltas(stack, cfg);
    DivBelow(Wrap64(Sum(d)), |d|);
    Wrap64(Sum(d)) / |d|
  }

  lemma DivBelow(x: int, n: int)
    requires x >= 0 && n > 0
    ensures 0 <= x / n <= x
  {
    if x / n > x {
      MulGap(n, x / n, x);
      MulMore(x, n);
    }
  }

  lemma MulMore(x: int, n: int)
    requires x >= 0 && n > 0
    ensures n * x >= x
  {
  }

  /** The reported mean capture delta is the floor of the true average distance between newest and
      oldest presentation exactly when the newest is not before the oldest.  The order of the
      packets in between, and the wrapped deltas it causes, do not matter. */
  lemma MeanDeltaIff(stack: seq<Entry>, cfg: StreamSettings)
    requires 1 < |stack| <= TWO_64
    ensures var p, q := ToNs(stack[0].presentation), ToNs(stack[|stack| - 1].presentation);
            MeanDelta(stack, cfg) == (p - q) / (|stack| - 1) <==> p >= q
  {
    var p: u64, q: u64, n: int := ToNs(stack[0].presentation), ToNs(stack[|stack| - 1].presentation), |stack| - 1;
    DeltasTelescope(stack, cfg);
    QuotientIff(p, q, n);
    assert MeanDelta(stack, cfg) == Wrap64(p - q) / n;
  }

  lemma QuotientIff(p: u64, q: u64, n: int)
    requires n > 0
    ensures Wrap64(p - q) / n == (p - q) / n <==> p >= q
  {
    if p < q {
      NegativeQuotient(p - q, n);
      DivBelow(Wrap64(p - q), n);
    } else {
      assert Wrap64(p - q) == p - q;
    }
  }

  lemma NegativeQuotient(x: int, n: int)
    requires x < 0 < n
    ensures x / n < 0
  {
    if x / n >= 0 {
      MulNonnegative(n, x / n);
    }
  }

  /** With presentation times that never go back, every delta is the true one. */
  lemma DeltasOfOrdered(stack: seq<Entry>, cfg: StreamSettings, i: nat)
    requires i < |stack| - 1 && ToNs(stack[i].presentation) >= ToNs(stack[i + 1].presentation)
    ensures Deltas(stack, cfg)[i] == ToNs(stack[i].presentation) - ToNs(stack[i + 1].presentation)
  {
    hide ToNs, Delta;
    DeltaIsPresentation(stack[i], stack[i + 1], cfg);
  }
}
