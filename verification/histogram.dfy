/** The tokens-per-second histogram, over the reals. */
module Histogram {

  datatype Bin = Bin(minTPS: real, maxTPS: real, count: nat)

  datatype Result = Result(minTPS: real, maxTPS: real, avgTPS: real, median: real, count: nat, bins: seq<Bin>)

  /** The order in which the query delivers the values. */
  predicate Sorted(values: seq<real>) {
    forall i, k | 0 <= i < k < |values| :: values[i] <= values[k]
  }

  // ---------------------------------------------------------------- the grid

  /** From `lo` up to `hi`, `hi` itself included only when `closed`. */
  predicate Between(v: real, lo: real, hi: real, closed: bool) {
    lo <= v && (v < hi || (closed && v == hi))
  }

  // `n` bins of width `size` from `min` on.
  datatype Grid = Grid(min: real, size: real, n: nat) {
    predicate Valid() {
      size > 0.0 && n > 0
    }

    function Edge(k: nat): real {
      min + k as real * size
    }

    /** Half open, but the last bin is closed above. */
    predicate InBin(v: real, k: nat) {
      Between(v, Edge(k), Edge(k + 1), k == n - 1)
    }

    /** The index the code computes for `v`. */
    function Index(v: real): nat
      requires Valid() && min <= v
    {
      QuotientNonNegative(v - min, size);
      var idx := ((v - min) / size).Floor;
      if idx >= n then n - 1 else idx
    }
  }

  lemma QuotientNonNegative(a: real, b: real)
    requires a >= 0.0 && b > 0.0
    ensures a / b >= 0.0
  {
  }

  lemma Scaled(x: real, y: real, size: real)
    requires size > 0.0
    ensures x < y <==> x * size < y * size
  {
    var d := y - x;
    assert y * size == x * size + d * size;
    if d > 0.0 {
      assert d * size > 0.0;
    } else {
      assert d * size <= 0.0;
    }
  }

  /** Comparing a value with an edge is comparing its quotient with the edge's number. */
  lemma AgainstEdge(g: Grid, v: real, k: nat)
    requires g.Valid() && g.min <= v
    ensures v < g.Edge(k) <==> (v - g.min) / g.size < k as real
    ensures g.Edge(k) < v <==> k as real < (v - g.min) / g.size
  {
    var x := (v - g.min) / g.size;
    assert v == g.min + x * g.size;
    Scaled(x, k as real, g.size);
    Scaled(k as real, x, g.size);
  }

  /** Every value of the range lies in the bin whose index the code computes, and in no other. */
  lemma InBinIff(g: Grid, v: real, k: nat)
    requires g.Valid() && g.min <= v <= g.Edge(g.n) && k < g.n
    ensures g.InBin(v, k) <==> k == g.Index(v)
  {
    QuotientNonNegative(v - g.min, g.size);
    AgainstEdge(g, v, k);
    AgainstEdge(g, v, k + 1);
    AgainstEdge(g, v, g.n);
    ByFloor((v - g.min) / g.size, g.n, k);
  }

  lemma ByFloor(x: real, n: nat, k: nat)
    requires 0.0 <= x <= n as real && k < n
    ensures (k as real <= x && (x < (k + 1) as real || (k == n - 1 && x == n as real)))
            <==> k == if x.Floor >= n then n - 1 else x.Floor
  {
  }

  /** How many of the values lie there. */
  function Inside(values: seq<real>, lo: real, hi: real, closed: bool): nat {
    if values == [] then 0
    else Inside(values[..|values| - 1], lo, hi, closed)
         + if Between(values[|values| - 1], lo, hi, closed) then 1 else 0
  }

  function Sum(values: seq<real>): real {
    if values == [] then 0.0 else Sum(values[..|values| - 1]) + values[|values| - 1]
  }

  function Total(counts: seq<nat>): nat {
    if counts == [] then 0 else Total(counts[..|counts| - 1]) + counts[|counts| - 1]
  }

  function Counts(bins: seq<Bin>): seq<nat> {
    seq(|bins|, k requires 0 <= k < |bins| => bins[k].count)
  }

  lemma {:induction false} TotalUpdate(counts: seq<nat>, k: nat, c: nat)
    requires k < |counts|
    ensures Total(counts[k := c]) == Total(counts) - counts[k] + c
    decreases |counts|
  {
    var n := |counts| - 1;
    if k == n {
      assert counts[k := c][..n] == counts[..n];
    } else {
      TotalUpdate(counts[..n], k, c);
      assert counts[k := c][..n] == counts[..n][k := c];
    }
  }

  lemma {:induction false} TotalZero(counts: seq<nat>)
    requires forall k | 0 <= k < |counts| :: counts[k] == 0
    ensures Total(counts) == 0
    decreases |counts|
  {
    if counts != [] {
      TotalZero(counts[..|counts| - 1]);
    }
  }

  // ---------------------------------------------------------------- mean and median

  lemma {:induction false} SumBetween(values: seq<real>, lo: real, hi: real)
    requires forall i | 0 <= i < |values| :: lo <= values[i] <= hi
    ensures |values| as real * lo <= Sum(values) <= |values| as real * hi
    decreases |values|
  {
    if values != [] {
      SumBetween(values[..|values| - 1], lo, hi);
    }
  }

  lemma QuotientBetween(sum: real, n: real, lo: real, hi: real)
    requires n > 0.0 && n * lo <= sum <= n * hi
    ensures lo <= sum / n <= hi
  {
    var m := sum / n;
    assert m * n == sum;
    Scaled(m, lo, n);
    Scaled(hi, m, n);
  }

  lemma MeanBetween(values: seq<real>, lo: real, hi: real)
    requires values != [] && forall i | 0 <= i < |values| :: lo <= values[i] <= hi
    ensures lo <= Sum(values) / |values| as real <= hi
  {
    SumBetween(values, lo, hi);
    QuotientBetween(Sum(values), |values| as real, lo, hi);
  }

  function Median(values: seq<real>): real
    requires values != []
  {
    var mid := |values| / 2;
    if |values| % 2 == 0 then (values[mid - 1] + values[mid]) / 2.0 else values[mid]
  }

  function Below(values: seq<real>, v: real): nat {
    if values == [] then 0 else Below(values[..|values| - 1], v) + if values[|values| - 1] < v then 1 else 0
  }

  function Above(values: seq<real>, v: real): nat {
    if values == [] then 0 else Above(values[..|values| - 1], v) + if values[|values| - 1] > v then 1 else 0
  }

  lemma {:induction false} BelowAtMost(values: seq<real>, v: real, k: nat)
    requires k <= |values| && forall i | k <= i < |values| :: values[i] >= v
    ensures Below(values, v) <= k
    decreases |values|
  {
    if values != [] {
      var n := |values| - 1;
      BelowAtMost(values[..n], v, if k <= n then k else n);
    }
  }

  lemma {:induction false} AboveAtMost(values: seq<real>, v: real, k: nat)
    requires k <= |values| && forall i | 0 <= i < k :: values[i] <= v
    ensures Above(values, v) <= |values| - k
    decreases |values|
  {
    if |values| > k {
      AboveAtMost(values[..|values| - 1], v, k);
    } else if values != [] {
      AboveAtMost(values[..|values| - 1], v, k - 1);
    }
  }

  /** At most half of the values are smaller than the median and at most half larger, and it lies halfway
      between the two in the middle (one value, taken twice, when their number is odd). */
  lemma MedianHalves(values: seq<real>)
    requires values != [] && Sorted(values)
    ensures 2 * Below(values, Median(values)) <= |values| && 2 * Above(values, Median(values)) <= |values|
    ensures 2.0 * Median(values) == values[(|values| - 1) / 2] + values[|values| / 2]
  {
    var mid := |values| / 2;
    BelowAtMost(values, Median(values), mid);
    AboveAtMost(values, Median(values), |values| - mid);
  }

  /** The sum of one value is that value, and sums add up. */
  lemma {:induction false} SumConcat(a: seq<real>, b: seq<real>)
    ensures Sum(a + b) == Sum(a) + Sum(b)
    ensures |b| == 1 ==> Sum(b) == b[0]
    decreases |b|
  {
    if b == [] {
      assert a + b == a;
    } else {
      SumConcat(a, b[..|b| - 1]);
      assert (a + b)[..|a + b| - 1] == a + b[..|b| - 1];
    }
  }

  // ---------------------------------------------------------------- the histogram

  function GridOf(values: seq<real>, numBins: nat): Grid
    requires values != [] && numBins > 0
  {
    Grid(values[0], Range(values) / numBins as real, numBins)
  }

  lemma Quotient(a: real, b: real)
    requires a > 0.0 && b > 0.0
    ensures a / b > 0.0 && b * (a / b) == a
  {
  }

  lemma GridCovers(values: seq<real>, numBins: nat)
    requires values != [] && numBins > 0 && Sorted(values)
    ensures var g := GridOf(values, numBins);
            && g.Valid() && g.Edge(0) == values[0]
            && g.Edge(numBins) == values[0] + Range(values)
            && forall i | 0 <= i < |values| :: g.min <= values[i] <= g.Edge(g.n)
  {
    Quotient(Range(values), numBins as real);
  }

  /** Length of the range the bins cover: one when all values are equal. */
  function Range(values: seq<real>): real
    requires values != []
  {
    if values[|values| - 1] == values[0] then 1.0 else values[|values| - 1] - values[0]
  }

  /** Each bin starts where the one before ends. */
  predicate Tile(bins: seq<Bin>, from: real, to: real) {
    && bins != [] && bins[0].minTPS == from && bins[|bins| - 1].maxTPS == to
    && forall k | 0 <= k < |bins| - 1 :: bins[k].maxTPS == bins[k + 1].minTPS
  }

  lemma IndexCounts(g: Grid, v: real, k: nat, idx: nat)
    requires g.Valid() && g.min <= v <= g.Edge(g.n) && k < g.n && idx == g.Index(v)
    ensures Between(v, g.Edge(k), g.Edge(k + 1), k == g.n - 1) <==> k == idx
  {
    InBinIff(g, v, k);
  }

  lemma InsideNext(values: seq<real>, i: nat, lo: real, hi: real, closed: bool)
    requires i < |values|
    ensures Inside(values[..i + 1], lo, hi, closed)
            == Inside(values[..i], lo, hi, closed) + if Between(values[i], lo, hi, closed) then 1 else 0
  {
    assert values[..i + 1][..i] == values[..i];
  }

  ghost predicate Counted(g: Grid, values: seq<real>, counts: seq<nat>) {
    && |counts| == g.n && Total(counts) == |values|
    && forall k: nat | k < g.n :: counts[k] == Inside(values, g.Edge(k), g.Edge(k + 1), k == g.n - 1)
  }

  /** Counting one more value where the code puts it. */
  lemma CountedNext(g: Grid, values: seq<real>, i: nat, counts: seq<nat>, idx: nat)
    requires g.Valid() && i < |values| && g.min <= values[i] <= g.Edge(g.n)
    requires Counted(g, values[..i], counts) && idx == g.Index(values[i])
    ensures idx < g.n && Counted(g, values[..i + 1], counts[idx := counts[idx] + 1])
  {
    TotalUpdate(counts, idx, counts[idx] + 1);
    var counts' := counts[idx := counts[idx] + 1];
    forall k: nat | k < g.n
      ensures counts'[k] == Inside(values[..i + 1], g.Edge(k), g.Edge(k + 1), k == g.n - 1)
    {
      InsideNext(values, i, g.Edge(k), g.Edge(k + 1), k == g.n - 1);
      IndexCounts(g, values[i], k, idx);
    }
  }

  method CountValues(g: Grid, values: seq<real>) returns (counts: array<nat>)
    requires g.Valid() && forall i | 0 <= i < |values| :: g.min <= values[i] <= g.Edge(g.n)
    ensures fresh(counts) && counts.Length == g.n
    ensures forall k: nat | k < g.n :: counts[k] == Inside(values, g.Edge(k), g.Edge(k + 1), k == g.n - 1)
    ensures Total(counts[..]) == |values|
  {
    counts := new nat[g.n](_ => 0);
    TotalZero(counts[..]);
    for i := 0 to |values|
      invariant Counted(g, values[..i], counts[..])
    {
      var v := values[i];
      QuotientNonNegative(v - g.min, g.size);
      var idx := ((v - g.min) / g.size).Floor;
      if idx >= g.n {
        idx := g.n - 1;
      }
      ghost var was := counts[..];
      CountedNext(g, values, i, was, idx);
      counts[idx] := counts[idx] + 1;
      assert counts[..] == was[idx := was[idx] + 1];
    }
    assert values[..|values|] == values;
  }

  /** `n` bins of equal, positive width tile the range from the least value on; each counts the values
      lying in it, and together they count every value. */
  ghost predicate IsHistogram(values: seq<real>, n: nat, bins: seq<Bin>)
    requires values != [] && n > 0
  {
    && |bins| == n && Tile(bins, values[0], values[0] + Range(values))
    && (forall k | 0 <= k < n :: bins[k].maxTPS - bins[k].minTPS == Range(values) / n as real > 0.0)
    && (forall k | 0 <= k < n :: bins[k].count == Inside(values, bins[k].minTPS, bins[k].maxTPS, k == n - 1))
    && Total(Counts(bins)) == |values|
  }

  /** Every value is counted once, in the bin it lies in; the bins tile the range; mean and median
      lie within it. */
  method GetHistogram(values: seq<real>, numBins: nat) returns (res: Result)
    requires Sorted(values) && numBins > 0
    ensures res.count == |values|
    ensures values == [] ==> res == Result(0.0, 0.0, 0.0, 0.0, 0, [])
    ensures values != [] ==>
              && res.minTPS == values[0] && res.maxTPS == values[|values| - 1]
              && res.avgTPS == Sum(values) / |values| as real && res.minTPS <= res.avgTPS <= res.maxTPS
              && 2.0 * res.median == values[(|values| - 1) / 2] + values[|values| / 2]
              && 2 * Below(values, res.median) <= |values| && 2 * Above(values, res.median) <= |values|
              && res.minTPS <= res.median <= res.maxTPS
    ensures values != [] ==> IsHistogram(values, numBins, res.bins)
    ensures values != [] ==>
              && res.bins[0].minTPS == res.minTPS
              && res.bins[numBins - 1].maxTPS == if res.minTPS == res.maxTPS then res.minTPS + 1.0 else res.maxTPS
  {
    if |values| == 0 {
      return Result(0.0, 0.0, 0.0, 0.0, 0, []);
    }
    var minTPS, maxTPS := values[0], values[|values| - 1];
    var sum := 0.0;
    for i := 0 to |values|
      invariant sum == Sum(values[..i])
    {
      assert values[..i + 1][..i] == values[..i];
      sum := sum + values[i];
    }
    assert values[..|values|] == values;
    MeanBetween(values, minTPS, maxTPS);
    var avg := sum / |values| as real;

    var mid := |values| / 2;
    var median;
    if |values| % 2 == 0 {
      median := (values[mid - 1] + values[mid]) / 2.0;
    } else {
      median := values[mid];
    }
    MedianHalves(values);

    var bins := MakeBins(values, numBins);
    res := Result(minTPS, maxTPS, avg, median, |values|, bins);
  }

  method MakeBins(values: seq<real>, numBins: nat) returns (bins: seq<Bin>)
    requires values != [] && Sorted(values) && numBins > 0
    ensures IsHistogram(values, numBins, bins)
  {
    var range := values[|values| - 1] - values[0];
    if range == 0.0 {
      range := 1.0;
    }
    var binSize := range / numBins as real;
    var g := Grid(values[0], binSize, numBins);
    assert g == GridOf(values, numBins);
    GridCovers(values, numBins);
    var counts := CountValues(g, values);
    bins := FillBins(g, counts);
    GridIsHistogram(g, values, counts[..], bins);
  }

  ghost predicate Filled(g: Grid, counts: seq<nat>, bins: seq<Bin>) {
    && |bins| == |counts| == g.n
    && forall k: nat | k < |bins| :: bins[k] == Bin(g.Edge(k), g.Edge(k + 1), counts[k])
  }

  method FillBins(g: Grid, counts: array<nat>) returns (bins: seq<Bin>)
    requires counts.Length == g.n
    ensures Filled(g, counts[..], bins)
  {
    bins := [];
    for i := 0 to g.n
      invariant |bins| == i && forall k: nat | k < i :: bins[k] == Bin(g.Edge(k), g.Edge(k + 1), counts[k])
    {
      bins := bins + [Bin(g.min + i as real * g.size, g.min + (i + 1) as real * g.size, counts[i])];
    }
  }

  lemma Width(g: Grid, k: nat)
    ensures g.Edge(k + 1) - g.Edge(k) == g.size
  {
  }

  lemma GridTiles(g: Grid, counts: seq<nat>, bins: seq<Bin>)
    requires g.Valid() && Filled(g, counts, bins)
    ensures Tile(bins, g.Edge(0), g.Edge(g.n))
    ensures forall k | 0 <= k < g.n :: bins[k].maxTPS - bins[k].minTPS == g.size
  {
    forall k: nat | k < g.n
      ensures bins[k].minTPS == g.Edge(k) && bins[k].maxTPS == g.Edge(k + 1)
      ensures bins[k].maxTPS - bins[k].minTPS == g.size
    {
      FilledAt(g, counts, bins, k);
      Width(g, k);
    }
  }

  lemma FilledAt(g: Grid, counts: seq<nat>, bins: seq<Bin>, k: nat)
    requires Filled(g, counts, bins) && k < g.n
    ensures bins[k].minTPS == g.Edge(k) && bins[k].maxTPS == g.Edge(k + 1) && bins[k].count == counts[k]
  {
    assert bins[k] == Bin(g.Edge(k), g.Edge(k + 1), counts[k]);
  }

  lemma GridIsHistogram(g: Grid, values: seq<real>, counts: seq<nat>, bins: seq<Bin>)
    requires values != [] && Sorted(values) && g.n > 0 && g == GridOf(values, g.n)
    requires Counted(g, values, counts) && Filled(g, counts, bins)
    ensures IsHistogram(values, g.n, bins)
  {
    GridCovers(values, g.n);
    GridTiles(g, counts, bins);
    hide Grid.Edge, Inside, Total, Tile, Range;
    forall k: nat | k < g.n
      ensures bins[k].count == counts[k] == Inside(values, bins[k].minTPS, bins[k].maxTPS, k == g.n - 1)
    {
      FilledAt(g, counts, bins, k);
    }
    assert Counts(bins) == counts;
  }
}
