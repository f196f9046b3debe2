/**
 Threshold calibration: the confusion counts and metrics of a scored data set,
 the sweep over nineteen thresholds, and what its best row is best among. Scores
 and metrics are exact reals.
 */
module Calibration {

  datatype Sample = Sample(score: real, truth: int, kind: string)

  datatype Counts = Counts(tp: nat, fp: nat, tn: nat, fn: nat)

  datatype Metrics = Metrics(threshold: real, counts: Counts, precision: real, recall: real, f1: real, accuracy: real)

  const ZERO := Counts(0, 0, 0, 0)

  predicate Attack(s: Sample) { s.truth == 1 }

  predicate Blocked(s: Sample, t: real) { s.score >= t }

  function Size(ss: seq<Sample>, p: Sample -> bool): nat {
    if ss == [] then 0 else Size(ss[..|ss| - 1], p) + if p(ss[|ss| - 1]) then 1 else 0
  }

  /** How many samples fall in each cell at a threshold. */
  function Confusion(ss: seq<Sample>, t: real): Counts {
    Counts(Size(ss, s => Attack(s) && Blocked(s, t)), Size(ss, s => !Attack(s) && Blocked(s, t)),
           Size(ss, s => !Attack(s) && !Blocked(s, t)), Size(ss, s => Attack(s) && !Blocked(s, t)))
  }

  /** One sample more in the cell it belongs to. */
  function Plus(c: Counts, s: Sample, t: real): Counts {
    if Attack(s) then
      if Blocked(s, t) then c.(tp := c.tp + 1) else c.(fn := c.fn + 1)
    else
      if Blocked(s, t) then c.(fp := c.fp + 1) else c.(tn := c.tn + 1)
  }

  lemma ConfusionStep(ss: seq<Sample>, s: Sample, t: real)
    ensures Confusion(ss + [s], t) == Plus(Confusion(ss, t), s, t)
  {
    assert (ss + [s])[..|ss|] == ss;
  }

  /** `whenEmpty` is what a script reports as precision when nothing is blocked. */
  function Precision(c: Counts, whenEmpty: real): real {
    if c.tp + c.fp > 0 then c.tp as real / (c.tp + c.fp) as real else whenEmpty
  }

  function Recall(c: Counts): real {
    if c.tp + c.fn > 0 then c.tp as real / (c.tp + c.fn) as real else 0.0
  }

  function Harmonic(p: real, r: real): real {
    if p + r > 0.0 then 2.0 * p * r / (p + r) else 0.0
  }

  /** F1 straight from the counts. */
  function F1(c: Counts): real {
    if c.tp == 0 then 0.0 else (2 * c.tp) as real / (2 * c.tp + c.fp + c.fn) as real
  }

  function Accuracy(c: Counts): real {
    var total := c.tp + c.fp + c.tn + c.fn;
    if total > 0 then (c.tp + c.tn) as real / total as real else 0.0
  }

  lemma CrossMultiply(x: real, y: real, u: real, v: real)
    requires y > 0.0 && v > 0.0 && x * v == u * y
    ensures x / y == u / v
  {
    assert x / y * y == x && u / v * v == u;
    assert (x / y - u / v) * (y * v) == x / y * y * v - u / v * v * y;
  }

  lemma CrossCompare(x: real, y: real, u: real, v: real)
    requires y > 0.0 && v > 0.0
    ensures x / y <= u / v <==> x * v <= u * y
  {
    var d := u / v - x / y;
    assert x / y * y == x && u / v * v == u;
    assert d * (y * v) == u / v * v * y - x / y * y * v;
    if d >= 0.0 { assert d * (y * v) >= 0.0; } else { assert d * (y * v) < 0.0; }
  }

  lemma HarmonicOfQuotients(n: real, a: real, b: real)
    requires n > 0.0 && a > 0.0 && b > 0.0
    ensures Harmonic(n / a, n / b) == 2.0 * n / (a + b)
  {
    var p, r := n / a, n / b;
    assert p > 0.0 && r > 0.0 && p * a == n && r * b == n;
    assert n * (p + r) == (r * b) * p + (p * a) * r;
    CrossMultiply(2.0 * p * r, p + r, 2.0 * n, a + b);
  }

  /** The harmonic mean the scripts compute is 2TP / (2TP + FP + FN), whatever they report for an empty precision. */
  lemma F1FromCounts(c: Counts, whenEmpty: real)
    ensures Harmonic(Precision(c, whenEmpty), Recall(c)) == F1(c)
  {
    if c.tp > 0 {
      HarmonicOfQuotients(c.tp as real, (c.tp + c.fp) as real, (c.tp + c.fn) as real);
    }
  }

  /** F1 lies between precision and recall. */
  lemma F1BetweenPrecisionAndRecall(c: Counts, whenEmpty: real)
    requires c.tp > 0
    ensures var p, r := Precision(c, whenEmpty), Recall(c);
            (if p <= r then p else r) <= F1(c) <= (if p <= r then r else p)
  {
    var n, a, b := c.tp as real, (c.tp + c.fp) as real, (c.tp + c.fn) as real;
    CrossCompare(n, a, n, b);
    CrossCompare(n, a, 2.0 * n, a + b);
    CrossCompare(2.0 * n, a + b, n, b);
    CrossCompare(n, b, 2.0 * n, a + b);
    CrossCompare(2.0 * n, a + b, n, a);
  }

  /** The positions of the samples with a property. */
  function Where(ss: seq<Sample>, p: Sample -> bool): set<int> { set i | 0 <= i < |ss| && p(ss[i]) }

  lemma {:induction false} SizeIsCardinality(ss: seq<Sample>, p: Sample -> bool)
    ensures Size(ss, p) == |Where(ss, p)|
  {
    if ss == [] {
      assert Where(ss, p) == {};
    } else {
      var init, last := ss[..|ss| - 1], |ss| - 1;
      SizeIsCardinality(init, p);
      assert Where(ss, p) == Where(init, p) + if p(ss[last]) then {last} else {};
    }
  }

  /** The four counts are the sizes of four sets of samples: attack or not, at or above the threshold or not. */
  ghost predicate CountsOf(ss: seq<Sample>, t: real, c: Counts) {
    && c.tp == |set i | 0 <= i < |ss| && ss[i].truth == 1 && ss[i].score >= t|
    && c.fp == |set i | 0 <= i < |ss| && ss[i].truth != 1 && ss[i].score >= t|
    && c.tn == |set i | 0 <= i < |ss| && ss[i].truth != 1 && ss[i].score < t|
    && c.fn == |set i | 0 <= i < |ss| && ss[i].truth == 1 && ss[i].score < t|
  }

  lemma ConfusionIsCounts(ss: seq<Sample>, t: real)
    ensures CountsOf(ss, t, Confusion(ss, t))
  {
    var p, q, u, v := (s: Sample) => Attack(s) && Blocked(s, t), (s: Sample) => !Attack(s) && Blocked(s, t),
                      (s: Sample) => !Attack(s) && !Blocked(s, t), (s: Sample) => Attack(s) && !Blocked(s, t);
    SizeIsCardinality(ss, p);
    SizeIsCardinality(ss, q);
    SizeIsCardinality(ss, u);
    SizeIsCardinality(ss, v);
    SameSize(ss, s => Attack(s) && Blocked(s, t), p);
    SameSize(ss, s => !Attack(s) && Blocked(s, t), q);
    SameSize(ss, s => !Attack(s) && !Blocked(s, t), u);
    SameSize(ss, s => Attack(s) && !Blocked(s, t), v);
    assert Where(ss, p) == set i | 0 <= i < |ss| && ss[i].truth == 1 && ss[i].score >= t;
    assert Where(ss, q) == set i | 0 <= i < |ss| && ss[i].truth != 1 && ss[i].score >= t;
    assert Where(ss, u) == set i | 0 <= i < |ss| && ss[i].truth != 1 && ss[i].score < t;
    assert Where(ss, v) == set i | 0 <= i < |ss| && ss[i].truth == 1 && ss[i].score < t;
  }

  lemma {:induction false} SameSize(ss: seq<Sample>, p: Sample -> bool, q: Sample -> bool)
    requires forall s :: p(s) == q(s)
    ensures Size(ss, p) == Size(ss, q)
  {
    if ss != [] { SameSize(ss[..|ss| - 1], p, q); }
  }

  method ComputeMetrics(ss: seq<Sample>, t: real) returns (m: Metrics)
    ensures m.threshold == t && m.counts == Confusion(ss, t)
    ensures m.precision == Precision(m.counts, 1.0) && m.recall == Recall(m.counts)
    ensures m.f1 == F1(m.counts) && m.accuracy == Accuracy(m.counts)
    ensures CountsOf(ss, t, m.counts)
    ensures var c := m.counts;
            && m.precision == (if c.tp + c.fp > 0 then c.tp as real / (c.tp + c.fp) as real else 1.0)
            && m.recall == (if c.tp + c.fn > 0 then c.tp as real / (c.tp + c.fn) as real else 0.0)
            && m.f1 == (if c.tp > 0 then (2 * c.tp) as real / (2 * c.tp + c.fp + c.fn) as real else 0.0)
            && m.accuracy == (if c.tp + c.fp + c.tn + c.fn > 0
                              then (c.tp + c.tn) as real / (c.tp + c.fp + c.tn + c.fn) as real else 0.0)
  {
    ConfusionIsCounts(ss, t);
    var c := ZERO;
    for i := 0 to |ss|
      invariant c == Confusion(ss[..i], t)
    {
      ConfusionStep(ss[..i], ss[i], t);
      assert ss[..i + 1] == ss[..i] + [ss[i]];
      c := Plus(c, ss[i], t);
    }
    assert ss[..|ss|] == ss;
    m := Derive(c, t);
  }

  /** The derived metrics; no blocks count as perfect precision. */
  method Derive(c: Counts, t: real) returns (m: Metrics)
    ensures m.threshold == t && m.counts == c
    ensures m.precision == Precision(c, 1.0) && m.recall == Recall(c) && m.f1 == F1(c) && m.accuracy == Accuracy(c)
  {
    var total := c.tp + c.fp + c.tn + c.fn;
    var precision := if c.tp + c.fp > 0 then c.tp as real / (c.tp + c.fp) as real else 1.0;
    var recall := if c.tp + c.fn > 0 then c.tp as real / (c.tp + c.fn) as real else 0.0;
    var f1 := if precision + recall > 0.0 then 2.0 * precision * recall / (precision + recall) else 0.0;
    var accuracy := if total > 0 then (c.tp + c.tn) as real / total as real else 0.0;
    F1FromCounts(c, 1.0);
    m := Metrics(t, c, precision, recall, f1, accuracy);
  }

  // ---- Moving the threshold ---------------------------------------------------------

  /** Raising the threshold never gains a true or false positive, and never loses a negative. */
  lemma {:induction false} CountsMonotone(ss: seq<Sample>, low: real, high: real)
    requires low <= high
    ensures var c, d := Confusion(ss, low), Confusion(ss, high);
            d.tp <= c.tp && d.fp <= c.fp && d.fn >= c.fn && d.tn >= c.tn
            && d.tp + d.fn == c.tp + c.fn && d.fp + d.tn == c.fp + c.tn
  {
    if ss != [] { CountsMonotone(ss[..|ss| - 1], low, high); }
  }

  lemma RecallAntitone(ss: seq<Sample>, low: real, high: real)
    requires low <= high
    ensures Recall(Confusion(ss, high)) <= Recall(Confusion(ss, low))
  {
    CountsMonotone(ss, low, high);
    var c, d := Confusion(ss, low), Confusion(ss, high);
    if c.tp + c.fn > 0 {
      var n := (c.tp + c.fn) as real;
      CrossCompare(d.tp as real, n, c.tp as real, n);
    }
  }

  ghost predicate NoScoreBetween(ss: seq<Sample>, low: real, high: real) {
    forall i :: 0 <= i < |ss| ==> !(low <= ss[i].score < high)
  }

  lemma {:induction false} SameCountsAcrossGap(ss: seq<Sample>, low: real, high: real)
    requires low <= high && NoScoreBetween(ss, low, high)
    ensures Confusion(ss, low) == Confusion(ss, high)
  {
    if ss != [] { SameCountsAcrossGap(ss[..|ss| - 1], low, high); }
  }

  function GapAttacks(ss: seq<Sample>, low: real, high: real): nat {
    Size(ss, s => Attack(s) && low <= s.score < high)
  }

  function GapClean(ss: seq<Sample>, low: real, high: real): nat {
    Size(ss, s => !Attack(s) && low <= s.score < high)
  }

  lemma {:induction false} GapAccounts(ss: seq<Sample>, low: real, high: real)
    requires low <= high
    ensures Confusion(ss, low).tp == Confusion(ss, high).tp + GapAttacks(ss, low, high)
    ensures Confusion(ss, low).fp == Confusion(ss, high).fp + GapClean(ss, low, high)
  {
    if ss != [] { GapAccounts(ss[..|ss| - 1], low, high); }
  }

  /**
   Precision is not monotone: raising the threshold keeps or improves it exactly
   when the samples that stop being blocked are no richer in attacks than the
   blocked ones were.
   */
  lemma PrecisionImprovesIff(ss: seq<Sample>, low: real, high: real)
    requires low <= high
    ensures Precision(Confusion(ss, low), 1.0) <= Precision(Confusion(ss, high), 1.0)
       <==> GapAttacks(ss, low, high) * Confusion(ss, low).fp <= GapClean(ss, low, high) * Confusion(ss, low).tp
  {
    GapAccounts(ss, low, high);
    var c, d := Confusion(ss, low), Confusion(ss, high);
    var a, g := GapAttacks(ss, low, high), GapClean(ss, low, high);
    if d.tp + d.fp > 0 { PrecisionOrder(c, d, a, g); } else { AllInGap(c, a, g); }
  }

  /** Precision counts as 1 when nothing is blocked, so losing every blocked sample never lowers it. */
  lemma AllInGap(c: Counts, a: nat, g: nat)
    requires c.tp == a && c.fp == g
    ensures Precision(c, 1.0) <= 1.0 && a * c.fp <= g * c.tp
  {
    if c.tp + c.fp > 0 { CrossCompare(c.tp as real, (c.tp + c.fp) as real, 1.0, 1.0); }
    assert a * g == g * a;
  }

  lemma PrecisionOrder(c: Counts, d: Counts, a: nat, g: nat)
    requires c.tp == d.tp + a && c.fp == d.fp + g && d.tp + d.fp > 0
    ensures Precision(c, 1.0) <= Precision(d, 1.0) <==> a * c.fp <= g * c.tp
  {
    CrossCompare(c.tp as real, (c.tp + c.fp) as real, d.tp as real, (d.tp + d.fp) as real);
    RealProduct(c.tp, d.tp + d.fp);
    RealProduct(d.tp, c.tp + c.fp);
    GapIdentity(c.tp, c.fp, a, g);
  }

  lemma RealProduct(x: int, y: int)
    ensures x as real * y as real == (x * y) as real
  {}

  lemma GapIdentity(tp: int, fp: int, a: int, g: int)
    ensures (tp - a) * (tp + fp) - tp * ((tp - a) + (fp - g)) == g * tp - a * fp
  {}

  const CLEAN_ON_TOP := [Sample(0.5, 1, "sqli"), Sample(0.9, 0, "none")]

  /** Two samples on which raising the threshold from 0.4 to 0.6 takes the precision from 1/2 to 0. */
  lemma PrecisionCanFall()
    ensures Precision(Confusion(CLEAN_ON_TOP, 0.6), 1.0) < Precision(Confusion(CLEAN_ON_TOP, 0.4), 1.0)
  {
    TwoSamples(CLEAN_ON_TOP[0], CLEAN_ON_TOP[1], 0.4);
    TwoSamples(CLEAN_ON_TOP[0], CLEAN_ON_TOP[1], 0.6);
  }

  lemma TwoSamples(a: Sample, b: Sample, t: real)
    ensures Confusion([a, b], t) == Plus(Plus(ZERO, a, t), b, t)
  {
    assert [a, b] == [a] + [b] && [a] == [] + [a];
    ConfusionStep([a], b, t);
    ConfusionStep([], a, t);
  }

  // ---- The sweep -----------------------------------------------------------------------

  /** The nineteen thresholds 0.05, 0.10, ..., 0.95. */
  function Grid(i: nat): real { ((i + 1) as real) * 5.0 / 100.0 }

  const GRID_SIZE := 19

  /** `max` over the rows: the first with the largest F1. */
  method Best(rows: seq<Metrics>) returns (best: nat)
    requires rows != []
    ensures best < |rows|
    ensures forall i :: 0 <= i < |rows| ==> rows[i].f1 <= rows[best].f1
    ensures forall i :: 0 <= i < best ==> rows[i].f1 < rows[best].f1
  {
    best := 0;
    for k := 1 to |rows|
      invariant 0 <= best < k
      invariant forall i :: 0 <= i < k ==> rows[i].f1 <= rows[best].f1
      invariant forall i :: 0 <= i < best ==> rows[i].f1 < rows[best].f1
    {
      if rows[k].f1 > rows[best].f1 {
        best := k;
      }
    }
  }

  ghost predicate GridRows(ss: seq<Sample>, rows: seq<Metrics>) {
    forall i :: 0 <= i < |rows| ==>
      && rows[i].threshold == Grid(i) && rows[i].counts == Confusion(ss, Grid(i)) && rows[i].f1 == F1(rows[i].counts)
      && rows[i].precision == Precision(rows[i].counts, 1.0) && rows[i].recall == Recall(rows[i].counts)
      && rows[i].accuracy == Accuracy(rows[i].counts)
  }

  /** The metrics at the nineteen thresholds, and the first row with the largest F1. */
  method Sweep(ss: seq<Sample>) returns (rows: seq<Metrics>, best: nat)
    ensures |rows| == GRID_SIZE && best < GRID_SIZE && GridRows(ss, rows)
    ensures |rows| == 19 && forall i :: 0 <= i < 19 ==> rows[i].threshold == (i + 1) as real * 0.05
    ensures forall i :: 0 <= i < GRID_SIZE ==> rows[i].f1 <= rows[best].f1
    ensures forall i :: 0 <= i < best ==> rows[i].f1 < rows[best].f1
    ensures BestOnGrid(ss, rows[best].f1)
  {
    rows := [];
    for k := 0 to GRID_SIZE
      invariant |rows| == k && GridRows(ss, rows)
    {
      var row := ComputeMetrics(ss, Grid(k));
      rows := rows + [row];
    }
    best := Best(rows);
    BestRowIsBest(ss, rows, best);
  }

  lemma BestRowIsBest(ss: seq<Sample>, rows: seq<Metrics>, best: nat)
    requires |rows| == GRID_SIZE && GridRows(ss, rows) && best < GRID_SIZE
    requires forall i :: 0 <= i < GRID_SIZE ==> rows[i].f1 <= rows[best].f1
    ensures BestOnGrid(ss, rows[best].f1)
  {
    assert F1(Confusion(ss, Grid(best))) == rows[best].f1;
    forall i: nat | i < GRID_SIZE
      ensures F1(Confusion(ss, Grid(i))) <= rows[best].f1
    {
      assert rows[i].f1 == F1(Confusion(ss, Grid(i)));
    }
  }

  /** The best F1 of the sweep, as a value to compare with. */
  ghost predicate BestOnGrid(ss: seq<Sample>, f1: real) {
    && (forall i: nat :: i < GRID_SIZE ==> F1(Confusion(ss, Grid(i))) <= f1)
    && (exists i: nat :: i < GRID_SIZE && F1(Confusion(ss, Grid(i))) == f1)
  }

  /** No score separates the threshold from the grid point. */
  ghost predicate NearGrid(ss: seq<Sample>, t: real, i: nat) {
    NoScoreBetween(ss, t, Grid(i)) && NoScoreBetween(ss, Grid(i), t)
  }

  lemma BestBeatsNeighbours(ss: seq<Sample>, f1: real, t: real, i: nat)
    requires BestOnGrid(ss, f1) && i < GRID_SIZE && NearGrid(ss, t, i)
    ensures F1(Confusion(ss, t)) <= f1
  {
    if t <= Grid(i) {
      SameCountsAcrossGap(ss, t, Grid(i));
    } else {
      SameCountsAcrossGap(ss, Grid(i), t);
    }
  }

  /** Everything scores below the threshold, or some score is the lowest one not below it. */
  lemma {:induction false} NextScore(ss: seq<Sample>, t: real) returns (k: int)
    ensures -1 <= k < |ss|
    ensures k == -1 ==> forall i :: 0 <= i < |ss| ==> ss[i].score < t
    ensures k >= 0 ==> ss[k].score >= t && NoScoreBetween(ss, t, ss[k].score)
  {
    if ss == [] {
      k := -1;
    } else {
      var last := |ss| - 1;
      k := NextScore(ss[..last], t);
      if ss[last].score >= t && (k == -1 || ss[last].score < ss[k].score) {
        k := last;
      }
    }
  }

  lemma {:induction false} NothingBlocked(ss: seq<Sample>, t: real)
    requires forall i :: 0 <= i < |ss| ==> ss[i].score < t
    ensures Confusion(ss, t).tp == 0
  {
    if ss != [] { NothingBlocked(ss[..|ss| - 1], t); }
  }

  /** The swept optimum is the optimum over all thresholds exactly when it beats the thresholds at the scores themselves. */
  lemma SweepOptimalIffAtScores(ss: seq<Sample>, f1: real)
    requires BestOnGrid(ss, f1)
    ensures (forall t: real :: F1(Confusion(ss, t)) <= f1)
       <==> (forall k :: 0 <= k < |ss| ==> F1(Confusion(ss, ss[k].score)) <= f1)
  {
    if forall k :: 0 <= k < |ss| ==> F1(Confusion(ss, ss[k].score)) <= f1 {
      forall t: real
        ensures F1(Confusion(ss, t)) <= f1
      {
        var k := NextScore(ss, t);
        if k >= 0 {
          SameCountsAcrossGap(ss, t, ss[k].score);
        } else {
          NothingBlocked(ss, t);
          F1NotNegative(Confusion(ss, Grid(0)));
          assert F1(Confusion(ss, Grid(0))) <= f1;
        }
      }
    }
  }

  const ATTACK_ON_TOP := [Sample(0.96, 0, "none"), Sample(0.98, 1, "sqli")]

  /** Two samples on which every swept threshold blocks both, while 0.98 would separate them. */
  lemma SweepCanMiss(f1: real)
    requires BestOnGrid(ATTACK_ON_TOP, f1)
    ensures f1 < F1(Confusion(ATTACK_ON_TOP, 0.98))
  {
    var ss := ATTACK_ON_TOP;
    TwoSamples(ss[0], ss[1], 0.98);
    var i: nat :| i < GRID_SIZE && F1(Confusion(ss, Grid(i))) == f1;
    GridBelow(i);
    TwoSamples(ss[0], ss[1], Grid(i));
  }

  lemma GridBelow(i: nat)
    requires i < GRID_SIZE
    ensures Grid(i) <= 0.95
  {}

  lemma F1NotNegative(c: Counts)
    ensures F1(c) >= 0.0
  {}
}
