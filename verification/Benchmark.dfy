/** The model benchmark: per-type and overall counting in one loop, and its metrics. */
module Benchmark {
  import opened Common
  import opened Calibration

  datatype Summary = Summary(counts: Counts, precision: real, recall: real, f1: real, accuracy: real)

  /** `total / 0` for an empty data set. */
  datatype Raised = DivisionByZero

  function OfKind(ss: seq<Sample>, kind: string): seq<Sample> {
    if ss == [] then [] else
      var rest := OfKind(ss[..|ss| - 1], kind);
      if ss[|ss| - 1].kind == kind then rest + [ss[|ss| - 1]] else rest
  }

  function Sum(a: Counts, b: Counts): Counts {
    Counts(a.tp + b.tp, a.fp + b.fp, a.tn + b.tn, a.fn + b.fn)
  }

  /** The counts of all types together, in the order in which the types turned up. */
  function TotalOf(kinds: seq<string>, per: map<string, Counts>): Counts {
    if kinds == [] then ZERO else
      var k := kinds[|kinds| - 1];
      Sum(TotalOf(kinds[..|kinds| - 1], per), RowOf(per, k))
  }

  function RowOf(per: map<string, Counts>, k: string): Counts { if k in per then per[k] else ZERO }

  lemma {:induction false} TotalUnaffected(kinds: seq<string>, per: map<string, Counts>, k: string, c: Counts)
    requires k !in kinds
    ensures TotalOf(kinds, per[k := c]) == TotalOf(kinds, per)
  {
    if kinds != [] { TotalUnaffected(kinds[..|kinds| - 1], per, k, c); }
  }

  lemma {:induction false} TotalGrows(kinds: seq<string>, per: map<string, Counts>, s: Sample, t: real)
    requires s.kind in kinds && s.kind in per
    requires forall i, j :: 0 <= i < j < |kinds| ==> kinds[i] != kinds[j]
    ensures TotalOf(kinds, per[s.kind := Plus(per[s.kind], s, t)]) == Plus(TotalOf(kinds, per), s, t)
  {
    var init, last := kinds[..|kinds| - 1], kinds[|kinds| - 1];
    assert kinds == init + [last];
    if last == s.kind {
      TotalUnaffected(init, per, s.kind, Plus(per[s.kind], s, t));
    } else {
      TotalGrows(init, per, s, t);
    }
  }

  function KindCounts(ss: seq<Sample>, k: string, t: real): Counts { Confusion(OfKind(ss, k), t) }

  ghost predicate RowsRight(ss: seq<Sample>, t: real, per: map<string, Counts>) {
    forall k :: RowOf(per, k) == KindCounts(ss, k, t)
  }

  predicate Listed(kinds: seq<string>, per: map<string, Counts>) {
    && (forall i, j :: 0 <= i < j < |kinds| ==> kinds[i] != kinds[j])
    && (forall k :: k in kinds ==> k in per)
    && (forall k :: k in per ==> k in kinds)
  }

  /** The dictionaries after the samples seen so far. */
  ghost predicate Counted(ss: seq<Sample>, t: real, kinds: seq<string>, per: map<string, Counts>) {
    Listed(kinds, per) && RowsRight(ss, t, per) && TotalOf(kinds, per) == Confusion(ss, t)
  }

  lemma TotalExtended(kinds: seq<string>, per: map<string, Counts>, k: string)
    requires k !in kinds
    ensures TotalOf(kinds + [k], per[k := ZERO]) == TotalOf(kinds, per)
  {
    var ks, per' := kinds + [k], per[k := ZERO];
    TotalUnaffected(kinds, per, k, ZERO);
    assert ks[..|ks| - 1] == kinds && ks[|ks| - 1] == k && RowOf(per', k) == ZERO;
    assert TotalOf(ks, per') == Sum(TotalOf(kinds, per'), ZERO);
  }

  lemma ListedExtended(kinds: seq<string>, per: map<string, Counts>, k: string)
    requires Listed(kinds, per) && k !in per
    ensures Listed(kinds + [k], per[k := ZERO])
  {}

  lemma RowsExtended(ss: seq<Sample>, t: real, per: map<string, Counts>, k: string)
    requires RowsRight(ss, t, per) && k !in per
    ensures RowsRight(ss, t, per[k := ZERO])
  {
    forall x
      ensures RowOf(per[k := ZERO], x) == KindCounts(ss, x, t)
    {
      assert RowOf(per, x) == KindCounts(ss, x, t);
    }
  }

  /** A type that turns up for the first time gets a row of zeros. */
  lemma RowAdded(ss: seq<Sample>, t: real, kinds: seq<string>, per: map<string, Counts>, k: string)
    requires Counted(ss, t, kinds, per) && k !in per
    ensures Counted(ss, t, kinds + [k], per[k := ZERO])
  {
    TotalExtended(kinds, per, k);
    ListedExtended(kinds, per, k);
    RowsExtended(ss, t, per, k);
  }

  lemma RowsAfterSample(ss: seq<Sample>, s: Sample, t: real, per: map<string, Counts>, x: string)
    requires RowsRight(ss, t, per) && s.kind in per
    ensures RowOf(per[s.kind := Plus(per[s.kind], s, t)], x) == KindCounts(ss + [s], x, t)
  {
    assert (ss + [s])[..|ss|] == ss;
    assert RowOf(per, x) == KindCounts(ss, x, t);
    ConfusionStep(OfKind(ss, x), s, t);
  }

  lemma SampleAdded(ss: seq<Sample>, s: Sample, t: real, kinds: seq<string>, per: map<string, Counts>)
    requires Counted(ss, t, kinds, per) && s.kind in per
    ensures Counted(ss + [s], t, kinds, per[s.kind := Plus(per[s.kind], s, t)])
  {
    forall x
      ensures RowOf(per[s.kind := Plus(per[s.kind], s, t)], x) == KindCounts(ss + [s], x, t)
    {
      RowsAfterSample(ss, s, t, per, x);
    }
    ConfusionStep(ss, s, t);
    TotalGrows(kinds, per, s, t);
  }

  /** The counting loop. */
  method Tally(ss: seq<Sample>, t: real) returns (overall: Counts, kinds: seq<string>, per: map<string, Counts>)
    ensures Counted(ss, t, kinds, per) && overall == Confusion(ss, t)
  {
    kinds, per, overall := [], map[], ZERO;
    for i := 0 to |ss|
      invariant Counted(ss[..i], t, kinds, per) && overall == Confusion(ss[..i], t)
    {
      var s := ss[i];
      assert ss[..i + 1] == ss[..i] + [s];
      if s.kind !in per {
        RowAdded(ss[..i], t, kinds, per, s.kind);
        kinds, per := kinds + [s.kind], per[s.kind := ZERO];
      }
      SampleAdded(ss[..i], s, t, kinds, per);
      ConfusionStep(ss[..i], s, t);
      per := per[s.kind := Plus(per[s.kind], s, t)];
      overall := Plus(overall, s, t);
    }
    assert ss[..|ss|] == ss;
  }

  lemma {:induction false} OfKindSize(ss: seq<Sample>, k: string, p: Sample -> bool)
    ensures Size(OfKind(ss, k), p) == Size(ss, (s: Sample) => s.kind == k && p(s))
  {
    if ss != [] {
      var init, last := ss[..|ss| - 1], ss[|ss| - 1];
      OfKindSize(init, k, p);
      var ks := OfKind(init, k) + [last];
      assert ks[..|ks| - 1] == OfKind(init, k);
    }
  }

  lemma CellIs(ss: seq<Sample>, k: string, p: Sample -> bool, q: Sample -> bool)
    requires forall s :: q(s) <==> s.kind == k && p(s)
    ensures Size(OfKind(ss, k), p) == |Where(ss, q)|
  {
    OfKindSize(ss, k, p);
    SameSize(ss, (s: Sample) => s.kind == k && p(s), q);
    SizeIsCardinality(ss, q);
  }

  /** A type's row counts the samples of that type, in the same four ways. */
  lemma KindCountsAre(ss: seq<Sample>, k: string, t: real)
    ensures var c := KindCounts(ss, k, t);
            && c.tp == |set i | 0 <= i < |ss| && ss[i].kind == k && ss[i].truth == 1 && ss[i].score >= t|
            && c.fp == |set i | 0 <= i < |ss| && ss[i].kind == k && ss[i].truth != 1 && ss[i].score >= t|
            && c.tn == |set i | 0 <= i < |ss| && ss[i].kind == k && ss[i].truth != 1 && ss[i].score < t|
            && c.fn == |set i | 0 <= i < |ss| && ss[i].kind == k && ss[i].truth == 1 && ss[i].score < t|
  {
    var tp, fp := (s: Sample) => s.kind == k && s.truth == 1 && s.score >= t, (s: Sample) => s.kind == k && s.truth != 1 && s.score >= t;
    var tn, fn := (s: Sample) => s.kind == k && s.truth != 1 && s.score < t, (s: Sample) => s.kind == k && s.truth == 1 && s.score < t;
    KindCells(ss, k, t, tp, fp, tn, fn);
    assert Where(ss, tp) == set i | 0 <= i < |ss| && ss[i].kind == k && ss[i].truth == 1 && ss[i].score >= t;
    assert Where(ss, fp) == set i | 0 <= i < |ss| && ss[i].kind == k && ss[i].truth != 1 && ss[i].score >= t;
    assert Where(ss, tn) == set i | 0 <= i < |ss| && ss[i].kind == k && ss[i].truth != 1 && ss[i].score < t;
    assert Where(ss, fn) == set i | 0 <= i < |ss| && ss[i].kind == k && ss[i].truth == 1 && ss[i].score < t;
  }

  lemma KindCells(ss: seq<Sample>, k: string, t: real, tp: Sample -> bool, fp: Sample -> bool, tn: Sample -> bool,
                  fn: Sample -> bool)
    requires forall s :: tp(s) <==> s.kind == k && Attack(s) && Blocked(s, t)
    requires forall s :: fp(s) <==> s.kind == k && !Attack(s) && Blocked(s, t)
    requires forall s :: tn(s) <==> s.kind == k && !Attack(s) && !Blocked(s, t)
    requires forall s :: fn(s) <==> s.kind == k && Attack(s) && !Blocked(s, t)
    ensures KindCounts(ss, k, t) == Counts(|Where(ss, tp)|, |Where(ss, fp)|, |Where(ss, tn)|, |Where(ss, fn)|)
  {
    CellIs(ss, k, s => Attack(s) && Blocked(s, t), tp);
    CellIs(ss, k, s => !Attack(s) && Blocked(s, t), fp);
    CellIs(ss, k, s => !Attack(s) && !Blocked(s, t), tn);
    CellIs(ss, k, s => Attack(s) && !Blocked(s, t), fn);
  }

  /**
   The overall counts are those of `compute_metrics` at the same threshold, each
   type's counts are those of its own samples, and the types add up to the total.
   */
  method Run(ss: seq<Sample>, t: real)
    returns (r: Result<Summary, Raised>, kinds: seq<string>, per: map<string, Counts>)
    ensures r.Err? <==> ss == []
    ensures r.Ok? ==>
              var c := r.value.counts;
              && CountsOf(ss, t, c)
              && r.value.precision == (if c.tp + c.fp > 0 then c.tp as real / (c.tp + c.fp) as real else 0.0)
              && r.value.recall == (if c.tp + c.fn > 0 then c.tp as real / (c.tp + c.fn) as real else 0.0)
              && r.value.f1 == (if c.tp > 0 then (2 * c.tp) as real / (2 * c.tp + c.fp + c.fn) as real else 0.0)
              && r.value.accuracy == (c.tp + c.tn) as real / |ss| as real
    ensures r.Ok? ==>
              && r.value.counts == Confusion(ss, t) == TotalOf(kinds, per)
              && r.value.precision == Precision(r.value.counts, 0.0) && r.value.recall == Recall(r.value.counts)
              && r.value.f1 == F1(r.value.counts) && r.value.accuracy == Accuracy(r.value.counts)
    ensures forall i, j :: 0 <= i < j < |kinds| ==> kinds[i] != kinds[j]
    ensures forall k :: k in kinds <==> k in per
    ensures forall k :: RowOf(per, k) == KindCounts(ss, k, t)
  {
    var c: Counts;
    c, kinds, per := Tally(ss, t);
    if ss == [] {
      return Err(DivisionByZero), kinds, per;
    }
    AllCounted(ss, t);
    ConfusionIsCounts(ss, t);
    var summary := Summarise(c, |ss|);
    r := Ok(summary);
  }

  method Summarise(c: Counts, samples: nat) returns (m: Summary)
    requires c.tp + c.fp + c.tn + c.fn == samples > 0
    ensures m.counts == c && m.precision == Precision(c, 0.0) && m.recall == Recall(c)
    ensures m.f1 == F1(c) && m.accuracy == Accuracy(c)
  {
    var precision := if c.tp + c.fp > 0 then c.tp as real / (c.tp + c.fp) as real else 0.0;
    var recall := if c.tp + c.fn > 0 then c.tp as real / (c.tp + c.fn) as real else 0.0;
    var f1 := if precision + recall > 0.0 then 2.0 * precision * recall / (precision + recall) else 0.0;
    F1FromCounts(c, 0.0);
    m := Summary(c, precision, recall, f1, (c.tp + c.tn) as real / samples as real);
  }

  lemma {:induction false} AllCounted(ss: seq<Sample>, t: real)
    ensures var c := Confusion(ss, t); c.tp + c.fp + c.tn + c.fn == |ss|
  {
    if ss != [] { AllCounted(ss[..|ss| - 1], t); }
  }
}
