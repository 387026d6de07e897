/**
 * `MaterialCalculator.calculate_needs` (main.py:44-88): the bill of
 * quantities per bar diameter.
 *
 * Units are exact integers: lengths in centimetres (as the records carry
 * them), unit weights in grams per metre, so a weight is
 * centimetres x grams-per-metre = centigrams (1 cg = 0.00001 kg). The
 * source's metres and kilograms are these values divided by 100 and 100000.
 */
module Calculator {
  import opened Lexing
  import opened Extractor

  /** `unit_weights`: kilograms per metre in the source, grams per metre here. */
  const UnitWeights: map<nat, nat> :=
    map[8 := 395, 10 := 617, 12 := 888, 14 := 1208, 16 := 1580, 18 := 2000, 20 := 2470]

  /** The table holds the seven sizes 8, 10, ..., 20 mm, and a thicker bar
      always weighs more per metre. */
  lemma UnitWeightsTable()
    ensures UnitWeights.Keys == {8, 10, 12, 14, 16, 18, 20}
    ensures forall d1, d2 :: d1 in UnitWeights && d2 in UnitWeights && d1 < d2 ==> UnitWeights[d1] < UnitWeights[d2]
  {
  }

  /** `stock_bar_length_m` (12.0 m), in centimetres. */
  const StockBarLengthCm: nat := 1200

  /** `math.ceil(total_len / stock_bar_length_m)`: the fewest whole stock bars
      that cover the length. */
  function StockBars(lengthCm: nat): (bars: nat)
    ensures bars * StockBarLengthCm >= lengthCm
    ensures bars == 0 || (bars - 1) * StockBarLengthCm < lengthCm
  {
    (lengthCm + StockBarLengthCm - 1) / StockBarLengthCm
  }

  /** One entry of `demir_listesi`: `toplam_metraj_m`, `toplam_agirlik_kg`,
      `gerekli_cubuk_adet`. */
  datatype BarLine = BarLine(lengthCm: nat, weightCg: nat, stockBars: nat)

  /** The returned dictionary: `demir_listesi` keyed by `"Q<d>"`,
      `toplam_tonaj_kg` and `okunan_veri_sayisi`. */
  datatype Report = Report(bars: map<string, BarLine>, totalWeightCg: nat, recordCount: nat)

  /** The report key `f"Q{dia}"`. */
  function Label(d: nat): (key: string)
    ensures |key| >= 2 && key[0] == 'Q' && IsDigits(key[1..])
  {
    "Q" + Decimal(d)
  }

  /** Distinct diameters get distinct report keys. */
  lemma LabelInjective(d1: nat, d2: nat)
    requires Label(d1) == Label(d2)
    ensures d1 == d2
  {
    assert Decimal(d1) == Label(d1)[1..];
    DecimalInjective(d1, d2);
  }

  /** `total_item_length_m` of one record, in centimetres. */
  function Contribution(r: RebarRecord): nat {
    r.lengthCm * r.count
  }

  /** The sum of `f` over the records. */
  function SumOver(rs: seq<RebarRecord>, f: RebarRecord -> nat): nat {
    if rs == [] then 0 else SumOver(rs[..|rs| - 1], f) + f(rs[|rs| - 1])
  }

  /** What a record adds to the bucket of diameter `d`. */
  function ShareOf(d: nat): RebarRecord -> nat {
    (r: RebarRecord) => if r.diameter == d then Contribution(r) else 0
  }

  /** The weight of one record: its contribution times its unit weight, or
      nothing when its diameter has none. */
  function RecordWeight(r: RebarRecord): nat {
    if r.diameter in UnitWeights then WeightCg(Contribution(r), UnitWeights[r.diameter]) else 0
  }

  /** The total length of diameter `d`: the contributions of its records. */
  function BucketCm(rs: seq<RebarRecord>, d: nat): nat {
    SumOver(rs, ShareOf(d))
  }

  /** The project weight record by record. */
  function ProjectWeightCg(rs: seq<RebarRecord>): nat {
    SumOver(rs, RecordWeight)
  }

  /** The keys of `summary` in insertion order: each diameter that has a unit
      weight, once, where it first occurs. */
  function Diameters(rs: seq<RebarRecord>): (ds: seq<nat>)
    ensures forall k :: 0 <= k < |ds| ==> ds[k] in UnitWeights
    ensures forall k, l :: 0 <= k < l < |ds| ==> ds[k] != ds[l]
  {
    if rs == [] then []
    else
      var prior := Diameters(rs[..|rs| - 1]);
      var d := rs[|rs| - 1].diameter;
      if d in UnitWeights && d !in prior then prior + [d] else prior
  }

  /** `weight_kg = total_len * unit_w`, in centigrams. */
  function WeightCg(lengthCm: nat, gramsPerMetre: nat): (w: nat)
    ensures lengthCm == 0 || gramsPerMetre == 0 <==> w == 0
  {
    lengthCm * gramsPerMetre
  }

  /** The report entry of one diameter with a unit weight. */
  function LineFor(rs: seq<RebarRecord>, d: nat): (line: BarLine)
    requires d in UnitWeights
    ensures line.lengthCm == BucketCm(rs, d)
    ensures line.stockBars * StockBarLengthCm >= line.lengthCm
    ensures line.stockBars == 0 || (line.stockBars - 1) * StockBarLengthCm < line.lengthCm
    ensures line.weightCg == 0 <==> line.lengthCm == 0
  {
    var lengthCm := BucketCm(rs, d);
    BarLine(lengthCm, WeightCg(lengthCm, UnitWeights[d]), StockBars(lengthCm))
  }

  /** The weights of the buckets `ds`, added up in that order. */
  function SumWeights(rs: seq<RebarRecord>, ds: seq<nat>): nat
    requires forall k :: 0 <= k < |ds| ==> ds[k] in UnitWeights
  {
    if ds == [] then 0
    else
      var d := ds[|ds| - 1];
      SumWeights(rs, ds[..|ds| - 1]) + WeightCg(BucketCm(rs, d), UnitWeights[d])
  }

  /** The first loop of `calculate_needs`: `summary` maps each diameter that
      has a unit weight to its total length; `keys` is the dictionary's
      insertion order, which the second loop follows. */
  method SummariseByDiameter(parsedData: seq<RebarRecord>) returns (summary: map<nat, nat>, keys: seq<nat>)
    ensures keys == Diameters(parsedData)
    ensures summary.Keys == set d | d in keys
    ensures forall d :: d in summary ==> summary[d] == BucketCm(parsedData, d)
  {
    summary := map[];
    keys := [];
    for i := 0 to |parsedData|
      invariant keys == Diameters(parsedData[..i])
      invariant summary.Keys == set d | d in keys
      invariant forall d :: d in summary ==> summary[d] == BucketCm(parsedData[..i], d)
    {
      var item := parsedData[i];
      assert parsedData[..i + 1] == parsedData[..i] + [item];
      forall d: nat
        ensures BucketCm(parsedData[..i + 1], d)
                == BucketCm(parsedData[..i], d) + (if item.diameter == d then Contribution(item) else 0)
      {
        BucketCmAddRecord(parsedData[..i], item, d);
      }
      var diameter := item.diameter;
      if diameter !in UnitWeights {
        continue;
      }
      var totalItemLengthCm := Contribution(item);
      if diameter !in summary {
        DiametersMembership(parsedData[..i], diameter);
        AbsentDiameterEmpty(parsedData[..i], diameter);
        summary := summary[diameter := 0];
        keys := keys + [diameter];
      }
      summary := summary[diameter := summary[diameter] + totalItemLengthCm];
    }
    assert parsedData[..|parsedData|] == parsedData;
  }

  /** `calculate_needs`: after the first loop has filled the buckets, the
      second turns each bucket into a report line and adds up the project
      weight. */
  method CalculateNeeds(parsedData: seq<RebarRecord>) returns (report: Report)
    ensures report.bars.Keys == set d | d in Diameters(parsedData) :: Label(d)
    ensures forall d :: d in Diameters(parsedData) ==> report.bars[Label(d)] == LineFor(parsedData, d)
    ensures report.totalWeightCg == ProjectWeightCg(parsedData)
    ensures report.recordCount == |parsedData|
  {
    var summary, keys := SummariseByDiameter(parsedData);
    var finalReport: map<string, BarLine> := map[];
    var totalProjectTonnage: nat := 0;
    for j := 0 to |keys|
      invariant finalReport == ReportLines(parsedData, keys[..j])
      invariant totalProjectTonnage == SumWeights(parsedData, keys[..j])
    {
      assert keys[..j + 1][..j] == keys[..j];
      var dia := keys[j];
      var totalLen := summary[dia];
      var unitW := UnitWeights[dia];
      var weight := WeightCg(totalLen, unitW);
      var stockBars := StockBars(totalLen);
      finalReport := finalReport[Label(dia) := BarLine(totalLen, weight, stockBars)];
      totalProjectTonnage := totalProjectTonnage + weight;
    }
    assert keys[..|keys|] == keys;
    ReportLinesMeaning(parsedData, keys);
    ProjectWeightIsBucketSum(parsedData);
    report := Report(finalReport, totalProjectTonnage, |parsedData|);
  }

  /** The report lines of the buckets `ds`, entered in that order. */
  function ReportLines(rs: seq<RebarRecord>, ds: seq<nat>): map<string, BarLine>
    requires forall k :: 0 <= k < |ds| ==> ds[k] in UnitWeights
  {
    if ds == [] then map[]
    else
      var d := ds[|ds| - 1];
      ReportLines(rs, ds[..|ds| - 1])[Label(d) := LineFor(rs, d)]
  }

  /** Entering buckets gives one key per bucket. */
  lemma {:induction false} ReportLinesKeys(rs: seq<RebarRecord>, ds: seq<nat>)
    requires forall k :: 0 <= k < |ds| ==> ds[k] in UnitWeights
    ensures ReportLines(rs, ds).Keys == set d | d in ds :: Label(d)
  {
    if ds != [] {
      var init := ds[..|ds| - 1];
      var last := ds[|ds| - 1];
      assert ds == init + [last];
      ReportLinesKeys(rs, init);
      assert (set d | d in ds :: Label(d)) == (set d | d in init :: Label(d)) + {Label(last)};
    }
  }

  /** Entering distinct buckets leaves each key holding its own bucket's line. */
  lemma {:induction false} ReportLinesValues(rs: seq<RebarRecord>, ds: seq<nat>)
    requires forall k :: 0 <= k < |ds| ==> ds[k] in UnitWeights
    requires forall k, l :: 0 <= k < l < |ds| ==> ds[k] != ds[l]
    ensures forall d :: d in ds ==> Label(d) in ReportLines(rs, ds) && ReportLines(rs, ds)[Label(d)] == LineFor(rs, d)
  {
    if ds != [] {
      var init := ds[..|ds| - 1];
      var last := ds[|ds| - 1];
      assert ds == init + [last];
      ReportLinesValues(rs, init);
      forall d | d in init
        ensures Label(d) != Label(last)
      {
        if Label(d) == Label(last) {
          LabelInjective(d, last);
        }
      }
    }
  }

  /** Entering distinct buckets gives one key per bucket, each holding that
      bucket's line. */
  lemma ReportLinesMeaning(rs: seq<RebarRecord>, ds: seq<nat>)
    requires forall k :: 0 <= k < |ds| ==> ds[k] in UnitWeights
    requires forall k, l :: 0 <= k < l < |ds| ==> ds[k] != ds[l]
    ensures ReportLines(rs, ds).Keys == set d | d in ds :: Label(d)
    ensures forall d :: d in ds ==> ReportLines(rs, ds)[Label(d)] == LineFor(rs, d)
  {
    ReportLinesKeys(rs, ds);
    ReportLinesValues(rs, ds);
  }

  // ---------------------------------------------------------------------
  // Sums over records.

  lemma {:induction false} SumOverAppend(xs: seq<RebarRecord>, ys: seq<RebarRecord>, f: RebarRecord -> nat)
    ensures SumOver(xs + ys, f) == SumOver(xs, f) + SumOver(ys, f)
    decreases |ys|
  {
    if ys == [] {
      assert xs + ys == xs;
    } else {
      var ys' := ys[..|ys| - 1];
      assert (xs + ys)[..|xs + ys| - 1] == xs + ys';
      SumOverAppend(xs, ys', f);
    }
  }

  /** A record adds its contribution to its own bucket and nothing to the others. */
  lemma BucketCmAddRecord(rs: seq<RebarRecord>, x: RebarRecord, d: nat)
    ensures BucketCm(rs + [x], d) == BucketCm(rs, d) + (if x.diameter == d then Contribution(x) else 0)
  {
    assert (rs + [x])[..|rs|] == rs;
  }

  lemma SumOverSingle(x: RebarRecord, f: RebarRecord -> nat)
    ensures SumOver([x], f) == f(x)
  {
    assert [x][..0] == [];
  }

  /** A record in the middle of a sequence adds its own share to the sum. */
  lemma SumOverMiddle(before: seq<RebarRecord>, x: RebarRecord, after: seq<RebarRecord>, f: RebarRecord -> nat)
    ensures SumOver(before + [x] + after, f) == SumOver(before + after, f) + f(x)
  {
    SumOverAppend(before + [x], after, f);
    SumOverAppend(before, [x], f);
    SumOverSingle(x, f);
    SumOverAppend(before, after, f);
  }

  /** Taking the record at `k` out of the sum. */
  lemma SumOverRemove(ys: seq<RebarRecord>, k: nat, f: RebarRecord -> nat)
    requires k < |ys|
    ensures SumOver(ys, f) == SumOver(ys[..k] + ys[k + 1..], f) + f(ys[k])
  {
    assert ys == ys[..k] + [ys[k]] + ys[k + 1..];
    SumOverMiddle(ys[..k], ys[k], ys[k + 1..], f);
  }

  /** Taking the record at `k` out of a sequence takes one copy of it out of
      the sequence's multiset. */
  lemma MultisetRemove(ys: seq<RebarRecord>, k: nat)
    requires k < |ys|
    ensures multiset(ys[..k] + ys[k + 1..]) == multiset(ys) - multiset{ys[k]}
  {
    assert ys == ys[..k] + [ys[k]] + ys[k + 1..];
  }

  /** A sum over records does not depend on their order. */
  lemma {:induction false} SumOverPermutation(xs: seq<RebarRecord>, ys: seq<RebarRecord>, f: RebarRecord -> nat)
    requires multiset(xs) == multiset(ys)
    ensures SumOver(xs, f) == SumOver(ys, f)
    decreases |xs|
  {
    if xs == [] {
      assert |ys| == |multiset(ys)| == 0;
    } else {
      var n := |xs|;
      var x := xs[n - 1];
      assert x in multiset(ys);
      var k :| 0 <= k < |ys| && ys[k] == x;
      MultisetRemove(xs, n - 1);
      MultisetRemove(ys, k);
      assert xs[..n - 1] + xs[n..] == xs[..n - 1];
      SumOverPermutation(xs[..n - 1], ys[..k] + ys[k + 1..], f);
      SumOverRemove(ys, k, f);
    }
  }

  // ---------------------------------------------------------------------
  // Which diameters are reported.

  /** A diameter gets a bucket exactly when it has a unit weight and some
      record has it, whatever that record's length (a length of 0 still
      creates the bucket). */
  lemma {:induction false} DiametersMembership(rs: seq<RebarRecord>, d: nat)
    ensures d in Diameters(rs) <==> d in UnitWeights && exists k :: 0 <= k < |rs| && rs[k].diameter == d
  {
    if rs != [] {
      var init := rs[..|rs| - 1];
      DiametersMembership(init, d);
      if d in UnitWeights && exists k :: 0 <= k < |rs| && rs[k].diameter == d {
        var k :| 0 <= k < |rs| && rs[k].diameter == d;
        if k < |rs| - 1 {
          assert init[k].diameter == d;
        }
      }
    }
  }

  /** A diameter without a unit weight never becomes a report key. */
  lemma UnknownDiameterNeverKey(rs: seq<RebarRecord>, d: nat)
    requires d !in UnitWeights
    ensures Label(d) !in set d' | d' in Diameters(rs) :: Label(d')
  {
    if Label(d) in set d' | d' in Diameters(rs) :: Label(d') {
      var d' :| d' in Diameters(rs) && Label(d') == Label(d);
      LabelInjective(d', d);
    }
  }

  /** A diameter no record has has an empty bucket. */
  lemma {:induction false} AbsentDiameterEmpty(rs: seq<RebarRecord>, d: nat)
    requires forall k :: 0 <= k < |rs| ==> rs[k].diameter != d
    ensures BucketCm(rs, d) == 0
  {
    if rs != [] {
      AbsentDiameterEmpty(rs[..|rs| - 1], d);
    }
  }

  // ---------------------------------------------------------------------
  // The project total.

  /** Adding one record to the records changes the weights of the buckets
      `ds` by that record's weight when its diameter is among them. */
  lemma {:induction false} SumWeightsAddRecord(rs: seq<RebarRecord>, x: RebarRecord, ds: seq<nat>)
    requires forall k :: 0 <= k < |ds| ==> ds[k] in UnitWeights
    requires forall k, l :: 0 <= k < l < |ds| ==> ds[k] != ds[l]
    ensures SumWeights(rs + [x], ds)
            == SumWeights(rs, ds) + (if x.diameter in ds then WeightCg(Contribution(x), UnitWeights[x.diameter]) else 0)
  {
    if ds != [] {
      var init := ds[..|ds| - 1];
      var d := ds[|ds| - 1];
      SumWeightsAddRecord(rs, x, init);
      assert (rs + [x])[..|rs + [x]| - 1] == rs;
      var w := UnitWeights[d];
      BucketCmAddRecord(rs, x, d);
      if x.diameter == d {
        assert x.diameter !in init;
        assert WeightCg(BucketCm(rs + [x], d), w) == WeightCg(BucketCm(rs, d), w) + WeightCg(Contribution(x), w);
      } else {
        assert x.diameter in ds <==> x.diameter in init;
      }
    }
  }

  /** `toplam_tonaj_kg`, the sum over buckets, is the weight of all records
      with a known diameter. */
  lemma {:induction false} ProjectWeightIsBucketSum(rs: seq<RebarRecord>)
    ensures SumWeights(rs, Diameters(rs)) == ProjectWeightCg(rs)
  {
    if rs != [] {
      var init := rs[..|rs| - 1];
      var x := rs[|rs| - 1];
      assert rs == init + [x];
      var ds := Diameters(init);
      ProjectWeightIsBucketSum(init);
      SumWeightsAddRecord(init, x, ds);
      if x.diameter in UnitWeights && x.diameter !in ds {
        assert Diameters(rs) == ds + [x.diameter];
        assert (ds + [x.diameter])[..|ds|] == ds;
        DiametersMembership(init, x.diameter);
        AbsentDiameterEmpty(init, x.diameter);
        var w := UnitWeights[x.diameter];
        assert BucketCm(rs, x.diameter) == Contribution(x);
      } else {
        assert Diameters(rs) == ds;
      }
    }
  }

  // ---------------------------------------------------------------------
  // Order does not matter.

  /** Reordering the records changes neither the set of report keys, nor any
      report line, nor the project weight, nor the record count. */
  lemma ReportIgnoresOrder(xs: seq<RebarRecord>, ys: seq<RebarRecord>)
    requires multiset(xs) == multiset(ys)
    ensures forall d :: d in Diameters(xs) <==> d in Diameters(ys)
    ensures forall d :: d in UnitWeights ==> LineFor(xs, d) == LineFor(ys, d)
    ensures ProjectWeightCg(xs) == ProjectWeightCg(ys)
    ensures |xs| == |ys|
  {
    assert |xs| == |multiset(xs)| == |ys|;
    forall d: nat
      ensures d in Diameters(xs) <==> d in Diameters(ys)
    {
      DiametersMembership(xs, d);
      DiametersMembership(ys, d);
      if exists k :: 0 <= k < |xs| && xs[k].diameter == d {
        var k :| 0 <= k < |xs| && xs[k].diameter == d;
        assert xs[k] in multiset(ys);
      }
      if exists k :: 0 <= k < |ys| && ys[k].diameter == d {
        var k :| 0 <= k < |ys| && ys[k].diameter == d;
        assert ys[k] in multiset(xs);
      }
    }
    forall d | d in UnitWeights
      ensures LineFor(xs, d) == LineFor(ys, d)
    {
      SumOverPermutation(xs, ys, ShareOf(d));
    }
    SumOverPermutation(xs, ys, RecordWeight);
  }
}
