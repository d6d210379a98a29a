/** The records of one day's rate document, the per-currency statistic record,
    the update one observed rate makes to it, and the decimal-comma rewrite
    applied to a rate's text before it is parsed (main.go). */
module Rates {

  /** One currency element of a day's document after decoding (main.go:22-29).
      The rate is a `real`; the source's float32 is not modelled. */
  datatype Valute = Valute(numCode: int, charCode: string, nominal: int, name: string, value: real)

  /** A rate with the formatted date of the day it was published for (main.go:40-43). */
  datatype CurrencyValue = CurrencyValue(value: real, date: string)

  /** The running statistic kept for one currency code (main.go:31-38). */
  datatype CurrencyInfo = CurrencyInfo(
    code: string,
    name: string,
    maxValue: CurrencyValue,
    minValue: CurrencyValue,
    totalValue: real,
    count: int)

  /** Go's zero value of CurrencyValue; a value of 0 means "not set yet". */
  const Unset := CurrencyValue(0.0, "")

  /** The entry created on the first sight of a code: code and name from the
      record, everything else at its zero value (main.go:131-136). */
  function Seed(code: string, name: string): CurrencyInfo
  {
    CurrencyInfo(code, name, Unset, Unset, 0.0, 0)
  }

  /** What one observed rate does to an existing entry (main.go:138-149):
      strict comparisons, with a stored 0 read as "unset". */
  function Step(info: CurrencyInfo, obs: CurrencyValue): CurrencyInfo
  {
    var maxValue := if obs.value > info.maxValue.value || info.maxValue.value == 0.0 then obs else info.maxValue;
    var minValue := if obs.value < info.minValue.value || info.minValue.value == 0.0 then obs else info.minValue;
    info.(maxValue := maxValue, minValue := minValue,
          totalValue := info.totalValue + obs.value, count := info.count + 1)
  }

  /** The entry after a sequence of observations, oldest first. */
  function Accumulate(info: CurrencyInfo, obs: seq<CurrencyValue>): CurrencyInfo
    decreases |obs|
  {
    if obs == [] then info else Step(Accumulate(info, obs[..|obs| - 1]), obs[|obs| - 1])
  }

  /** The sum of the observed rates. */
  function Sum(obs: seq<CurrencyValue>): real
    decreases |obs|
  {
    if obs == [] then 0.0 else Sum(obs[..|obs| - 1]) + obs[|obs| - 1].value
  }

  predicate AllPositive(obs: seq<CurrencyValue>)
  {
    forall j :: 0 <= j < |obs| ==> obs[j].value > 0.0
  }

  /** `m` is the first observation, in processing order, that carries the largest rate. */
  predicate IsFirstMaximum(obs: seq<CurrencyValue>, m: CurrencyValue)
  {
    && (forall j :: 0 <= j < |obs| ==> obs[j].value <= m.value)
    && exists k :: 0 <= k < |obs| && obs[k] == m && forall j :: 0 <= j < k ==> obs[j].value < m.value
  }

  /** `m` is the first observation, in processing order, that carries the smallest rate. */
  predicate IsFirstMinimum(obs: seq<CurrencyValue>, m: CurrencyValue)
  {
    && (forall j :: 0 <= j < |obs| ==> m.value <= obs[j].value)
    && exists k :: 0 <= k < |obs| && obs[k] == m && forall j :: 0 <= j < k ==> m.value < obs[j].value
  }

  /** Each observation leaves code and name alone, adds one to the count and
      its rate to the total: after any run, count is the number of
      observations and total their sum. */
  lemma {:induction false} AccumulateBookkeeping(info: CurrencyInfo, obs: seq<CurrencyValue>)
    ensures Accumulate(info, obs).code == info.code
    ensures Accumulate(info, obs).name == info.name
    ensures Accumulate(info, obs).count == info.count + |obs|
    ensures Accumulate(info, obs).totalValue == info.totalValue + Sum(obs)
    decreases |obs|
  {
    if obs != [] {
      AccumulateBookkeeping(info, obs[..|obs| - 1]);
    }
  }

  /** Starting from an unset maximum, positive rates leave in maxValue the
      first observation carrying the largest rate: a later equal rate does not
      replace its date, because the comparison is strict. */
  lemma {:induction false} AccumulateMax(info: CurrencyInfo, obs: seq<CurrencyValue>)
    requires info.maxValue.value == 0.0
    requires obs != [] && AllPositive(obs)
    ensures IsFirstMaximum(obs, Accumulate(info, obs).maxValue)
    decreases |obs|
  {
    var n := |obs|;
    var prefix := obs[..n - 1];
    var last := obs[n - 1];
    var r := Accumulate(info, obs);
    if n == 1 {
      assert prefix == [] && Accumulate(info, prefix) == info;
      assert r.maxValue == obs[0];
    } else {
      assert forall j :: 0 <= j < n - 1 ==> prefix[j] == obs[j];
      AccumulateMax(info, prefix);
      var prev := Accumulate(info, prefix);
      var k :| 0 <= k < |prefix| && prefix[k] == prev.maxValue
               && forall j :: 0 <= j < k ==> prefix[j].value < prev.maxValue.value;
      assert prev.maxValue.value > 0.0;
      if last.value > prev.maxValue.value {
        assert r.maxValue == obs[n - 1];
      } else {
        assert r.maxValue == obs[k];
      }
    }
  }

  /** The same for minValue, with the strict `<` of main.go:143. */
  lemma {:induction false} AccumulateMin(info: CurrencyInfo, obs: seq<CurrencyValue>)
    requires info.minValue.value == 0.0
    requires obs != [] && AllPositive(obs)
    ensures IsFirstMinimum(obs, Accumulate(info, obs).minValue)
    decreases |obs|
  {
    var n := |obs|;
    var prefix := obs[..n - 1];
    var last := obs[n - 1];
    var r := Accumulate(info, obs);
    if n == 1 {
      assert prefix == [] && Accumulate(info, prefix) == info;
      assert r.minValue == obs[0];
    } else {
      assert forall j :: 0 <= j < n - 1 ==> prefix[j] == obs[j];
      AccumulateMin(info, prefix);
      var prev := Accumulate(info, prefix);
      var k :| 0 <= k < |prefix| && prefix[k] == prev.minValue
               && forall j :: 0 <= j < k ==> prev.minValue.value < prefix[j].value;
      assert prev.minValue.value > 0.0;
      if last.value < prev.minValue.value {
        assert r.minValue == obs[n - 1];
      } else {
        assert r.minValue == obs[k];
      }
    }
  }

  /** The maximum needs no positivity: from an unset maximum, rates that are
      0 or more never exceed the recorded maximum, since a stored 0 is
      overwritten by any later rate and a 0 never displaces a larger one. */
  lemma {:induction false} AccumulateMaxNonNegative(info: CurrencyInfo, obs: seq<CurrencyValue>)
    requires info.maxValue.value == 0.0
    requires forall j :: 0 <= j < |obs| ==> obs[j].value >= 0.0
    ensures Accumulate(info, obs).maxValue.value >= 0.0
    ensures forall j :: 0 <= j < |obs| ==> obs[j].value <= Accumulate(info, obs).maxValue.value
    decreases |obs|
  {
    if obs != [] {
      var n := |obs|;
      var prefix := obs[..n - 1];
      assert forall j :: 0 <= j < n - 1 ==> prefix[j] == obs[j];
      AccumulateMaxNonNegative(info, prefix);
    }
  }

  /** Where the sentinel breaks the extremes: after 5, 0, 3 the minimum is 3
      although 0 was seen; after 0, -1 the maximum is -1 although 0 was seen. */
  lemma SentinelCounterexamples(code: string, name: string, d1: string, d2: string, d3: string)
    ensures Accumulate(Seed(code, name),
              [CurrencyValue(5.0, d1), CurrencyValue(0.0, d2), CurrencyValue(3.0, d3)]).minValue
            == CurrencyValue(3.0, d3)
    ensures Accumulate(Seed(code, name), [CurrencyValue(0.0, d1), CurrencyValue(-1.0, d2)]).maxValue
            == CurrencyValue(-1.0, d2)
  {
    var seed := Seed(code, name);
    var a, b, c := CurrencyValue(5.0, d1), CurrencyValue(0.0, d2), CurrencyValue(3.0, d3);
    assert [a, b, c][..2] == [a, b] && [a, b][..1] == [a] && [a][..0] == [];
    assert Accumulate(seed, [a]) == Step(seed, a);
    assert Accumulate(seed, [a, b]).minValue == b;
    var z, m := CurrencyValue(0.0, d1), CurrencyValue(-1.0, d2);
    assert [z, m][..1] == [z] && [z][..0] == [];
    assert Accumulate(seed, [z]) == Step(seed, z);
  }

  /** The zero sentinel: an observed rate of 0 is stored as the minimum (when
      no negative rate was stored) and is then read as "unset", so the next
      observation overwrites the minimum, and also the maximum if that was
      still unset, whatever its magnitude. */
  lemma ZeroRateIsForgotten(info: CurrencyInfo, zero: CurrencyValue, next: CurrencyValue)
    requires info.minValue.value >= 0.0 && zero.value == 0.0
    ensures Step(Step(info, zero), next).minValue == next
    ensures info.maxValue.value == 0.0 ==> Step(Step(info, zero), next).maxValue == next
  {
  }

  /** Two days with 90.00 then 95.00 (in processing order): the maximum
      carries the second day's date, the minimum the first's, the mean is
      92.50. A repeated 90.00 on the second day keeps the first day's date. */
  lemma TwoDaysScenario(code: string, name: string, day1: string, day2: string)
    ensures var info := Accumulate(Seed(code, name), [CurrencyValue(90.0, day1), CurrencyValue(95.0, day2)]);
      && info.maxValue == CurrencyValue(95.0, day2)
      && info.minValue == CurrencyValue(90.0, day1)
      && info.count == 2
      && Mean(info) == 92.5
    ensures Accumulate(Seed(code, name), [CurrencyValue(90.0, day1), CurrencyValue(90.0, day2)]).maxValue
            == CurrencyValue(90.0, day1)
  {
    var seed := Seed(code, name);
    var a, b, c := CurrencyValue(90.0, day1), CurrencyValue(95.0, day2), CurrencyValue(90.0, day2);
    assert [a, b][..1] == [a] && [a][..0] == [];
    assert [a, c][..1] == [a];
    assert Accumulate(seed, [a]) == Step(seed, a);
  }

  /** Bounds on a sum of rates that all lie in [lo, hi]. */
  lemma {:induction false} SumBounds(obs: seq<CurrencyValue>, lo: real, hi: real)
    requires forall j :: 0 <= j < |obs| ==> lo <= obs[j].value <= hi
    ensures |obs| as real * lo <= Sum(obs) <= |obs| as real * hi
    decreases |obs|
  {
    if obs != [] {
      var n := |obs|;
      assert forall j :: 0 <= j < n - 1 ==> obs[..n - 1][j] == obs[j];
      SumBounds(obs[..n - 1], lo, hi);
      assert n as real * lo == (n - 1) as real * lo + lo;
      assert n as real * hi == (n - 1) as real * hi + hi;
    }
  }

  /** The mean printed by the report (main.go:61). */
  function Mean(info: CurrencyInfo): (mean: real)
    requires info.count >= 1
    ensures mean * info.count as real == info.totalValue
  {
    info.totalValue / info.count as real
  }

  /** For a currency seen only with positive rates, the mean lies between the
      recorded minimum and maximum. */
  lemma MeanBetweenMinAndMax(code: string, name: string, obs: seq<CurrencyValue>)
    requires obs != [] && AllPositive(obs)
    ensures var info := Accumulate(Seed(code, name), obs);
      info.count >= 1 && info.minValue.value <= Mean(info) <= info.maxValue.value
  {
    var info := Accumulate(Seed(code, name), obs);
    AccumulateBookkeeping(Seed(code, name), obs);
    ObservationsWithinExtremes(Seed(code, name), obs);
    SumBounds(obs, info.minValue.value, info.maxValue.value);
    DivideBounds(info.totalValue, |obs| as real, info.minValue.value, info.maxValue.value);
  }

  /** Every observed rate lies between the recorded minimum and maximum. */
  lemma ObservationsWithinExtremes(info: CurrencyInfo, obs: seq<CurrencyValue>)
    requires info.maxValue.value == 0.0 && info.minValue.value == 0.0
    requires obs != [] && AllPositive(obs)
    ensures forall j :: 0 <= j < |obs| ==>
              Accumulate(info, obs).minValue.value <= obs[j].value <= Accumulate(info, obs).maxValue.value
  {
    AccumulateMax(info, obs);
    AccumulateMin(info, obs);
  }

  lemma DivideBounds(total: real, n: real, lo: real, hi: real)
    requires n > 0.0 && n * lo <= total <= n * hi
    ensures lo <= total / n <= hi
  {
    assert total / n - lo == (total - n * lo) / n;
    assert hi - total / n == (n * hi - total) / n;
  }

  /** Index of the first comma of `s`, or |s| when there is none. */
  function CommaIndex(s: string): (i: nat)
    ensures i <= |s|
    ensures forall j :: 0 <= j < i ==> s[j] != ','
    ensures i < |s| ==> s[i] == ','
  {
    if s == [] then 0 else if s[0] == ',' then 0 else 1 + CommaIndex(s[1..])
  }

  /** `strings.Replace(v, ",", ".", 1)` in Float.UnmarshalXML (main.go:50):
      a text without a comma is returned as it is; otherwise its first comma
      becomes a period and everything else, later commas included, is kept. */
  function ReplaceFirstComma(s: string): (r: string)
    ensures |r| == |s|
    ensures CommaIndex(s) == |s| ==> r == s
    ensures CommaIndex(s) < |s| ==> r == s[..CommaIndex(s)] + "." + s[CommaIndex(s) + 1..]
  {
    if s == [] then []
    else if s[0] == ',' then "." + s[1..]
    else [s[0]] + ReplaceFirstComma(s[1..])
  }

  /** A text `p,q` whose part `p` holds no comma becomes `p.q`: the
      documents' "65,4321" becomes "65.4321", and "1,2,3" becomes "1.2,3". */
  lemma ReplaceFirstCommaSplit(p: string, q: string)
    requires forall j :: 0 <= j < |p| ==> p[j] != ','
    ensures ReplaceFirstComma(p + "," + q) == p + "." + q
  {
    var s := p + "," + q;
    assert s[|p|] == ',';
    assert forall j :: 0 <= j < |p| ==> s[j] == p[j];
    assert CommaIndex(s) == |p|;
    assert s[..|p|] == p && s[|p| + 1..] == q;
  }
}
