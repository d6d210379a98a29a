/** The aggregation store of fetchCurrencyData (main.go:82, 129-152): a map
    from currency code to its running statistic, updated record by record. */
module Aggregation {
  import opened Rates

  /** One record together with the formatted date of the day it came from. */
  datatype Dated = Dated(valute: Valute, date: string)

  /** Every entry is filed under its own code and has been updated at least
      once, so the mean of main.go:61 never divides by zero. */
  predicate WellFormed(m: map<string, CurrencyInfo>)
  {
    forall c :: c in m ==> m[c].code == c && m[c].count >= 1
  }

  /** One iteration of the record loop (main.go:130-151): look the code up or
      seed a new entry, apply the rate, write the entry back. */
  function ApplyRecord(m: map<string, CurrencyInfo>, e: Dated): map<string, CurrencyInfo>
  {
    var code := e.valute.charCode;
    var info := if code in m then m[code] else Seed(code, e.valute.name);
    m[code := Step(info, CurrencyValue(e.valute.value, e.date))]
  }

  /** The store after a sequence of records, in processing order. */
  function ApplyEvents(m: map<string, CurrencyInfo>, es: seq<Dated>): map<string, CurrencyInfo>
    decreases |es|
  {
    if es == [] then m else ApplyRecord(ApplyEvents(m, es[..|es| - 1]), es[|es| - 1])
  }

  /** One day's records, each tagged with that day's date. */
  function Tag(records: seq<Valute>, date: string): seq<Dated>
  {
    seq(|records|, i requires 0 <= i < |records| => Dated(records[i], date))
  }

  /** The codes that occur in a sequence of records. */
  function Codes(es: seq<Dated>): set<string>
    decreases |es|
  {
    if es == [] then {} else Codes(es[..|es| - 1]) + {es[|es| - 1].valute.charCode}
  }

  /** The currency codes of one day's records. */
  function DayCodes(records: seq<Valute>): set<string>
    decreases |records|
  {
    if records == [] then {} else DayCodes(records[..|records| - 1]) + {records[|records| - 1].charCode}
  }

  /** A code is among a day's codes exactly when one of its records carries it. */
  lemma {:induction false} DayCodesMembers(records: seq<Valute>, code: string)
    ensures code in DayCodes(records) <==> exists i :: 0 <= i < |records| && records[i].charCode == code
    decreases |records|
  {
    if records != [] {
      var n := |records|;
      var prefix := records[..n - 1];
      DayCodesMembers(prefix, code);
      assert forall i :: 0 <= i < n - 1 ==> prefix[i] == records[i];
    }
  }

  /** Tagging a day's records with its date keeps their codes. */
  lemma {:induction false} TagCodes(records: seq<Valute>, date: string)
    ensures Codes(Tag(records, date)) == DayCodes(records)
    decreases |records|
  {
    if records != [] {
      var n := |records|;
      var prefix := records[..n - 1];
      TagCodes(prefix, date);
      assert Tag(records, date)[..n - 1] == Tag(prefix, date);
    }
  }

  /** The rates observed for `code`, with their dates, in processing order. */
  function Sightings(es: seq<Dated>, code: string): seq<CurrencyValue>
    decreases |es|
  {
    if es == [] then []
    else
      var e := es[|es| - 1];
      Sightings(es[..|es| - 1], code)
        + if e.valute.charCode == code then [CurrencyValue(e.valute.value, e.date)] else []
  }

  /** The name carried by the first record with `code`. */
  function FirstName(es: seq<Dated>, code: string): (name: string)
    requires Sightings(es, code) != []
    ensures exists i :: 0 <= i < |es| && es[i].valute.charCode == code && es[i].valute.name == name
                        && forall j :: 0 <= j < i ==> es[j].valute.charCode != code
    decreases |es|
  {
    var prefix := es[..|es| - 1];
    if Sightings(prefix, code) != [] then
      var name := FirstName(prefix, code);
      assert forall j :: 0 <= j < |prefix| ==> prefix[j] == es[j];
      name
    else
      SightingsEmpty(prefix, code);
      assert forall j :: 0 <= j < |prefix| ==> prefix[j] == es[j];
      es[|es| - 1].valute.name
  }

  /** A code has no sightings exactly when no record carries it. */
  lemma {:induction false} SightingsEmpty(es: seq<Dated>, code: string)
    ensures Sightings(es, code) == [] <==> forall i :: 0 <= i < |es| ==> es[i].valute.charCode != code
    decreases |es|
  {
    if es != [] {
      var prefix := es[..|es| - 1];
      SightingsEmpty(prefix, code);
      assert forall j :: 0 <= j < |prefix| ==> prefix[j] == es[j];
    }
  }

  /** Applying two stretches of records one after the other is applying their
      concatenation. */
  lemma {:induction false} ApplyEventsAppend(m: map<string, CurrencyInfo>, a: seq<Dated>, b: seq<Dated>)
    ensures ApplyEvents(m, a + b) == ApplyEvents(ApplyEvents(m, a), b)
    decreases |b|
  {
    if b == [] {
      assert a + b == a;
    } else {
      var b' := b[..|b| - 1];
      assert (a + b)[..|a + b| - 1] == a + b';
      assert (a + b)[|a + b| - 1] == b[|b| - 1];
      ApplyEventsAppend(m, a, b');
    }
  }

  /** The key set grows by exactly the codes seen: no key is removed. */
  lemma {:induction false} ApplyEventsKeys(m: map<string, CurrencyInfo>, es: seq<Dated>)
    ensures ApplyEvents(m, es).Keys == m.Keys + Codes(es)
    decreases |es|
  {
    if es != [] {
      var prefix := es[..|es| - 1];
      ApplyEventsKeys(m, prefix);
    }
  }

  /** Entries of codes that no record carries are neither added, removed nor changed. */
  lemma {:induction false} UntouchedCodes(m: map<string, CurrencyInfo>, es: seq<Dated>, code: string)
    requires code !in Codes(es)
    ensures code in ApplyEvents(m, es) <==> code in m
    ensures code in m ==> ApplyEvents(m, es)[code] == m[code]
    decreases |es|
  {
    if es != [] {
      UntouchedCodes(m, es[..|es| - 1], code);
    }
  }

  /** The per-code view of the store: an entry exists exactly for the codes
      already present or seen; an existing entry has absorbed that code's
      observations; a new one was seeded with the code and the name of the
      first record carrying it, then absorbed them. Entries of codes not seen
      are left as they were. */
  lemma {:induction false} ApplyEventsPerCode(m: map<string, CurrencyInfo>, es: seq<Dated>, code: string)
    ensures code in ApplyEvents(m, es) <==> code in m || Sightings(es, code) != []
    ensures code in m ==> ApplyEvents(m, es)[code] == Accumulate(m[code], Sightings(es, code))
    ensures code !in m && Sightings(es, code) != [] ==>
              ApplyEvents(m, es)[code] == Accumulate(Seed(code, FirstName(es, code)), Sightings(es, code))
    decreases |es|
  {
    if es != [] {
      var prefix := es[..|es| - 1];
      var e := es[|es| - 1];
      var s := Sightings(prefix, code);
      ApplyEventsPerCode(m, prefix, code);
      if e.valute.charCode == code {
        var o := CurrencyValue(e.valute.value, e.date);
        assert Sightings(es, code) == s + [o];
        assert (s + [o])[..|s|] == s;
        if code !in m && s == [] {
          assert Accumulate(Seed(code, e.valute.name), []) == Seed(code, e.valute.name);
        }
      } else {
        assert Sightings(es, code) == s;
      }
    }
  }

  /** The store keeps WellFormed. */
  lemma {:induction false} ApplyEventsWellFormed(m: map<string, CurrencyInfo>, es: seq<Dated>)
    requires WellFormed(m)
    ensures WellFormed(ApplyEvents(m, es))
    decreases |es|
  {
    if es != [] {
      ApplyEventsWellFormed(m, es[..|es| - 1]);
    }
  }

  /** One more record of the same day. */
  lemma ApplyEventsTagNext(m: map<string, CurrencyInfo>, records: seq<Valute>, i: nat, date: string)
    requires i < |records|
    ensures ApplyEvents(m, Tag(records[..i + 1], date))
            == ApplyRecord(ApplyEvents(m, Tag(records[..i], date)), Dated(records[i], date))
  {
    assert Tag(records[..i + 1], date)[..i] == Tag(records[..i], date);
  }

  /** The currency map that fetchCurrencyData fills (main.go:82). */
  class CurrencyStore {
    var data: map<string, CurrencyInfo>

    ghost predicate Valid()
      reads this
    {
      WellFormed(data)
    }

    constructor ()
      ensures Valid() && data == map[]
    {
      data := map[];
    }

    /** The loop over one day's records (main.go:129-152). */
    method ApplyDay(records: seq<Valute>, dateStr: string)
      requires Valid()
      modifies this
      ensures Valid()
      ensures data == ApplyEvents(old(data), Tag(records, dateStr))
      ensures data.Keys == old(data).Keys + DayCodes(records)
    {
      for i := 0 to |records|
        invariant data == ApplyEvents(old(data), Tag(records[..i], dateStr))
      {
        ghost var before := data;
        var valute := records[i];
        var currencyInfo: CurrencyInfo;
        if valute.charCode in data {
          currencyInfo := data[valute.charCode];
        } else {
          currencyInfo := Seed(valute.charCode, valute.name);
        }

        if valute.value > currencyInfo.maxValue.value || currencyInfo.maxValue.value == 0.0 {
          currencyInfo := currencyInfo.(maxValue := CurrencyValue(valute.value, dateStr));
        }

        if valute.value < currencyInfo.minValue.value || currencyInfo.minValue.value == 0.0 {
          currencyInfo := currencyInfo.(minValue := CurrencyValue(valute.value, dateStr));
        }

        currencyInfo := currencyInfo.(totalValue := currencyInfo.totalValue + valute.value);
        currencyInfo := currencyInfo.(count := currencyInfo.count + 1);

        data := data[valute.charCode := currencyInfo];
        assert data == ApplyRecord(before, Dated(valute, dateStr));
        ApplyEventsTagNext(old(data), records, i, dateStr);
      }
      assert records[..|records|] == records;
      ApplyEventsWellFormed(old(data), Tag(records, dateStr));
      ApplyEventsKeys(old(data), Tag(records, dateStr));
      TagCodes(records, dateStr);
    }
  }
}
