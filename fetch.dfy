/** fetchCurrencyData and analyzeCurrencyData (main.go:59-156): the 90-day
    window, the day loop that stops at the first failed day and keeps what it
    has, and the per-currency report.

    Days are integer day numbers (today - i is i days ago). Formatting a day
    as "DD/MM/YYYY" is the parameter `format`; downloading and decoding the
    document of the i-th day of the window is `outcomes[i]`, None when any
    step of it failed. */
module Fetch {
  import opened Wrappers
  import opened Rates
  import opened Aggregation

  const WindowSize := 90

  /** previous90Days (main.go:76-80): today, today - 1, ..., today - 89. */
  method Previous90Days(today: int) returns (days: seq<int>)
    ensures |days| == WindowSize && days[0] == today
    ensures forall i :: 0 <= i < |days| ==> days[i] == today - i
    ensures forall i, j :: 0 <= i < j < |days| ==> days[i] > days[j]
  {
    days := [];
    for i := 0 to WindowSize
      invariant |days| == i
      invariant forall k :: 0 <= k < i ==> days[k] == today - k
    {
      var date := today - i;
      days := days + [date];
    }
  }

  /** The number of leading days whose download and decoding succeeded: the
      day loop runs them all and returns at the next one. */
  function Completed(outcomes: seq<Option<seq<Valute>>>): (n: nat)
    ensures n <= |outcomes|
    ensures forall j :: 0 <= j < n ==> outcomes[j].Some?
    ensures n < |outcomes| ==> outcomes[n].None?
  {
    if outcomes == [] || outcomes[0].None? then 0 else 1 + Completed(outcomes[1..])
  }

  /** Completed is the index of the first failed day, or the length when no day failed. */
  lemma CompletedAt(outcomes: seq<Option<seq<Valute>>>, n: nat)
    requires n <= |outcomes|
    requires forall j :: 0 <= j < n ==> outcomes[j].Some?
    requires n < |outcomes| ==> outcomes[n].None?
    ensures Completed(outcomes) == n
  {
  }

  /** The records of the first `n` days of the window, in processing order,
      each tagged with its day's formatted date. */
  function Received(outcomes: seq<Option<seq<Valute>>>, today: int, format: int -> string, n: nat): seq<Dated>
    requires n <= |outcomes|
  {
    if n == 0 then []
    else
      Received(outcomes, today, format, n - 1)
        + match outcomes[n - 1]
          case Some(records) => Tag(records, format(today - (n - 1)))
          case None => []
  }

  /** fetchCurrencyData (main.go:69-156), with the network and XML decoding
      replaced by `outcomes`. The result is the store after every record of
      the days before the first failed day, and nothing of that day or later. */
  method FetchCurrencyData(today: int, format: int -> string, outcomes: seq<Option<seq<Valute>>>)
    returns (currencyData: map<string, CurrencyInfo>)
    requires |outcomes| == WindowSize
    ensures currencyData == ApplyEvents(map[], Received(outcomes, today, format, Completed(outcomes)))
    ensures WellFormed(currencyData)
  {
    var previous90Days := Previous90Days(today);
    var store := new CurrencyStore();

    for i := 0 to |previous90Days|
      invariant store.Valid()
      invariant forall j :: 0 <= j < i ==> outcomes[j].Some?
      invariant store.data == ApplyEvents(map[], Received(outcomes, today, format, i))
    {
      var dateStr := format(previous90Days[i]);
      match outcomes[i]
      case None =>
        CompletedAt(outcomes, i);
        currencyData := store.data;
        return;
      case Some(records) =>
        ghost var before := store.data;
        store.ApplyDay(records, dateStr);
        ReceivedNextDay(before, store.data, outcomes, records, today, format, dateStr, i);
    }
    CompletedAt(outcomes, |outcomes|);
    currencyData := store.data;
  }

  /** Applying day i's records to the store of days 0..i-1 gives the store of days 0..i. */
  lemma ReceivedNextDay(m: map<string, CurrencyInfo>, m': map<string, CurrencyInfo>,
                        outcomes: seq<Option<seq<Valute>>>, records: seq<Valute>,
                        today: int, format: int -> string, dateStr: string, i: nat)
    requires i < |outcomes| && outcomes[i] == Some(records)
    requires dateStr == format(today - i)
    requires m == ApplyEvents(map[], Received(outcomes, today, format, i))
    requires m' == ApplyEvents(m, Tag(records, dateStr))
    ensures m' == ApplyEvents(map[], Received(outcomes, today, format, i + 1))
  {
    ApplyEventsAppend(map[], Received(outcomes, today, format, i), Tag(records, dateStr));
  }

  /** A failure on day k keeps exactly days 0..k-1: whatever the later days
      would have returned makes no difference. */
  lemma LaterDaysIgnored(a: seq<Option<seq<Valute>>>, b: seq<Option<seq<Valute>>>, k: nat,
                         today: int, format: int -> string)
    requires |a| == |b| && k < |a|
    requires a[..k + 1] == b[..k + 1] && a[k].None?
    ensures Completed(a) == Completed(b) <= k
    ensures Received(a, today, format, Completed(a)) == Received(b, today, format, Completed(b))
  {
    assert forall j :: 0 <= j <= k ==> a[j] == b[j] by {
      forall j | 0 <= j <= k ensures a[j] == b[j] {
        assert a[..k + 1][j] == b[..k + 1][j];
      }
    }
    ReceivedAgree(a, b, today, format, Completed(a));
  }

  lemma {:induction false} ReceivedAgree(a: seq<Option<seq<Valute>>>, b: seq<Option<seq<Valute>>>,
                                         today: int, format: int -> string, n: nat)
    requires n <= |a| && n <= |b|
    requires forall j :: 0 <= j < n ==> a[j] == b[j]
    ensures Received(a, today, format, n) == Received(b, today, format, n)
  {
    if n > 0 {
      ReceivedAgree(a, b, today, format, n - 1);
    }
  }

  /** What the final map says about each currency, in terms of the records
      the run processed (`es`, in processing order): the entry exists exactly
      for the codes seen; it is filed under its code with the name of the first
      record seen; its count is the number of records with that code (two in
      one day count twice) and its total their sum. */
  lemma StatisticsOfRun(es: seq<Dated>, code: string)
    ensures code in ApplyEvents(map[], es) <==> Sightings(es, code) != []
    ensures code in ApplyEvents(map[], es) <==> exists i :: 0 <= i < |es| && es[i].valute.charCode == code
    ensures code in ApplyEvents(map[], es) ==>
              var info := ApplyEvents(map[], es)[code];
              && info.code == code
              && info.name == FirstName(es, code)
              && info.count == |Sightings(es, code)|
              && info.totalValue == Sum(Sightings(es, code))
  {
    ApplyEventsPerCode(map[], es, code);
    SightingsEmpty(es, code);
    if code in ApplyEvents(map[], es) {
      AccumulateBookkeeping(Seed(code, FirstName(es, code)), Sightings(es, code));
    }
  }

  /** When every rate seen for a code is positive, maxValue is the first
      record (in processing order, so the newest day) carrying the largest
      rate, minValue the first carrying the smallest, and the mean lies
      between them. */
  lemma ExtremesOfRun(es: seq<Dated>, code: string)
    requires code in ApplyEvents(map[], es)
    requires AllPositive(Sightings(es, code))
    ensures var info := ApplyEvents(map[], es)[code];
      && IsFirstMaximum(Sightings(es, code), info.maxValue)
      && IsFirstMinimum(Sightings(es, code), info.minValue)
      && info.count >= 1
      && info.minValue.value <= Mean(info) <= info.maxValue.value
  {
    ApplyEventsPerCode(map[], es, code);
    var seed := Seed(code, FirstName(es, code));
    AccumulateMax(seed, Sightings(es, code));
    AccumulateMin(seed, Sightings(es, code));
    MeanBetweenMinAndMax(code, FirstName(es, code), Sightings(es, code));
  }

  /** One line of the report (main.go:63-65), before formatting. */
  datatype ReportLine = ReportLine(
    name: string,
    maxValue: real, maxDate: string,
    minValue: real, minDate: string,
    average: real)

  /** analyzeCurrencyData (main.go:59-67): one line per currency, the mean
      being total / count. Printing and its unordered iteration are left out. */
  function Report(currencyData: map<string, CurrencyInfo>): (lines: map<string, ReportLine>)
    requires WellFormed(currencyData)
    ensures lines.Keys == currencyData.Keys
    ensures forall c :: c in lines ==>
              && lines[c].name == currencyData[c].name
              && lines[c].maxValue == currencyData[c].maxValue.value
              && lines[c].maxDate == currencyData[c].maxValue.date
              && lines[c].minValue == currencyData[c].minValue.value
              && lines[c].minDate == currencyData[c].minValue.date
              && lines[c].average * currencyData[c].count as real == currencyData[c].totalValue
  {
    map c | c in currencyData ::
      var info := currencyData[c];
      ReportLine(info.name, info.maxValue.value, info.maxValue.date,
                 info.minValue.value, info.minValue.date, Mean(info))
  }
}
