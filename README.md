# Currency rate aggregation — a Dafny model

The program downloads the central bank's daily exchange-rate document for
each of the last 90 days and keeps, for every currency code, a running
statistic: the name, the highest and the lowest rate with the date each was
published for, the sum of the rates and how many rates were seen. At the end
it prints one line per currency with the mean (sum / count).

This project models that core of `main.go`:

- `Rates` (`rates.dfy`): the records (`Valute`, `CurrencyValue`,
  `CurrencyInfo`), the update one observed rate makes to an entry (`Step`,
  strict `>` / `<` with a stored 0 read as "unset"), a whole series of such
  updates (`Accumulate`), the mean, and the rewrite of the first decimal
  comma of a rate's text (`ReplaceFirstComma`).
- `Aggregation` (`aggregation.dfy`): the map from code to statistic.
  `ApplyRecord` / `ApplyEvents` specify it record by record, in processing
  order; `CurrencyStore` is the map as the program mutates it, with the
  record loop `ApplyDay` proved equal to the specification. The per-code
  lemmas relate the map to `Sightings` (the rates seen for one code, in
  order) and so to the properties proved about `Accumulate`.
- `Fetch` (`fetch.dfy`): the 90-day window (`Previous90Days`), the day loop
  that returns the map built so far at the first failed day
  (`FetchCurrencyData`), what the final map says about each currency, and
  the report (`Report`).

Rates are `real`. A day is an integer day number (`today - i` is `i` days
ago). Formatting a day as `DD/MM/YYYY` is the function parameter `format`,
so stored dates are opaque strings. Downloading and decoding the document
of the `i`-th day of the window is `outcomes[i]`: `Some(records)` on
success, `None` when the request, the transfer, the XML decoding or the
parse of a rate failed.

Three behaviours of the program worth knowing:

- `count` is the number of records seen for a code, not the number of days.
  A code listed twice in one document counts twice (`StatisticsOfRun`).
- On a tie the maximum (or minimum) keeps the first day in processing order,
  because the comparisons are strict. Days are processed newest first, so
  that is the most recent calendar date (`AccumulateMax`, `AccumulateMin`).
- A stored 0 is read as "unset" (`ZeroRateIsForgotten`). So the minimum can
  exceed an observed 0: 5, 0, 3 gives a minimum of 3. A negative rate can
  break the maximum: 0, then -1, gives a maximum of -1
  (`SentinelCounterexamples`). With rates of 0 or more the maximum still
  bounds every rate (`AccumulateMaxNonNegative`). The extreme-value lemmas
  that also name the first extreme observation, and the lemmas about the
  minimum, assume positive rates. The model keeps the sentinel as the code
  has it.

## Model

| member | source | states |
|---|---|---|
| Rates.AccumulateBookkeeping | main.go:129-149 | over any series of rates for one entry, code and name never change, count grows by the number of rates and the total by their sum |
| Rates.AccumulateMax | main.go:138-141 | starting from an unset maximum and given positive rates, maxValue is the first observation (value and date) carrying the largest rate; a later equal rate does not replace it |
| Rates.AccumulateMin | main.go:143-146 | the same for minValue: the first observation carrying the smallest rate |
| Rates.AccumulateMaxNonNegative | main.go:138-141 | starting from an unset maximum and given rates of 0 or more, the recorded maximum is at least 0 and at least every rate seen |
| Rates.SentinelCounterexamples | main.go:138-146 | after 5, 0, 3 the minimum is 3 with the third date, although 0 was seen; after 0, -1 the maximum is -1 with the second date, although 0 was seen |
| Rates.ZeroRateIsForgotten | main.go:138-146 | a stored rate of 0 reads as unset: after a 0 the next rate overwrites the minimum, and also the maximum if that was unset, whatever its size |
| Rates.TwoDaysScenario | main.go:138-149 | 90.00 then 95.00 give max 95.00 with the second date, min 90.00 with the first date, count 2, mean 92.50; two equal rates keep the first date as the maximum's |
| Rates.ObservationsWithinExtremes | main.go:138-146 | with positive rates, every rate seen lies between the recorded minimum and maximum |
| Rates.Mean | main.go:61 | the mean times the count is the total |
| Rates.MeanBetweenMinAndMax | main.go:61 | for positive rates the printed mean lies between the recorded minimum and maximum |
| Rates.CommaIndex | main.go:50 | the position of the first comma, or the length when there is none |
| Rates.ReplaceFirstComma | main.go:50 | the length is kept; a text without a comma is unchanged; otherwise exactly the first comma becomes a period and later commas stay |
| Rates.ReplaceFirstCommaSplit | main.go:50 | a text p,q whose part p has no comma becomes p.q (so "65,4321" becomes "65.4321") |
| Aggregation.DayCodesMembers | main.go:129-130 | a code is among a day's codes exactly when one of the day's records carries it |
| Aggregation.TagCodes | main.go:129-151 | the records of a day, tagged with its date, carry exactly the day's codes |
| Aggregation.FirstName | main.go:131-136 | the name of the first record carrying the code |
| Aggregation.SightingsEmpty | main.go:129-130 | a code has no observations exactly when no record carries it |
| Aggregation.ApplyEventsAppend | main.go:84-152 | applying two runs of records in turn equals applying their concatenation |
| Aggregation.ApplyEventsKeys | main.go:130-151 | the key set after a run of records is the old key set plus the codes seen; no key is removed |
| Aggregation.UntouchedCodes | main.go:151 | the entry of a code no record carries is not added, removed or changed |
| Aggregation.ApplyEventsPerCode | main.go:129-152 | an entry exists iff the code was present or seen; an existing entry has absorbed exactly that code's rates in order; a new one is seeded with the code and the first record's name, then absorbs them |
| Aggregation.ApplyEventsWellFormed | main.go:130-151 | every entry stays filed under its own code with a count of at least 1 |
| Aggregation.CurrencyStore.constructor | main.go:82 | the store starts empty |
| Aggregation.CurrencyStore.ApplyDay | main.go:129-152 | the record loop leaves the map equal to the specified fold of the day's records; its keys are the old keys plus the codes of the day's records; the invariant is kept |
| Fetch.Previous90Days | main.go:76-80 | 90 days, the first is today, entry i is today − i, strictly descending |
| Fetch.Completed | main.go:84-127 | the number of leading days that succeeded: all of them succeeded and the next one, if any, failed |
| Fetch.FetchCurrencyData | main.go:69-156 | the returned map is the store after every record of the days before the first failed day and of none after, and every entry has count at least 1 |
| Fetch.LaterDaysIgnored | main.go:91-127 | if day k failed, what days after k would have returned makes no difference to the result |
| Fetch.StatisticsOfRun | main.go:129-152 | after a run, an entry exists exactly for the codes seen; it has its own code, the first record's name, the number of records with that code as count and their sum as total |
| Fetch.ExtremesOfRun | main.go:138-146 | with positive rates, the entry's maximum and minimum are the first observations with the largest and smallest rate, and its mean lies between them |
| Fetch.Report | main.go:59-67 | one line per entry, with its name, maximum, minimum and their dates, and a mean whose product with the count is the total |

## Left out

- The HTTP request, its User-Agent header, `client.Do`, reading the body and the deferred `Body.Close` that calls `log.Fatal` (main.go:70, 88-116): network I/O, replaced by the per-day outcome.
- XML decoding with charset detection (main.go:118-127): a foreign library; decoded records are input.
- `strconv.ParseFloat` (main.go:51): foreign float parsing; only the comma rewrite before it is modelled. The ignored error of `DecodeElement` (main.go:49) is not modelled either.
- float32 storage, rounding and accumulation (main.go:36, 45, 61, 148): rates and totals are exact `real`s.
- `time.Now`, `AddDate` and `Format("02/01/2006")` (main.go:73, 78, 86): today is a day number and the formatting is the parameter `format`.
- The error messages printed on a failed day (main.go:93, 102, 114, 125) and the `fmt.Printf` report with its unordered map iteration (main.go:60-66): output only; `Report` returns the lines as a map.
- `NumCode` and `Nominal` are decoded but never used by the aggregation, as in the source; the rate is not divided by the nominal.
- Rates.Mean: requires a count of at least 1. Go's float32 division by zero would give an infinity or NaN instead. Every entry of the final map has a count of at least 1 (`FetchCurrencyData`), so this case never arises.
- Fetch.FetchCurrencyData: requires exactly 90 day outcomes. They stand for the environment's answers for the 90 requests, not for an input of the program.
