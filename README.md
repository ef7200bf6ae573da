# Endpoint health monitor: one polling cycle

This project models, in Dafny, the per-cycle computation of a small endpoint
health-check poller (`main.py`). Each cycle does four things:

- It probes every configured endpoint once.
- It classifies each outcome as UP or DOWN.
- It counts, per domain, how many probes there were and how many were UP.
- It formats a text block holding one availability percentage per domain.

The model has five modules, one per component of that cycle:

- `Probe` (`probe.dfy`). This module holds the outcome of a request: a
  `Response(code)`, or `Raised(kind)` for an `Exception` raised before a 2xx
  status was seen, the 0.5 s timeout included. A 2xx response followed by an
  exception while the response is closed counts as `Response(code)`, because
  the code has set UP by then and swallows the exception. `Classify` turns an outcome into UP or DOWN, and the imperative
  `CheckHealth` produces a `(domain, status)` result. A domain is `Host(name)`,
  or `NoHost` when the URL has no hostname.
- `Aggregation` (`aggregation.dfy`). `DomainStatsTable` is the per-cycle
  default dictionary. It is a class with a key sequence that keeps insertion
  order and a map from domain to `Counter(up, total)`. `Touch` inserts zero
  counters for a missing key, as a default dictionary does, and `Record`
  counts one result. `AggregateResults` builds a fresh table and feeds it the
  results in order. It is proved equal to the specification function
  `Aggregate`, which is built from `Tally` (the counters of one domain) and
  `FirstSeen` (the distinct domains in first-appearance order).
- `Availability` (`availability.dfy`). This module computes
  `round(100 * up / total)` exactly, on integers, with Python's
  round-half-to-even.
- `Report` (`report.dfy`). This module holds decimal rendering, the
  availability line, and the imperative `BuildReport`, which appends one line
  per entry. `SplitLines` splits a text at its line breaks and is used to state
  what the block contains.
- `Monitor` (`monitor.dfy`). `RunCycle` runs one cycle: probe, aggregate,
  report. `CycleReport` is the function that specifies it.

Some consequences of the code that the model makes explicit:

- A URL without a hostname aggregates under the key `None`, and the f-string
  prints it as `None`. The model keeps `NoHost` as its own key and renders it
  as `None`.
- Python's `round` rounds half to even: 12.5 gives 12 and 37.5 gives 38
  (`PercentExamples`).
- An empty endpoint list still yields a block: the header followed by `---`
  (`EmptyConfigReport`).
- 0% and 100% are exact only below 200 results per domain. From 200 results
  on, one probe is worth at most half a percent, so 1 of 200 rounds to 0% and
  199 of 200 rounds to 100% (`PercentLosesOneProbeAt200`).

## Model

| member | source | states |
|---|---|---|
| `Probe.Classify` | main.py:35-44 | The status is UP exactly when a response arrived with a code in [200, 300). Every other code, and an `Exception` raised before a 2xx status was seen, is DOWN. |
| `Probe.ClassifyIsSuccessfulClass` | main.py:40 | UP is exactly a response whose status class `code / 100`, the hundreds class, is 2: the "Successful" class of section 15.3 of RFC 9110. |
| `Probe.ClassifyBoundaries` | main.py:40 | 200 and 299 are UP. 199, 300, 404, 503, a timeout and a refused connection are DOWN. |
| `Probe.CheckHealth` | main.py:30-44 | Starts with DOWN and overwrites it with UP only for a 2xx response. Returns the endpoint's own domain with that status. |
| `Aggregation.Tally` | main.py:62-65 | A domain's counters never have more UP results than results, nor more results than there are in the cycle. |
| `Aggregation.FirstSeen` | main.py:61-63 | The table's keys: each domain of the results once, and exactly those domains. |
| `Aggregation.DomainStatsTable.constructor` | main.py:61 | A new table is empty. |
| `Aggregation.DomainStatsTable.Touch` | main.py:63 | Reading a missing key inserts zero counters and appends the key at the end of the order. Reading a present key changes nothing. |
| `Aggregation.DomainStatsTable.Record` | main.py:62-65 | Adds one to `total` of the result's domain, and one to `up` when the result is UP. A new domain goes at the end of the key order. Nothing else changes, and the table invariant is kept: distinct keys, `1 <= total`, `up <= total`. |
| `Aggregation.DomainStatsTable.Items` | main.py:68 | The entries come in key insertion order, each with its stored counters, and each has `1 <= total` and `up <= total`. |
| `Aggregation.Aggregate` | main.py:61-65 | The finished table: one entry per distinct domain, in first-seen order, each with `up <= total`. |
| `Aggregation.AggregateResults` | main.py:61-65 | A fresh table fed the results in order ends up as `Aggregate(results)`. Its contents therefore depend on this cycle's results alone. |
| `Aggregation.TallyCountsOccurrences` | main.py:62-65 | `up` is the number of `(d, UP)` results. `total` is the number of `(d, UP)` plus `(d, DOWN)` results. |
| `Aggregation.OrderDoesNotChangeCounts` | main.py:62-65 | Any permutation of the results gives the same counters for every domain and the same set of domains. The entries are the same too, possibly in another order. |
| `Aggregation.AggregateEntries` | main.py:61-65 | Every entry's domain occurs in the results. Every entry has `1 <= total` and `0 <= up <= total`, and its counters are the occurrence counts of its domain. |
| `Aggregation.AggregateSize` | main.py:62-63 | There are as many entries as distinct domains. |
| `Aggregation.AggregateTotal` | main.py:59-65 | The `total` counters add up to the number of results. |
| `Aggregation.FirstIndex` | main.py:62 | The position of a domain's first result. The domain is there, and no earlier result has it. |
| `Aggregation.FirstSeenOrder` | main.py:59-63 | Entries are ordered by the position of their domain's first result, which is configuration order. |
| `Availability.RoundHalfEven` | main.py:69 | Python's `round` of an exact quotient: the quotient rounded down or up, and a whole quotient left unchanged. |
| `Availability.RoundHalfEvenIsNearest` | main.py:69 | The rounded quotient is within one half of the exact quotient. On an exact tie it is even. |
| `Availability.NearestEvenIsUnique` | main.py:69 | Those two properties determine the rounded value. |
| `Availability.Percent` | main.py:69 | The availability `round(100 * up / total)`: the quotient rounded down or up, unchanged when whole, and 0 when no probe is UP. |
| `Availability.PercentIsNearest` | main.py:69 | The percentage is the nearest integer to `100 * up / total`, the even one on a tie. |
| `Availability.PercentBounds` | main.py:69 | When `up <= total`, the percentage is between 0 and 100. |
| `Availability.PercentMonotonic` | main.py:69 | More UP results never give a lower percentage. |
| `Availability.PercentExtremes` | main.py:69 | All UP gives 100. None UP gives 0. |
| `Availability.PercentExactAtEnds` | main.py:69 | Below 200 results per domain, 100 holds iff `up == total`, and 0 holds iff `up == 0`. |
| `Availability.PercentLosesOneProbeAt200` | main.py:69 | At 200 results, 1 UP rounds to 0 and 199 UP round to 100. |
| `Availability.PercentExamples` | main.py:69 | The worked cases: 1 of 3 is 33, 2 of 3 is 67, 1 of 2 is 50. The ties 1 of 8 and 3 of 8 give 12 and 38. |
| `Report.NatToString` | main.py:70 | Renders a number as decimal digits. The digits denote the number and have no leading zero. |
| `Report.NatToStringExamples` | main.py:70 | 0, 50 and 100 render as "0", "50" and "100". |
| `Report.DomainText` | main.py:70 | A hostname renders as itself, and a missing hostname as `None`. Only a missing hostname, or a host literally named `None`, renders as `None`. |
| `Report.Header` | main.py:58 | The first line: `Run started at: `, then the timestamp, then a line break. It is one line when the timestamp has no line break. |
| `Report.Footer` | main.py:71 | The closing `---` with its line break, one line. |
| `Report.LineText` | main.py:70 | The line reads: the domain, ` has `, decimal digits denoting the percentage without leading zeros, then `% availability percentage`. |
| `Report.AvailabilityLine` | main.py:70 | The line ends with a line break. When the domain has no line break, it is exactly one line, `LineText`. |
| `Report.ReportBlock` | main.py:58-71 | The block opens with the header and closes with `---` and a final line break. |
| `Report.LinesAppend` | main.py:68-70 | Appending one entry appends exactly its availability line. |
| `Report.BuildReport` | main.py:58-71 | Starting from the header and appending one line per entry, then `---`, builds exactly `ReportBlock(ts, entries)`. |
| `Report.ReportLines` | main.py:57-71 | Split at line breaks, the block is the line `Run started at: <ts>`, then one line `<domain> has <N>% availability percentage` per entry in table order, then `---`, and nothing else. The final line break is stated by `ReportBlock`. |
| `Monitor.ProbeResults` | main.py:59-60 | One result per endpoint, in configuration order. Result i carries endpoint i's domain, and is UP exactly when outcome i is a 2xx response. |
| `Monitor.CycleReport` | main.py:57-71 | The cycle's block opens with its header and closes with `---`. |
| `Monitor.RunCycle` | main.py:57-71 | Probing each endpoint in configuration order, aggregating in a fresh table and formatting produce `CycleReport(ts, config, outcomes)`. |
| `Monitor.ProbeIsolation` | main.py:59-60 | Given the outcomes, endpoint i's status depends only on outcome i. |
| `Monitor.CycleReportShape` | main.py:57-71 | A cycle's block has the header line, then exactly one line per distinct configured domain in first-seen order, then `---`. The entries' totals add up to the number of endpoints. |
| `Monitor.EmptyConfigReport` | main.py:57-71 | With no endpoints, the block is the header followed by `---`. |
| `Monitor.TwoDomainScenario` | main.py:57-71 | Take a.test/x answering 200, a.test/y timing out and b.test/z answering 503. The block then reads 50% for a.test and 0% for b.test. |

## Left out

- Loading the YAML configuration and opening the file (main.py:11-21): file I/O and a foreign parser. Endpoints are given as values.
- Extracting the hostname with `urlparse(...).hostname` (main.py:20): a library call. Each endpoint carries its domain, and `NoHost` stands for `None`.
- The HTTP request itself (main.py:31-33, 38-39): the method, headers and JSON body, the shared client session, and the 0.5 s total timeout. These are network I/O. The request's outcome is an input, and a timeout is one kind of `Raised` outcome.
- Probes interfering with one another (main.py:55, 59-60): the outcomes are taken as independent per-endpoint inputs. In the code all probes share one `ClientSession`, whose connection pool is bounded. The 0.5 s timeout includes time spent waiting for a pooled connection, so many hanging endpoints can make others time out. What the code does guarantee, through `except Exception` inside `check_health`, is that one probe's error does not propagate through `gather`.
- Exceptions that are not `Exception` (main.py:42): `asyncio.CancelledError` and `KeyboardInterrupt` derive only from `BaseException`. They escape `check_health` and `gather` and end the cycle. The model has no outcome for them.
- The concurrent fan-out with `asyncio.gather` (main.py:59-60): concurrency. The model keeps only what `gather` guarantees, that results come back one per endpoint in configuration order. `RunCycle` probes the endpoints in that order.
- The endless `while True` loop and `asyncio.sleep(interval)` (main.py:56, 79): scheduling and time. The model covers one cycle, and no state survives from one cycle to the next.
- Reading the clock with `datetime.now().strftime(...)` (main.py:57): the start timestamp is a string parameter.
- Appending the block to the log file, or printing it (main.py:73-77): I/O. The model stops at the produced string. `print` would add one more line break; that is not modelled.
- Command-line parsing and the `KeyboardInterrupt` handler (main.py:81-103): CLI plumbing and signal handling.
- Percent: computes `100 * up / total` exactly, not as a floating-point division followed by `round`. For counts of realistic size the two agree; for astronomically large counts the float quotient could round differently.
- PercentExactAtEnds: states the 0% and 100% equivalences only for fewer than 200 results per domain, because they are false from 200 on (see `PercentLosesOneProbeAt200`).
- ReportLines, CycleReportShape: require that the timestamp and the domain names contain no line break. This holds for `strftime` output and for URL hostnames.
- The requirement that each `total` is positive before dividing (`AllCounted`) stands in for the `ZeroDivisionError` the code would raise. It cannot happen, because every table entry has been counted at least once (`AggregateEntries`).
