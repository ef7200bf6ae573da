/**
 One cycle of the monitoring loop: probe every configured endpoint, count
 the results per domain in a fresh table, and build the cycle's log block.
 The start time and the request outcomes are inputs of the cycle.
 */
module Monitor {
  import opened Probe
  import opened Aggregation
  import opened Availability
  import opened Report

  /** The health-check results of a cycle, in configuration order: result
      `i` comes from endpoint `i` and its outcome `i`. */
  function ProbeResults(config: seq<Endpoint>, outcomes: seq<Outcome>): (results: seq<ProbeResult>)
    requires |outcomes| == |config|
    ensures |results| == |config|
    ensures forall i :: 0 <= i < |config| ==> results[i].domain == config[i].domain
    ensures forall i :: 0 <= i < |config| ==>
      (results[i].status == Up <==> outcomes[i].Response? && 200 <= outcomes[i].code < 300)
  {
    seq(|config|, i requires 0 <= i < |config| => ProbeResult(config[i].domain, Classify(outcomes[i])))
  }

  /** The block a cycle writes, given its start time and outcomes. It opens
      with the header and closes with `---`; `CycleReportShape` states the
      lines in between. */
  function CycleReport(ts: string, config: seq<Endpoint>, outcomes: seq<Outcome>): (s: string)
    requires |outcomes| == |config|
    ensures |s| >= |Header(ts)| + |Footer()|
    ensures s[..|Header(ts)|] == Header(ts)
    ensures s[|s| - |Footer()|..] == Footer()
  {
    var results := ProbeResults(config, outcomes);
    AggregateEntries(results);
    ReportBlock(ts, Aggregate(results))
  }

  /** One pass of the loop body. The table is created inside the call, so
      the block depends on this cycle's inputs only. */
  method RunCycle(ts: string, config: seq<Endpoint>, outcomes: seq<Outcome>) returns (logMessage: string)
    requires |outcomes| == |config|
    ensures logMessage == CycleReport(ts, config, outcomes)
  {
    var results: seq<ProbeResult> := [];
    for i := 0 to |config|
      invariant |results| == i
      invariant forall k :: 0 <= k < i ==> results[k] == ProbeResult(config[k].domain, Classify(outcomes[k]))
    {
      var r := CheckHealth(config[i], outcomes[i]);
      results := results + [r];
    }
    assert results == ProbeResults(config, outcomes);
    var entries := AggregateResults(results);
    AggregateEntries(results);
    logMessage := BuildReport(ts, entries);
  }

  /** Given the outcomes, result `i` depends only on endpoint `i` and
      outcome `i`. */
  lemma ProbeIsolation(config: seq<Endpoint>, outcomes1: seq<Outcome>, outcomes2: seq<Outcome>, i: nat)
    requires |outcomes1| == |config| && |outcomes2| == |config|
    requires i < |config| && outcomes1[i] == outcomes2[i]
    ensures ProbeResults(config, outcomes1)[i] == ProbeResults(config, outcomes2)[i]
  {
  }

  /** The set of domains of the configuration. */
  ghost function ConfigDomains(config: seq<Endpoint>): set<Domain>
  {
    set e | e in config :: e.domain
  }

  /** What a cycle's block says: the header, then one availability line per
      distinct configured domain in configuration order, then `---`; the
      counters behind those lines add up to the number of endpoints. */
  lemma CycleReportShape(ts: string, config: seq<Endpoint>, outcomes: seq<Outcome>)
    requires |outcomes| == |config|
    requires '\n' !in ts
    requires forall e :: e in config ==> '\n' !in DomainText(e.domain)
    ensures var entries := Aggregate(ProbeResults(config, outcomes));
      && AllCounted(entries)
      && SplitLines(CycleReport(ts, config, outcomes))
         == ["Run started at: " + ts] + LineTexts(entries) + ["---"]
      && |entries| == |ConfigDomains(config)|
      && TotalOf(entries) == |config|
  {
    var results := ProbeResults(config, outcomes);
    var entries := Aggregate(results);
    AggregateEntries(results);
    assert DomainsOf(results) == ConfigDomains(config) by {
      forall d ensures d in DomainsOf(results) <==> d in ConfigDomains(config) {
        if d in DomainsOf(results) {
          var r :| r in results && r.domain == d;
          var i :| 0 <= i < |results| && results[i] == r;
          assert config[i] in config;
        }
        if d in ConfigDomains(config) {
          var e :| e in config && e.domain == d;
          var i :| 0 <= i < |config| && config[i] == e;
          assert results[i] in results;
        }
      }
    }
    assert SingleLineDomains(entries) by {
      forall k | 0 <= k < |entries| ensures '\n' !in DomainText(entries[k].domain) {
        assert entries[k] in entries;
        var d := entries[k].domain;
        assert d in ConfigDomains(config);
        var e :| e in config && e.domain == d;
      }
    }
    ReportLines(ts, entries);
    AggregateSize(results);
    AggregateTotal(results);
  }

  /** With no endpoints configured, a cycle still writes a block: the header
      and the closing line, with no availability line between them. */
  lemma EmptyConfigReport(ts: string)
    ensures CycleReport(ts, [], []) == "Run started at: " + ts + "\n" + "---\n"
  {
    assert ProbeResults([], []) == [];
    assert Aggregate([]) == [];
    assert Lines([]) == "";
    assert Header(ts) + "" == Header(ts);
  }

  /** Two endpoints on a.test (one answers 200, one times out) and one on
      b.test (answers 503) give 50% for a.test and 0% for b.test. */
  lemma TwoDomainScenario(ts: string)
    ensures CycleReport(ts,
      [Endpoint("http://a.test/x", Host("a.test")),
       Endpoint("http://a.test/y", Host("a.test")),
       Endpoint("http://b.test/z", Host("b.test"))],
      [Response(200), Raised(Timeout), Response(503)])
      == "Run started at: " + ts + "\n"
       + ("a.test" + " has " + "50" + "% availability percentage" + "\n")
       + ("b.test" + " has " + "0" + "% availability percentage" + "\n")
       + "---\n"
  {
    ScenarioAggregate();
    ScenarioBlock(ts);
  }

  lemma ScenarioAggregate()
    ensures Aggregate(ProbeResults(
      [Endpoint("http://a.test/x", Host("a.test")),
       Endpoint("http://a.test/y", Host("a.test")),
       Endpoint("http://b.test/z", Host("b.test"))],
      [Response(200), Raised(Timeout), Response(503)]))
      == [DomainStats(Host("a.test"), 1, 2), DomainStats(Host("b.test"), 0, 1)]
  {
    var a, b := Host("a.test"), Host("b.test");
    var results := [ProbeResult(a, Up), ProbeResult(a, Down), ProbeResult(b, Down)];
    assert ProbeResults(
      [Endpoint("http://a.test/x", a), Endpoint("http://a.test/y", a), Endpoint("http://b.test/z", b)],
      [Response(200), Raised(Timeout), Response(503)]) == results;
    ScenarioCounts();
  }

  lemma ScenarioCounts()
    ensures var results := [ProbeResult(Host("a.test"), Up), ProbeResult(Host("a.test"), Down),
                            ProbeResult(Host("b.test"), Down)];
      && FirstSeen(results) == [Host("a.test"), Host("b.test")]
      && Tally(results, Host("a.test")) == Counter(1, 2)
      && Tally(results, Host("b.test")) == Counter(0, 1)
  {
    var a, b := Host("a.test"), Host("b.test");
    var r1 := [ProbeResult(a, Up)];
    var r2 := r1 + [ProbeResult(a, Down)];
    var results := r2 + [ProbeResult(b, Down)];
    assert Init(results) == r2 && Init(r2) == r1 && Init(r1) == [];
    assert FirstSeen(r2) == [a] && Tally(r2, a) == Counter(1, 2) && Tally(r2, b) == Counter(0, 0) by {
      assert FirstSeen(r1) == [a];
      assert Tally(r1, a) == Counter(1, 1) && Tally(r1, b) == Counter(0, 0);
    }
    assert [ProbeResult(a, Up), ProbeResult(a, Down), ProbeResult(b, Down)] == results;
  }

  lemma ScenarioBlock(ts: string)
    ensures ReportBlock(ts, [DomainStats(Host("a.test"), 1, 2), DomainStats(Host("b.test"), 0, 1)])
      == "Run started at: " + ts + "\n"
       + ("a.test" + " has " + "50" + "% availability percentage" + "\n")
       + ("b.test" + " has " + "0" + "% availability percentage" + "\n")
       + "---\n"
  {
    var l1 := "a.test" + " has " + "50" + "% availability percentage" + "\n";
    var l2 := "b.test" + " has " + "0" + "% availability percentage" + "\n";
    ScenarioLines();
    SeqAssoc(Header(ts), l1, l2);
  }

  lemma ScenarioLines()
    ensures Lines([DomainStats(Host("a.test"), 1, 2), DomainStats(Host("b.test"), 0, 1)])
      == ("a.test" + " has " + "50" + "% availability percentage" + "\n")
       + ("b.test" + " has " + "0" + "% availability percentage" + "\n")
  {
    ScenarioLineA();
    ScenarioLineB();
    LinesOfTwo(DomainStats(Host("a.test"), 1, 2), DomainStats(Host("b.test"), 0, 1));
  }

  lemma ScenarioLineA()
    ensures AvailabilityLine(DomainStats(Host("a.test"), 1, 2))
         == "a.test" + " has " + "50" + "% availability percentage" + "\n"
  {
    PercentExamples();
    NatToStringExamples();
  }

  lemma ScenarioLineB()
    ensures AvailabilityLine(DomainStats(Host("b.test"), 0, 1))
         == "b.test" + " has " + "0" + "% availability percentage" + "\n"
  {
    PercentExtremes(1);
    NatToStringExamples();
  }

  lemma LinesOfTwo(x: DomainStats, y: DomainStats)
    requires x.total > 0 && y.total > 0
    ensures Lines([x, y]) == AvailabilityLine(x) + AvailabilityLine(y)
  {
    var lx, ly := AvailabilityLine(x), AvailabilityLine(y);
    assert [y][1..] == [];
    assert Lines([y]) == ly + "";
    assert ly + "" == ly;
    assert [x, y][1..] == [y];
    assert Lines([x, y]) == lx + Lines([y]);
  }
}
