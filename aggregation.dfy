/**
 Per-domain aggregation of one cycle's probe results. The results arrive in
 configuration order; a fresh table, keyed by domain and ordered by first
 insertion, counts for each domain how many probes there were and how many
 were UP.
 */
module Aggregation {
  import opened Probe

  /** The two counters kept for one domain. */
  datatype Counter = Counter(up: nat, total: nat)

  /** One entry of the finished table, as the report reads it. */
  datatype DomainStats = DomainStats(domain: Domain, up: nat, total: nat)

  ghost predicate Distinct<T>(s: seq<T>)
  {
    forall i, j :: 0 <= i < j < |s| ==> s[i] != s[j]
  }

  /** The set of domains that occur in `results`. */
  ghost function DomainsOf(results: seq<ProbeResult>): set<Domain>
  {
    set r | r in results :: r.domain
  }

  function Last<T>(s: seq<T>): T
    requires s != []
  {
    s[|s| - 1]
  }

  function Init<T>(s: seq<T>): seq<T>
    requires s != []
  {
    s[..|s| - 1]
  }

  /** The counters of domain `d` in `results`: the number of results for `d`,
      and how many of them are UP. */
  function Tally(results: seq<ProbeResult>, d: Domain): (c: Counter)
    ensures c.up <= c.total
    ensures c.total <= |results|
  {
    if results == [] then Counter(0, 0)
    else
      var c := Tally(Init(results), d);
      var r := Last(results);
      if r.domain != d then c
      else Counter(if r.status == Up then c.up + 1 else c.up, c.total + 1)
  }

  /** The distinct domains of `results`, each once, in the order in which
      they first appear. */
  function FirstSeen(results: seq<ProbeResult>): (ds: seq<Domain>)
    ensures Distinct(ds)
    ensures forall d :: d in ds <==> d in DomainsOf(results)
  {
    if results == [] then []
    else
      var prev := FirstSeen(Init(results));
      var d := Last(results).domain;
      assert results == Init(results) + [Last(results)];
      assert DomainsOf(results) == DomainsOf(Init(results)) + {d};
      if d in prev then prev else prev + [d]
  }

  function Entry(results: seq<ProbeResult>, d: Domain): DomainStats
  {
    var c := Tally(results, d);
    DomainStats(d, c.up, c.total)
  }

  /** The entries for the domains `ds`, in that order. */
  function StatsFor(results: seq<ProbeResult>, ds: seq<Domain>): (entries: seq<DomainStats>)
    ensures |entries| == |ds|
    ensures forall k :: 0 <= k < |ds| ==> entries[k] == Entry(results, ds[k])
  {
    seq(|ds|, k requires 0 <= k < |ds| => Entry(results, ds[k]))
  }

  /** The table the aggregation loop leaves behind: one entry per distinct
      domain, in first-seen order, with at most as many UP results as
      results. */
  function Aggregate(results: seq<ProbeResult>): (entries: seq<DomainStats>)
    ensures |entries| == |FirstSeen(results)|
    ensures forall k :: 0 <= k < |entries| ==>
      entries[k].domain == FirstSeen(results)[k] && entries[k].up <= entries[k].total
  {
    StatsFor(results, FirstSeen(results))
  }

  /** The sum of the `total` counters of `entries`. */
  function TotalOf(entries: seq<DomainStats>): nat
  {
    if entries == [] then 0 else entries[0].total + TotalOf(entries[1..])
  }

  /** The accumulator of one cycle: a dictionary from domain to counters
      whose missing keys read as zero counters, kept in insertion order. */
  class DomainStatsTable {
    var keys: seq<Domain>
    var stats: map<Domain, Counter>

    /** Keys are listed once each, exactly the keys of the map, and every
        stored domain has been counted at least once and has no more UP
        results than results. */
    ghost predicate Valid()
      reads this
    {
      && Distinct(keys)
      && (forall d :: d in stats <==> d in keys)
      && (forall d :: d in stats ==> 1 <= stats[d].total && stats[d].up <= stats[d].total)
    }

    constructor ()
      ensures Valid()
      ensures keys == [] && stats == map[]
    {
      keys := [];
      stats := map[];
    }

    /** Reads the counters of `d`, inserting zero counters first when `d`
        is missing, as a default dictionary does. */
    method Touch(d: Domain)
      modifies this
      requires Distinct(keys) && forall d' :: d' in stats <==> d' in keys
      ensures Distinct(keys) && forall d' :: d' in stats <==> d' in keys
      ensures d in old(stats) ==> keys == old(keys) && stats == old(stats)
      ensures d !in old(stats) ==> keys == old(keys) + [d] && stats == old(stats)[d := Counter(0, 0)]
    {
      if d !in stats {
        keys := keys + [d];
        stats := stats[d := Counter(0, 0)];
      }
    }

    /** Counts one result: `total` of its domain goes up by one, and `up`
        as well when the result is UP. */
    method Record(result: ProbeResult)
      requires Valid()
      modifies this
      ensures Valid()
      ensures keys == if result.domain in old(stats) then old(keys) else old(keys) + [result.domain]
      ensures var before := if result.domain in old(stats) then old(stats)[result.domain] else Counter(0, 0);
              stats == old(stats)[result.domain := Counter(if result.status == Up then before.up + 1 else before.up, before.total + 1)]
    {
      var d := result.domain;
      Touch(d);
      stats := stats[d := stats[d].(total := stats[d].total + 1)];
      if result.status == Up {
        stats := stats[d := stats[d].(up := stats[d].up + 1)];
      }
    }

    /** The entries in insertion order, each with its stored counters; every
        entry has been counted at least once. */
    function Items(): (entries: seq<DomainStats>)
      reads this
      requires Valid()
      ensures forall k :: 0 <= k < |entries| ==> 1 <= entries[k].total && entries[k].up <= entries[k].total
      ensures |entries| == |keys|
      ensures forall k :: 0 <= k < |keys| ==>
        entries[k] == DomainStats(keys[k], stats[keys[k]].up, stats[keys[k]].total)
    {
      var ks, st := keys, stats;
      seq(|ks|, k requires 0 <= k < |ks| => DomainStats(ks[k], st[ks[k]].up, st[ks[k]].total))
    }
  }

  /** A domain not among the results has zero counters. */
  lemma {:induction false} TallyOfAbsent(results: seq<ProbeResult>, d: Domain)
    requires d !in DomainsOf(results)
    ensures Tally(results, d) == Counter(0, 0)
  {
    if results != [] {
      assert results == Init(results) + [Last(results)];
      assert DomainsOf(Init(results)) <= DomainsOf(results);
      TallyOfAbsent(Init(results), d);
    }
  }

  /** Builds a fresh table and feeds it each result in order; the entries it
      ends with are the aggregate of exactly these results. */
  method AggregateResults(results: seq<ProbeResult>) returns (entries: seq<DomainStats>)
    ensures entries == Aggregate(results)
  {
    var table := new DomainStatsTable();
    for i := 0 to |results|
      invariant table.Valid()
      invariant table.keys == FirstSeen(results[..i])
      invariant forall d :: d in table.stats ==> table.stats[d] == Tally(results[..i], d)
    {
      var r := results[i];
      assert results[..i + 1] == results[..i] + [r];
      assert Init(results[..i + 1]) == results[..i];
      if r.domain !in table.stats {
        TallyOfAbsent(results[..i], r.domain);
      }
      table.Record(r);
    }
    assert results[..|results|] == results;
    entries := table.Items();
  }

  /** Each counter is a number of occurrences: `up` counts the UP results
      for `d`, and `total` the UP and the DOWN results for `d`. */
  lemma {:induction false} TallyCountsOccurrences(results: seq<ProbeResult>, d: Domain)
    ensures Tally(results, d).up == multiset(results)[ProbeResult(d, Up)]
    ensures Tally(results, d).total
         == multiset(results)[ProbeResult(d, Up)] + multiset(results)[ProbeResult(d, Down)]
  {
    if results != [] {
      assert results == Init(results) + [Last(results)];
      TallyCountsOccurrences(Init(results), d);
    }
  }

  /** The counters do not depend on the order of the results: any
      permutation of them gives the same counters for every domain, the same
      domains, and the same entries, only possibly in another order. */
  lemma OrderDoesNotChangeCounts(results1: seq<ProbeResult>, results2: seq<ProbeResult>)
    requires multiset(results1) == multiset(results2)
    ensures forall d :: Tally(results1, d) == Tally(results2, d)
    ensures DomainsOf(results1) == DomainsOf(results2)
    ensures forall e :: e in Aggregate(results1) <==> e in Aggregate(results2)
    ensures |Aggregate(results1)| == |Aggregate(results2)|
  {
    forall d ensures Tally(results1, d) == Tally(results2, d) {
      TallyCountsOccurrences(results1, d);
      TallyCountsOccurrences(results2, d);
    }
    forall x ensures x in results1 <==> x in results2 {
      assert x in results1 <==> x in multiset(results1);
      assert x in results2 <==> x in multiset(results2);
    }
    assert DomainsOf(results1) == DomainsOf(results2);
    AggregateSize(results1);
    AggregateSize(results2);
    forall e ensures e in Aggregate(results1) <==> e in Aggregate(results2) {
      if e in Aggregate(results1) {
        var k :| 0 <= k < |Aggregate(results1)| && Aggregate(results1)[k] == e;
        var d := FirstSeen(results1)[k];
        assert d in FirstSeen(results2);
        var k2 :| 0 <= k2 < |FirstSeen(results2)| && FirstSeen(results2)[k2] == d;
        assert Aggregate(results2)[k2] == e;
      }
      if e in Aggregate(results2) {
        var k :| 0 <= k < |Aggregate(results2)| && Aggregate(results2)[k] == e;
        var d := FirstSeen(results2)[k];
        assert d in FirstSeen(results1);
        var k1 :| 0 <= k1 < |FirstSeen(results1)| && FirstSeen(results1)[k1] == d;
        assert Aggregate(results1)[k1] == e;
      }
    }
  }

  /** Every entry of the table has been counted at least once and has no
      more UP results than results, and it counts exactly the results of
      its own domain. */
  lemma AggregateEntries(results: seq<ProbeResult>)
    ensures forall e :: e in Aggregate(results) ==>
      && e.domain in DomainsOf(results)
      && 1 <= e.total
      && 0 <= e.up <= e.total
      && e.up == multiset(results)[ProbeResult(e.domain, Up)]
      && e.total == multiset(results)[ProbeResult(e.domain, Up)] + multiset(results)[ProbeResult(e.domain, Down)]
  {
    forall e | e in Aggregate(results)
      ensures e.domain in DomainsOf(results) && 1 <= e.total
      ensures e.up == multiset(results)[ProbeResult(e.domain, Up)]
      ensures e.total == multiset(results)[ProbeResult(e.domain, Up)] + multiset(results)[ProbeResult(e.domain, Down)]
    {
      var k :| 0 <= k < |Aggregate(results)| && Aggregate(results)[k] == e;
      var d := FirstSeen(results)[k];
      assert e == Entry(results, d);
      TallyCountsOccurrences(results, d);
      assert d in DomainsOf(results);
      var r :| r in results && r.domain == d;
      assert r == ProbeResult(d, r.status);
      assert r in multiset(results);
      if r.status == Up {
        assert multiset(results)[ProbeResult(d, Up)] >= 1;
      } else {
        assert multiset(results)[ProbeResult(d, Down)] >= 1;
      }
    }
  }

  /** A list of distinct elements has as many elements as its set. */
  lemma {:induction false} DistinctCardinality<T>(s: seq<T>)
    requires Distinct(s)
    ensures |set x | x in s| == |s|
  {
    if s != [] {
      var init := Init(s);
      assert s == init + [Last(s)];
      assert (set x | x in s) == (set x | x in init) + {Last(s)};
      assert Last(s) !in init;
      DistinctCardinality(init);
    }
  }

  /** There is one entry per distinct domain among the results. */
  lemma AggregateSize(results: seq<ProbeResult>)
    ensures |Aggregate(results)| == |DomainsOf(results)|
  {
    var ds := FirstSeen(results);
    assert (set x | x in ds) == DomainsOf(results);
    DistinctCardinality(ds);
  }

  lemma {:induction false} TotalOfConcat(a: seq<DomainStats>, b: seq<DomainStats>)
    ensures TotalOf(a + b) == TotalOf(a) + TotalOf(b)
  {
    if a != [] {
      assert (a + b)[0] == a[0];
      assert (a + b)[1..] == a[1..] + b;
      TotalOfConcat(a[1..], b);
    } else {
      assert a + b == b;
    }
  }

  /** Adding one result adds one to the sum of the `total` counters over
      distinct domains `ds` when its domain is among them, and nothing
      otherwise. */
  lemma {:induction false} TotalAfterOneMore(results: seq<ProbeResult>, r: ProbeResult, ds: seq<Domain>)
    requires Distinct(ds)
    ensures TotalOf(StatsFor(results + [r], ds))
         == TotalOf(StatsFor(results, ds)) + (if r.domain in ds then 1 else 0)
  {
    if ds != [] {
      var after := results + [r];
      assert Init(after) == results && Last(after) == r;
      assert StatsFor(after, ds)[1..] == StatsFor(after, ds[1..]);
      assert StatsFor(results, ds)[1..] == StatsFor(results, ds[1..]);
      assert r.domain in ds <==> r.domain == ds[0] || r.domain in ds[1..];
      assert ds[0] !in ds[1..];
      TotalAfterOneMore(results, r, ds[1..]);
    }
  }

  /** The `total` counters add up to the number of results, that is, to the
      number of configured endpoints. */
  lemma {:induction false} AggregateTotal(results: seq<ProbeResult>)
    ensures TotalOf(Aggregate(results)) == |results|
  {
    if results != [] {
      var init, r := Init(results), Last(results);
      assert results == init + [r];
      var ds := FirstSeen(init);
      AggregateTotal(init);
      TotalAfterOneMore(init, r, ds);
      if r.domain !in ds {
        assert FirstSeen(results) == ds + [r.domain];
        assert StatsFor(results, ds + [r.domain]) == StatsFor(results, ds) + [Entry(results, r.domain)];
        TotalOfConcat(StatsFor(results, ds), [Entry(results, r.domain)]);
        TallyOfAbsent(init, r.domain);
        assert [Entry(results, r.domain)][1..] == [];
      }
    }
  }

  /** The position of the first result for `d`. */
  function FirstIndex(results: seq<ProbeResult>, d: Domain): (i: nat)
    requires d in DomainsOf(results)
    ensures i < |results| && results[i].domain == d
    ensures forall j :: 0 <= j < i ==> results[j].domain != d
  {
    if results[0].domain == d then 0
    else
      assert results == [results[0]] + results[1..];
      assert d in DomainsOf(results[1..]);
      1 + FirstIndex(results[1..], d)
  }

  /** The entries come in the order in which each domain first appears among
      the results, which is configuration order. */
  lemma {:induction false} FirstSeenOrder(results: seq<ProbeResult>)
    ensures forall i, j :: 0 <= i < j < |FirstSeen(results)| ==>
      FirstIndex(results, FirstSeen(results)[i]) < FirstIndex(results, FirstSeen(results)[j])
  {
    if results != [] {
      var init, r := Init(results), Last(results);
      assert results == init + [r];
      var ds := FirstSeen(init);
      FirstSeenOrder(init);
      forall d | d in DomainsOf(init)
        ensures FirstIndex(results, d) == FirstIndex(init, d)
      {
        var i0, i1 := FirstIndex(init, d), FirstIndex(results, d);
        assert results[i0] == init[i0];
      }
    }
  }
}
