/**
 The text block written once per cycle: a header line with the start time,
 one availability line per domain of the table, in table order, and a
 closing `---` line.
 */
module Report {
  import opened Probe
  import opened Aggregation
  import opened Availability

  predicate IsDigit(c: char)
  {
    '0' <= c <= '9'
  }

  function DigitValue(c: char): nat
    requires IsDigit(c)
  {
    c as int - '0' as int
  }

  function DigitChar(d: nat): (c: char)
    requires d < 10
    ensures IsDigit(c) && DigitValue(c) == d
  {
    ('0' as int + d) as char
  }

  predicate AllDigits(s: string)
  {
    forall i :: 0 <= i < |s| ==> IsDigit(s[i])
  }

  /** The number a string of decimal digits denotes. */
  ghost function DecimalValue(s: string): nat
    requires AllDigits(s)
  {
    if s == [] then 0 else 10 * DecimalValue(Init(s)) + DigitValue(Last(s))
  }

  /** The decimal notation of `n`, as an f-string renders an int: digits
      only, denoting `n`, and without leading zeros. */
  function NatToString(n: nat): (s: string)
    ensures 1 <= |s| && AllDigits(s)
    ensures DecimalValue(s) == n
    ensures s[0] == '0' ==> s == "0"
  {
    if n < 10 then [DigitChar(n)]
    else
      var prefix := NatToString(n / 10);
      var s := prefix + [DigitChar(n % 10)];
      assert Init(s) == prefix;
      s
  }

  /** The renderings of the extreme percentages and of one in between. */
  lemma NatToStringExamples()
    ensures NatToString(0) == "0"
    ensures NatToString(50) == "50"
    ensures NatToString(100) == "100"
  {
  }

  /** How an f-string renders a domain: the hostname, or `None` when the URL
      had no hostname. Only a host literally named `None` renders like a
      missing hostname; `urlparse` lower-cases hostnames, so none is. */
  function DomainText(d: Domain): (s: string)
    ensures d.Host? ==> s == d.name
    ensures d == NoHost ==> s == "None"
    ensures s == "None" ==> d == NoHost || d == Host("None")
  {
    match d
    case Host(name) => name
    case NoHost => "None"
  }

  /** Every entry has been counted at least once, so its percentage is
      defined. */
  predicate AllCounted(entries: seq<DomainStats>)
  {
    forall k :: 0 <= k < |entries| ==> entries[k].total > 0
  }

  /** The first line of the block. It is one line when the timestamp holds
      no line break. */
  function Header(ts: string): (s: string)
    ensures |s| == |ts| + 17
    ensures s[..16] == "Run started at: " && s[16..|s| - 1] == ts && s[|s| - 1] == '\n'
    ensures '\n' !in ts ==> SplitLines(s) == ["Run started at: " + ts]
  {
    var head := "Run started at: " + ts;
    if '\n' in ts then head + "\n"
    else
      NoBreakInHeader(ts);
      SplitAfterLine(head, "");
      assert head + "\n" + "" == head + "\n";
      head + "\n"
  }

  /** The closing line of the block. */
  function Footer(): (s: string)
    ensures |s| == 4 && SplitLines(s) == ["---"] && s[|s| - 1] == '\n'
  {
    SplitAfterLine("---", "");
    assert "---" + "\n" + "" == "---\n";
    "---\n"
  }

  /** The availability line of one entry, without its line break: the
      domain, ` has `, the decimal digits of the percentage without leading
      zeros, and `% availability percentage`. */
  function LineText(e: DomainStats): (s: string)
    requires e.total > 0
    ensures var name := DomainText(e.domain);
      && |s| > |name| + 30
      && s[..|name|] == name
      && s[|name|..|name| + 5] == " has "
      && AllDigits(s[|name| + 5..|s| - 25])
      && DecimalValue(s[|name| + 5..|s| - 25]) == Percent(e.up, e.total)
      && (s[|name| + 5] == '0' ==> s[|name| + 5..|s| - 25] == "0")
      && s[|s| - 25..] == "% availability percentage"
  {
    DomainText(e.domain) + " has " + NatToString(Percent(e.up, e.total)) + "% availability percentage"
  }

  /** The availability line with its line break. It is exactly one line
      when the domain renders without a line break. */
  function AvailabilityLine(e: DomainStats): (s: string)
    requires e.total > 0
    ensures |s| > 0 && s[|s| - 1] == '\n'
    ensures '\n' !in DomainText(e.domain) ==> SplitLines(s) == [LineText(e)]
  {
    var text := LineText(e);
    if '\n' in DomainText(e.domain) then text + "\n"
    else
      NoBreakInLineText(e);
      SplitAfterLine(text, "");
      assert text + "\n" + "" == text + "\n";
      text + "\n"
  }

  /** The availability lines of `entries`, in order. */
  function Lines(entries: seq<DomainStats>): string
    requires AllCounted(entries)
  {
    if entries == [] then "" else AvailabilityLine(entries[0]) + Lines(entries[1..])
  }

  /** The block written for one cycle: it opens with the header and closes
      with `---` and a final line break. */
  function ReportBlock(ts: string, entries: seq<DomainStats>): (s: string)
    requires AllCounted(entries)
    ensures |s| >= |Header(ts)| + |Footer()|
    ensures s[..|Header(ts)|] == Header(ts)
    ensures s[|s| - |Footer()|..] == Footer()
  {
    var head, body, foot := Header(ts), Lines(entries), Footer();
    assert (head + body + foot)[..|head|] == head;
    head + body + foot
  }

  lemma {:induction false} LinesAppend(entries: seq<DomainStats>, e: DomainStats)
    requires AllCounted(entries) && e.total > 0
    ensures AllCounted(entries + [e])
    ensures Lines(entries + [e]) == Lines(entries) + AvailabilityLine(e)
  {
    if entries == [] {
      assert [e][1..] == [];
      assert Lines([e]) == AvailabilityLine(e) + "";
      assert entries + [e] == [e];
    } else {
      var first, rest := entries[0], entries[1..];
      assert (entries + [e])[0] == first;
      assert (entries + [e])[1..] == rest + [e];
      LinesAppend(rest, e);
      assert Lines(entries + [e]) == AvailabilityLine(first) + (Lines(rest) + AvailabilityLine(e));
      SeqAssoc(AvailabilityLine(first), Lines(rest), AvailabilityLine(e));
    }
  }

  /** Builds the block as the source does: the header, then one line added
      per entry in table order, then the closing line. */
  method BuildReport(ts: string, entries: seq<DomainStats>) returns (logMessage: string)
    requires AllCounted(entries)
    ensures logMessage == ReportBlock(ts, entries)
  {
    logMessage := "Run started at: " + ts + "\n";
    for i := 0 to |entries|
      invariant logMessage == Header(ts) + Lines(entries[..i])
    {
      var availability := Percent(entries[i].up, entries[i].total);
      var line := DomainText(entries[i].domain) + " has " + NatToString(availability)
        + "% availability percentage" + "\n";
      assert entries[..i + 1] == entries[..i] + [entries[i]];
      LinesAppend(entries[..i], entries[i]);
      SeqAssoc(Header(ts), Lines(entries[..i]), line);
      logMessage := logMessage + line;
    }
    assert entries[..|entries|] == entries;
    logMessage := logMessage + "---\n";
  }

  /** The length of the first line of `s`: the position of its first line
      break, or `|s|` when it has none. */
  function LineEnd(s: string): (k: nat)
    ensures k <= |s|
    ensures forall i :: 0 <= i < k ==> s[i] != '\n'
    ensures k < |s| ==> s[k] == '\n'
  {
    if s == [] || s[0] == '\n' then 0 else 1 + LineEnd(s[1..])
  }

  /** The lines of `s`, each without its line break; a final line break
      does not start another line. */
  function SplitLines(s: string): seq<string>
    decreases |s|
  {
    if s == [] then []
    else
      var k := LineEnd(s);
      if k == |s| then [s] else [s[..k]] + SplitLines(s[k + 1..])
  }

  lemma SplitAfterLine(line: string, rest: string)
    requires '\n' !in line
    ensures SplitLines(line + "\n" + rest) == [line] + SplitLines(rest)
  {
    var s := line + "\n" + rest;
    var k := LineEnd(s);
    assert s[|line|] == '\n';
    assert k == |line|;
    assert s[..|line|] == line;
    assert s[|line| + 1..] == rest;
  }

  lemma NoBreakInNumber(n: nat)
    ensures '\n' !in NatToString(n)
  {
  }

  /** The lines of the entries' availability lines, without line breaks. */
  function LineTexts(entries: seq<DomainStats>): (lines: seq<string>)
    requires AllCounted(entries)
    ensures |lines| == |entries|
    ensures forall k :: 0 <= k < |entries| ==> lines[k] == LineText(entries[k])
  {
    seq(|entries|, k requires 0 <= k < |entries| => LineText(entries[k]))
  }

  /** No domain of `entries` renders with a line break. Hostnames never
      contain one. */
  predicate SingleLineDomains(entries: seq<DomainStats>)
  {
    forall k :: 0 <= k < |entries| ==> '\n' !in DomainText(entries[k].domain)
  }

  lemma NoBreakInLineText(e: DomainStats)
    requires e.total > 0 && '\n' !in DomainText(e.domain)
    ensures '\n' !in LineText(e)
  {
    NoBreakInNumber(Percent(e.up, e.total));
  }

  lemma LineTextsCons(entries: seq<DomainStats>)
    requires AllCounted(entries) && entries != []
    ensures LineTexts(entries) == [LineText(entries[0])] + LineTexts(entries[1..])
  {
  }

  lemma SeqAssoc<T>(a: seq<T>, b: seq<T>, c: seq<T>)
    ensures (a + b) + c == a + (b + c)
  {
  }

  lemma {:induction false} SplitLinesOfLines(entries: seq<DomainStats>, tail: string)
    requires AllCounted(entries) && SingleLineDomains(entries)
    ensures SplitLines(Lines(entries) + tail) == LineTexts(entries) + SplitLines(tail)
  {
    if entries == [] {
      assert Lines(entries) + tail == tail;
    } else {
      var e := entries[0];
      var text, more := LineText(e), Lines(entries[1..]);
      NoBreakInLineText(e);
      assert Lines(entries) == (text + "\n") + more;
      SeqAssoc(text + "\n", more, tail);
      SplitAfterLine(text, more + tail);
      SplitLinesOfLines(entries[1..], tail);
      LineTextsCons(entries);
      SeqAssoc([text], LineTexts(entries[1..]), SplitLines(tail));
    }
  }

  lemma NoBreakInHeader(ts: string)
    requires '\n' !in ts
    ensures '\n' !in "Run started at: " + ts
  {
  }

  /** The block is exactly: the header line, then one availability line per
      entry in table order, then `---`. Nothing else is in it. Splitting
      does not see whether the last line ends in a line break; that it does
      is stated by `ReportBlock`. */
  lemma ReportLines(ts: string, entries: seq<DomainStats>)
    requires AllCounted(entries) && SingleLineDomains(entries)
    requires '\n' !in ts
    ensures SplitLines(ReportBlock(ts, entries))
         == ["Run started at: " + ts] + LineTexts(entries) + ["---"]
  {
    var head, body := "Run started at: " + ts, Lines(entries);
    NoBreakInHeader(ts);
    SeqAssoc(head + "\n", body, Footer());
    SplitAfterLine(head, body + Footer());
    SplitLinesOfLines(entries, Footer());
    SeqAssoc([head], LineTexts(entries), ["---"]);
  }
}
