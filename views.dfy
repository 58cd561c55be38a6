/** Views derived from the discovered matches: the selection filter of the
    campaign view, the reconnect marker of the match report, the CSV export
    and the dashboard counts. */
module Views {

  import opened Wrappers
  import opened Text
  import opened Domain

  // ---------------------------------------------------------------------
  // Selection filter

  /** The matches whose names are selected, in their original order. */
  function KeepSelected(ms: seq<EmployerMatch>, selected: set<string>): (r: seq<EmployerMatch>)
    ensures forall m :: m in r <==> m in ms && m.name in selected
    ensures |r| <= |ms|
  {
    if ms == [] then []
    else
      var rest := KeepSelected(ms[1..], selected);
      if ms[0].name in selected then [ms[0]] + rest else rest
  }

  /** The campaign view's list: every match while nothing is selected,
      otherwise exactly the selected ones. */
  function FilteredMatches(ms: seq<EmployerMatch>, selected: set<string>): (r: seq<EmployerMatch>)
    ensures |selected| == 0 ==> r == ms
    ensures |selected| > 0 ==> forall m :: m in r <==> m in ms && m.name in selected
  {
    if |selected| == 0 then ms else KeepSelected(ms, selected)
  }

  /** Filtering commutes with concatenation, so it keeps the matches' order:
      whatever came first in the match list comes first in the view. */
  lemma {:induction false} KeepSelectedPreservesOrder(a: seq<EmployerMatch>, b: seq<EmployerMatch>, selected: set<string>)
    ensures KeepSelected(a + b, selected) == KeepSelected(a, selected) + KeepSelected(b, selected)
  {
    if a != [] {
      assert (a + b)[1..] == a[1..] + b;
      KeepSelectedPreservesOrder(a[1..], b, selected);
    } else {
      assert a + b == b;
    }
  }

  /** Selecting every name shows every match, in order. */
  lemma {:induction false} SelectingAllKeepsAll(ms: seq<EmployerMatch>, selected: set<string>)
    requires forall m :: m in ms ==> m.name in selected
    ensures KeepSelected(ms, selected) == ms
  {
    if ms != [] {
      SelectingAllKeepsAll(ms[1..], selected);
    }
  }

  /** The selection after a click on an employer's checkbox: the name leaves
      the set if it was in it and joins it otherwise; no other name moves. */
  function Toggle(selected: set<string>, name: string): (r: set<string>)
    ensures name in r <==> name !in selected
    ensures forall n :: n != name ==> (n in r <==> n in selected)
  {
    if name in selected then selected - {name} else selected + {name}
  }

  /** Clicking the same employer twice restores the selection. */
  lemma ToggleTwice(selected: set<string>, name: string)
    ensures Toggle(Toggle(selected, name), name) == selected
  {
  }

  // ---------------------------------------------------------------------
  // Reconnect marker

  /** The tag the discovery prompt asks the model to put in front of the
      rationale of a resurfaced past partner. */
  const ReconnectMarker := "[RECONNECT]"

  predicate IsReconnect(rationale: string) {
    StartsWith(rationale, ReconnectMarker)
  }

  /** The rationale as the match report shows it: a reconnect has the first
      marker removed and the rest trimmed; anything else is shown as is. */
  function DisplayRationale(rationale: string): (r: string)
    ensures !IsReconnect(rationale) ==> r == rationale
  {
    if IsReconnect(rationale) then Trim(ReplaceFirst(rationale, ReconnectMarker, "")) else rationale
  }

  /** A reconnect displays as the text after its leading marker, trimmed. */
  lemma ReconnectDisplay(rationale: string)
    requires IsReconnect(rationale)
    ensures DisplayRationale(rationale) == Trim(rationale[|ReconnectMarker|..])
  {
    ReplacePrefix(rationale, ReconnectMarker);
  }

  /** Tagging a rationale and displaying it gives back the rationale, trimmed:
      the marker is recognised and removed whatever text follows it. */
  lemma TaggedDisplaysUntagged(text: string)
    ensures IsReconnect(ReconnectMarker + text)
    ensures DisplayRationale(ReconnectMarker + text) == Trim(text)
  {
    var tagged := ReconnectMarker + text;
    assert tagged[..|ReconnectMarker|] == ReconnectMarker;
    ReconnectDisplay(tagged);
    assert tagged[|ReconnectMarker|..] == text;
  }

  /** A marker anywhere but at the very start does not make a reconnect, and
      such a rationale is displayed with the marker still in it. */
  lemma MarkerNotAtStart()
    ensures !IsReconnect(" [RECONNECT] Acme")
    ensures DisplayRationale(" [RECONNECT] Acme") == " [RECONNECT] Acme"
  {
    assert " [RECONNECT] Acme"[0] == ' ';
  }

  // ---------------------------------------------------------------------
  // CSV match report

  /** `value || fallback`: a missing or empty string gives the fallback. */
  function OrElse(value: Option<string>, fallback: string): (r: string)
    ensures value.Some? && value.value != "" ==> r == value.value
    ensures value.None? || value.value == "" ==> r == fallback
  {
    if value.Some? && value.value != "" then value.value else fallback
  }

  function Quoted(s: string): string {
    "\"" + s + "\""
  }

  const CsvHeader: seq<string> := ["Employer", "Size", "Score", "Segment", "Website", "Phone", "Email", "Rationale"]

  /** The eight cells of one match's row. Name, size and rationale have their
      quotes doubled; segment, website, phone and email are quoted as they
      are; the score is written as a bare number. */
  function CsvCells(m: EmployerMatch): (r: seq<string>)
    ensures |r| == |CsvHeader|
  {
    [ Quoted(DoubleQuotes(m.name)),
      Quoted(DoubleQuotes(OrElse(m.employeeCount, "N/A"))),
      IntToDecimal(m.score),
      Quoted(m.segment),
      Quoted(OrElse(m.website, "")),
      Quoted(OrElse(m.phone, "")),
      Quoted(OrElse(m.contactEmail, "")),
      Quoted(DoubleQuotes(m.rationale)) ]
  }

  function CsvRows(ms: seq<EmployerMatch>): (r: seq<string>)
    ensures |r| == |ms|
    ensures forall k :: 0 <= k < |ms| ==> r[k] == Join(CsvCells(ms[k]), ",")
  {
    if ms == [] then [] else [Join(CsvCells(ms[0]), ",")] + CsvRows(ms[1..])
  }

  /** The downloaded report: nothing when there are no matches, otherwise the
      header line followed by one line per match, in match order. */
  function MatchReport(ms: seq<EmployerMatch>): (r: Option<string>)
    ensures r.None? <==> |ms| == 0
  {
    if |ms| == 0 then None
    else Some(Join([Join(CsvHeader, ",")] + CsvRows(ms), "\n"))
  }

  /** The body of a quoted cell (between its outer quotes). */
  function CellBody(cell: string): string
    requires |cell| >= 2
  {
    cell[1..|cell| - 1]
  }

  /** The escaped cells read back to the match's own name, size text and
      rationale, whatever quotes those contain. */
  lemma EscapedCellsReadBack(m: EmployerMatch)
    ensures UndoubleQuotes(CellBody(CsvCells(m)[0])) == Some(m.name)
    ensures UndoubleQuotes(CellBody(CsvCells(m)[1])) == Some(OrElse(m.employeeCount, "N/A"))
    ensures UndoubleQuotes(CellBody(CsvCells(m)[7])) == Some(m.rationale)
  {
    var cells := CsvCells(m);
    assert CellBody(cells[0]) == DoubleQuotes(m.name);
    assert CellBody(cells[1]) == DoubleQuotes(OrElse(m.employeeCount, "N/A"));
    assert CellBody(cells[7]) == DoubleQuotes(m.rationale);
    DoubleQuotesRoundTrip(m.name);
    DoubleQuotesRoundTrip(OrElse(m.employeeCount, "N/A"));
    DoubleQuotesRoundTrip(m.rationale);
  }

  /** Segment, website, phone and email are quoted without doubling: any of
      them holding a quote gives a cell that does not read back to it. */
  lemma UnescapedCellsBreak(m: EmployerMatch)
    ensures '"' in m.segment ==> UndoubleQuotes(CellBody(CsvCells(m)[3])) != Some(m.segment)
    ensures '"' in OrElse(m.website, "") ==> UndoubleQuotes(CellBody(CsvCells(m)[4])) != Some(OrElse(m.website, ""))
    ensures '"' in OrElse(m.phone, "") ==> UndoubleQuotes(CellBody(CsvCells(m)[5])) != Some(OrElse(m.phone, ""))
    ensures '"' in OrElse(m.contactEmail, "") ==> UndoubleQuotes(CellBody(CsvCells(m)[6])) != Some(OrElse(m.contactEmail, ""))
  {
    var cells := CsvCells(m);
    assert CellBody(cells[3]) == m.segment;
    assert CellBody(cells[4]) == OrElse(m.website, "");
    assert CellBody(cells[5]) == OrElse(m.phone, "");
    assert CellBody(cells[6]) == OrElse(m.contactEmail, "");
    if '"' in m.segment { UnescapedQuoteLost(m.segment); }
    if '"' in OrElse(m.website, "") { UnescapedQuoteLost(OrElse(m.website, "")); }
    if '"' in OrElse(m.phone, "") { UnescapedQuoteLost(OrElse(m.phone, "")); }
    if '"' in OrElse(m.contactEmail, "") { UnescapedQuoteLost(OrElse(m.contactEmail, "")); }
  }

  /** A website holding a lone quote gives a cell that fails to read at
      all. */
  lemma UnescapedWebsiteBreaks(m: EmployerMatch)
    requires m.website == Some("a\"b")
    ensures UndoubleQuotes(CellBody(CsvCells(m)[4])) == None
  {
    assert CellBody(CsvCells(m)[4]) == "a\"b";
    LoneQuoteUnreadable();
  }

  /** The report is the header line, then one line per match in match
      order: splitting it at line breaks gives exactly those lines, as long
      as no cell holds a line break. */
  lemma MatchReportLines(ms: seq<EmployerMatch>)
    requires |ms| > 0 && forall k :: 0 <= k < |ms| ==> '\n' !in CsvRows(ms)[k]
    ensures Split(MatchReport(ms).value, '\n') == [Join(CsvHeader, ",")] + CsvRows(ms)
  {
    HeaderOneLine();
    SplitJoinedLines(Join(CsvHeader, ","), CsvRows(ms), '\n');
  }

  /** The header line holds no line break. */
  lemma HeaderOneLine()
    ensures '\n' !in Join(CsvHeader, ",")
  {
    forall k | 0 <= k < |CsvHeader| ensures '\n' !in CsvHeader[k] {
      assert forall c :: c in CsvHeader[k] ==> 'A' <= c <= 'z';
    }
    JoinKeepsOut(CsvHeader, ",", '\n');
  }

  // ---------------------------------------------------------------------
  // Dashboard counts

  /** The number of matches scoring 85 or more. */
  function HighAlignment(ms: seq<EmployerMatch>): (r: nat)
    ensures r <= |ms|
    ensures r == |ms| <==> forall m :: m in ms ==> m.score >= 85
  {
    if ms == [] then 0
    else (if ms[0].score >= 85 then 1 else 0) + HighAlignment(ms[1..])
  }

  /** One more match adds one to the count exactly when it scores 85 or
      more. */
  lemma {:induction false} HighAlignmentAppend(ms: seq<EmployerMatch>, m: EmployerMatch)
    ensures HighAlignment(ms + [m]) == HighAlignment(ms) + (if m.score >= 85 then 1 else 0)
  {
    if ms == [] {
      assert ms + [m] == [m];
    } else {
      assert (ms + [m])[1..] == ms[1..] + [m];
      HighAlignmentAppend(ms[1..], m);
    }
  }

  /** The number of matches in one segment. */
  function SegmentCount(ms: seq<EmployerMatch>, segment: string): (r: nat)
    ensures r <= |ms|
    ensures r > 0 <==> exists m :: m in ms && m.segment == segment
  {
    if ms == [] then 0
    else (if ms[0].segment == segment then 1 else 0) + SegmentCount(ms[1..], segment)
  }

  lemma {:induction false} SegmentCountAppend(ms: seq<EmployerMatch>, m: EmployerMatch, segment: string)
    ensures SegmentCount(ms + [m], segment) == SegmentCount(ms, segment) + (if m.segment == segment then 1 else 0)
  {
    if ms == [] {
      assert ms + [m] == [m];
    } else {
      assert (ms + [m])[1..] == ms[1..] + [m];
      SegmentCountAppend(ms[1..], m, segment);
    }
  }

  /** Counting one more match changes only its own segment's count. */
  lemma SegmentCountStep(ms: seq<EmployerMatch>, i: nat, segment: string)
    requires i < |ms|
    ensures SegmentCount(ms[..i + 1], segment) == SegmentCount(ms[..i], segment) + (if ms[i].segment == segment then 1 else 0)
  {
    assert ms[..i + 1] == ms[..i] + [ms[i]];
    SegmentCountAppend(ms[..i], ms[i], segment);
  }

  /** `counts` holds, for exactly the segments present in `ms`, their
      number of matches. */
  ghost predicate Breakdown(counts: map<string, nat>, ms: seq<EmployerMatch>) {
    (forall seg :: seg in counts <==> SegmentCount(ms, seg) > 0) &&
    (forall seg :: seg in counts ==> counts[seg] == SegmentCount(ms, seg))
  }

  /** Counting match `i` into the breakdown of the matches before it gives
      the breakdown of the matches up to it. */
  lemma BreakdownStep(ms: seq<EmployerMatch>, i: nat, counts: map<string, nat>)
    requires i < |ms| && Breakdown(counts, ms[..i])
    ensures var seg := ms[i].segment;
            Breakdown(counts[seg := (if seg in counts then counts[seg] else 0) + 1], ms[..i + 1])
  {
    var seg := ms[i].segment;
    var after := counts[seg := (if seg in counts then counts[seg] else 0) + 1];
    forall s
      ensures s in after <==> SegmentCount(ms[..i + 1], s) > 0
      ensures s in after ==> after[s] == SegmentCount(ms[..i + 1], s)
    {
      SegmentCountStep(ms, i, s);
    }
  }

  /** The dashboard's segment breakdown, counted match by match as the
      dashboard does: a segment is a key exactly when some match has it, and
      its value is the number of matches in it. */
  method SegmentBreakdown(ms: seq<EmployerMatch>) returns (counts: map<string, nat>)
    ensures forall seg :: seg in counts <==> SegmentCount(ms, seg) > 0
    ensures forall seg :: seg in counts ==> counts[seg] == SegmentCount(ms, seg)
  {
    counts := map[];
    var i := 0;
    while i < |ms|
      invariant 0 <= i <= |ms|
      invariant Breakdown(counts, ms[..i])
    {
      var seg := ms[i].segment;
      var current := if seg in counts then counts[seg] else 0;
      BreakdownStep(ms, i, counts);
      counts := counts[seg := current + 1];
      i := i + 1;
    }
    assert ms[..i] == ms;
  }

  datatype DashboardStats = DashboardStats(
    totalMatches: nat,
    highAlignment: nat,
    campaignsBuilt: nat,
    socialReady: nat,
    segments: map<string, nat>)

  /** The analytics hub's figures (the rounded average score is left out). */
  method ComputeDashboardStats(ms: seq<EmployerMatch>, outreach: map<string, OutreachAssets>, posts: seq<LinkedInPost>)
    returns (stats: DashboardStats)
    ensures stats.totalMatches == |ms|
    ensures stats.highAlignment == HighAlignment(ms) <= stats.totalMatches
    ensures stats.campaignsBuilt == |outreach.Keys|
    ensures stats.socialReady == |posts|
    ensures forall seg :: seg in stats.segments <==> SegmentCount(ms, seg) > 0
    ensures forall seg :: seg in stats.segments ==> stats.segments[seg] == SegmentCount(ms, seg)
  {
    var segments := SegmentBreakdown(ms);
    stats := DashboardStats(|ms|, HighAlignment(ms), |outreach.Keys|, |posts|, segments);
  }
}
