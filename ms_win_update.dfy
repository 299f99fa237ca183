/** The original Windows Update plug-in (`ms_win_update`): the agent sends
  * one pending update title per row, the check counts them against the
  * `update_count` thresholds, sets aside the titles an ignore pattern
  * matches, and lists both groups in the details. */
module MsWinUpdate {
  import opened Wrappers
  import opened PyText
  import opened SeqFilter
  import opened CheckApi

  /** One pending update, known only by its title. */
  datatype WindowsUpdate = WindowsUpdate(updateTitle: string)

  // ---------------------------------------------------------------------
  // Parsing
  // ---------------------------------------------------------------------

  /** The title a row contributes: its tokens joined with single spaces and
    * stripped; nothing for an empty row or one that strips to nothing. */
  function RowTitle(row: seq<string>): Option<string> {
    if row == [] then None
    else
      var title := Strip(JoinWith(row, " "));
      if title == [] then None else Some(title)
  }

  function RowRecords(row: seq<string>): seq<WindowsUpdate> {
    match RowTitle(row)
    case None => []
    case Some(title) => [WindowsUpdate(title)]
  }

  /** `parse_ms_win_update`: the records of the rows, row by row, in input
    * order. */
  function Parse(rows: seq<seq<string>>): seq<WindowsUpdate> {
    FlatMap(rows, (row: seq<string>) => RowRecords(row))
  }

  /** A title as the parser keeps it: non-empty, with no whitespace at
    * either end. */
  predicate CleanTitle(t: string) {
    t != [] && !IsSpace(t[0]) && !IsSpace(t[|t| - 1])
  }

  /** Parsing goes row by row: the records of a table made of two parts
    * are those of the first part followed by those of the second, and a
    * single row gives exactly the record of its title, if it has one. */
  lemma ParseAppend(a: seq<seq<string>>, b: seq<seq<string>>)
    ensures Parse(a + b) == Parse(a) + Parse(b)
  {
    FlatMapAppend(a, b, (row: seq<string>) => RowRecords(row));
  }

  lemma ParseOneRow(row: seq<string>)
    ensures Parse([row]) == RowRecords(row)
  {
    var f := (row: seq<string>) => RowRecords(row);
    assert [row][..0] == [];
    assert FlatMap([row], f) == FlatMap([], f) + f(row);
  }

  /** There are never more records than rows, and every parsed title is
    * non-empty and stripped. */
  lemma {:induction false} ParsedTitles(rows: seq<seq<string>>)
    ensures |Parse(rows)| <= |rows|
    ensures forall k :: 0 <= k < |Parse(rows)| ==> CleanTitle(Parse(rows)[k].updateTitle)
    decreases |rows|
  {
    if rows != [] {
      var init, row := rows[..|rows| - 1], rows[|rows| - 1];
      ParsedTitles(init);
      RowTitleMeaning(row);
      assert rows == init + [row];
      ParseAppend(init, [row]);
      ParseOneRow(row);
      var last := RowRecords(row);
      forall k | 0 <= k < |Parse(rows)|
        ensures CleanTitle(Parse(rows)[k].updateTitle)
      {
        if k >= |Parse(init)| {
          assert Parse(rows)[k] == last[k - |Parse(init)|];
        }
      }
    }
  }

  /** A row only contributes when it holds something other than whitespace. */
  lemma RowTitleMeaning(row: seq<string>)
    ensures RowTitle(row).None? <==> forall i :: 0 <= i < |JoinWith(row, " ")| ==> IsSpace(JoinWith(row, " ")[i])
    ensures RowTitle(row).Some? ==> IsInfix(RowTitle(row).value, JoinWith(row, " ")) && CleanTitle(RowTitle(row).value)
  {
    var text := JoinWith(row, " ");
    StripMeaning(text);
    var lo := |text| - |TrimLeft(text)|;
    if row != [] && Strip(text) != [] {
      assert InfixAt(Strip(text), text, lo);
    }
  }

  /** The parser as the plug-in runs it: one pass over the rows, appending
    * a record for every row with a title. */
  method ParseMsWinUpdate(stringTable: seq<seq<string>>) returns (parsed: seq<WindowsUpdate>)
    ensures parsed == Parse(stringTable)
  {
    parsed := [];
    for i := 0 to |stringTable|
      invariant parsed == Parse(stringTable[..i])
    {
      var line := stringTable[i];
      assert stringTable[..i + 1] == stringTable[..i] + [line];
      ParseAppend(stringTable[..i], [line]);
      ParseOneRow(line);
      if line != [] {
        var updateTitle := Strip(JoinWith(line, " "));
        if updateTitle != [] {
          parsed := parsed + [WindowsUpdate(updateTitle)];
        }
      }
    }
    assert stringTable[..|stringTable|] == stringTable;
  }

  // ---------------------------------------------------------------------
  // Parameters and partition
  // ---------------------------------------------------------------------

  /** The check parameters: the optional upper levels on the pending count
    * and the ignore patterns (none by default). */
  datatype Params = Params(updateCount: Option<Levels>, ignoredUpdatePatterns: seq<string>)

  /** `check_default_parameters`: WARN from 1 pending update, CRIT from 5. */
  const DefaultParams: Params := Params(Some(Fixed(1, 5)), [])

  function Titles(section: seq<WindowsUpdate>): seq<string> {
    Map(section, (u: WindowsUpdate) => u.updateTitle)
  }

  function Ignored(re: Regex, patterns: seq<string>): string -> bool {
    (t: string) => AnyMatch(re, patterns, t)
  }

  function NotIgnored(re: Regex, patterns: seq<string>): string -> bool {
    (t: string) => !AnyMatch(re, patterns, t)
  }

  /** The pending titles, in section order. */
  function PendingTitles(section: seq<WindowsUpdate>, re: Regex, patterns: seq<string>): seq<string> {
    Filter(Titles(section), NotIgnored(re, patterns))
  }

  /** The ignored titles, in section order. */
  function IgnoredTitles(section: seq<WindowsUpdate>, re: Regex, patterns: seq<string>): seq<string> {
    Filter(Titles(section), Ignored(re, patterns))
  }

  /** Every title lands in exactly one of the two lists: together they hold
    * the section's titles, no more and no fewer, and a title is ignored
    * exactly when one of the patterns finds a match in it. */
  lemma PartitionMeaning(section: seq<WindowsUpdate>, re: Regex, patterns: seq<string>)
    ensures var pending := PendingTitles(section, re, patterns);
      var ignored := IgnoredTitles(section, re, patterns);
      && |pending| + |ignored| == |section|
      && multiset(pending) + multiset(ignored) == multiset(Titles(section))
      && (forall k :: 0 <= k < |ignored| ==> exists i :: 0 <= i < |patterns| && re.search(patterns[i], ignored[k]))
      && (forall k :: 0 <= k < |pending| ==> forall i :: 0 <= i < |patterns| ==> !re.search(patterns[i], pending[k]))
  {
    FilterComplement(Titles(section), Ignored(re, patterns), NotIgnored(re, patterns));
  }

  /** One more title goes to exactly one of the two lists, at its end. */
  lemma PartitionStep(section: seq<WindowsUpdate>, i: nat, re: Regex, patterns: seq<string>)
    requires i < |section|
    ensures var t := section[i].updateTitle;
      PendingTitles(section[..i + 1], re, patterns)
        == PendingTitles(section[..i], re, patterns) + if AnyMatch(re, patterns, t) then [] else [t]
    ensures var t := section[i].updateTitle;
      IgnoredTitles(section[..i + 1], re, patterns)
        == IgnoredTitles(section[..i], re, patterns) + if AnyMatch(re, patterns, t) then [t] else []
  {
    var u := section[i];
    assert section[..i + 1] == section[..i] + [u];
    MapSnoc(section[..i], u, (u: WindowsUpdate) => u.updateTitle);
    FilterAppend(Titles(section[..i]), [u.updateTitle], NotIgnored(re, patterns));
    FilterAppend(Titles(section[..i]), [u.updateTitle], Ignored(re, patterns));
    assert [u.updateTitle][..0] == [];
  }

  /** The partition loop: each title is appended to the pending or to the
    * ignored list. */
  method SplitTitles(section: seq<WindowsUpdate>, re: Regex, patterns: seq<string>)
    returns (pendingUpdates: seq<string>, ignoredUpdates: seq<string>)
    ensures pendingUpdates == PendingTitles(section, re, patterns)
    ensures ignoredUpdates == IgnoredTitles(section, re, patterns)
  {
    pendingUpdates, ignoredUpdates := [], [];
    for i := 0 to |section|
      invariant pendingUpdates == PendingTitles(section[..i], re, patterns)
      invariant ignoredUpdates == IgnoredTitles(section[..i], re, patterns)
    {
      var update := section[i];
      PartitionStep(section, i, re, patterns);
      var isIgnored := AnyMatch(re, patterns, update.updateTitle);
      if isIgnored {
        ignoredUpdates := ignoredUpdates + [update.updateTitle];
      } else {
        pendingUpdates := pendingUpdates + [update.updateTitle];
      }
    }
    assert section[..|section|] == section;
  }

  // ---------------------------------------------------------------------
  // Details
  // ---------------------------------------------------------------------

  /** Two no-break spaces and a bullet in front of every listed title. */
  const Bullet: string := "\U{A0}\U{A0}\U{2022} "

  const PendingHeader: string := "Pending Updates:\n"
  const IgnoredHeader: string := "Ignored Updates:\n"

  function Bulleted(): string -> string {
    (t: string) => Bullet + t
  }

  /** One group: its header, then one bulleted line per title. */
  function Group(header: string, titles: seq<string>): string {
    header + JoinWith(Map(titles, Bulleted()), "\n")
  }

  /** The groups of the details text: the pending one, then the ignored
    * one, each only when its list is non-empty. */
  function DetailGroups(pending: seq<string>, ignored: seq<string>): (r: seq<string>)
    ensures |r| == (if pending != [] then 1 else 0) + (if ignored != [] then 1 else 0)
  {
    (if pending != [] then [Group(PendingHeader, pending)] else [])
    + (if ignored != [] then [Group(IgnoredHeader, ignored)] else [])
  }

  /** `result_details`: the groups separated by a blank line. */
  function DetailsText(pending: seq<string>, ignored: seq<string>): string {
    JoinWith(DetailGroups(pending, ignored), "\n\n")
  }

  /** The pending group comes first and the ignored group last, and a group
    * is there exactly when its list is non-empty. */
  lemma DetailGroupsOrder(pending: seq<string>, ignored: seq<string>)
    ensures var g := DetailGroups(pending, ignored);
      && (pending != [] ==> StartsWith(g[0], PendingHeader))
      && (ignored != [] ==> StartsWith(g[|g| - 1], IgnoredHeader))
      && (g == [] <==> pending == [] && ignored == [])
  {
    var g := DetailGroups(pending, ignored);
    if pending != [] {
      assert g[0] == Group(PendingHeader, pending);
    }
    if ignored != [] {
      assert g[|g| - 1] == Group(IgnoredHeader, ignored);
    }
  }

  /** Every title of a list shows up in its group on its own bulleted line. */
  lemma GroupListsEveryTitle(header: string, titles: seq<string>, i: nat)
    requires i < |titles|
    ensures IsInfix(Bullet + titles[i], Group(header, titles))
  {
    var lines := Map(titles, Bulleted());
    JoinedPartIsInfix(lines, "\n", i);
    InfixInContext(lines[i], JoinWith(lines, "\n"), header, "");
    assert Group(header, titles) == header + JoinWith(lines, "\n") + "";
  }

  /** Every pending and every ignored title is listed in the details text. */
  lemma DetailsListEveryTitle(pending: seq<string>, ignored: seq<string>, t: string)
    requires t in pending || t in ignored
    ensures IsInfix(Bullet + t, DetailsText(pending, ignored))
  {
    var g := DetailGroups(pending, ignored);
    if t in pending {
      var i :| 0 <= i < |pending| && pending[i] == t;
      GroupListsEveryTitle(PendingHeader, pending, i);
      assert g[0] == Group(PendingHeader, pending);
      JoinedPartIsInfix(g, "\n\n", 0);
      InfixTransitive(Bullet + t, g[0], DetailsText(pending, ignored));
    } else {
      var i :| 0 <= i < |ignored| && ignored[i] == t;
      GroupListsEveryTitle(IgnoredHeader, ignored, i);
      assert g[|g| - 1] == Group(IgnoredHeader, ignored);
      JoinedPartIsInfix(g, "\n\n", |g| - 1);
      InfixTransitive(Bullet + t, g[|g| - 1], DetailsText(pending, ignored));
    }
  }

  // ---------------------------------------------------------------------
  // The check
  // ---------------------------------------------------------------------

  const PendingMetric: string := "ms_win_updates_pending"
  const IgnoredMetric: string := "ms_win_updates_ignored"

  /** The ignored count: a threshold check without levels when there are
    * ignored titles, otherwise only the metric at 0; either way the metric
    * is there and no result is worse than OK. */
  function IgnoredCount(n: nat): (r: seq<Output>)
    ensures Metrics(r) == [(IgnoredMetric, n)]
    ensures forall k :: 0 <= k < |r| && r[k].Result? ==> r[k].state == OK && r[k].text == LevelsText("Ignored", n)
    ensures (exists k :: 0 <= k < |r| && r[k].Result?) <==> n > 0
  {
    if n > 0 then CheckLevels(n, None, IgnoredMetric, "Ignored")
    else
      var r := [Metric(IgnoredMetric, 0)];
      assert r[..0] == [];
      r
  }

  /** The final details result. */
  function DetailsResult(pending: seq<string>, ignored: seq<string>): Output {
    Result(OK, Details(" ", "\n" + DetailsText(pending, ignored)))
  }

  /** `check_ms_win_update`. An empty section yields only the pending
    * threshold check on 0 and the ignored metric at 0, before any pattern
    * is compiled; otherwise an ignore pattern that does not compile fails
    * the whole check, and a section whose patterns all compile yields the
    * pending threshold check, the ignored count and the details result. */
  function CheckResults(params: Params, section: seq<WindowsUpdate>, re: Regex): (r: Result<seq<Output>, CheckError>)
    ensures r.Err? <==> section != [] && exists i :: 0 <= i < |params.ignoredUpdatePatterns| && !re.compiles(params.ignoredUpdatePatterns[i])
  {
    if section == [] then
      Ok(CheckLevels(0, params.updateCount, PendingMetric, "Pending") + [Metric(IgnoredMetric, 0)])
    else
      match FirstInvalid(re, params.ignoredUpdatePatterns)
      case Some(p) => Err(InvalidPattern(p))
      case None =>
        var pending := PendingTitles(section, re, params.ignoredUpdatePatterns);
        var ignored := IgnoredTitles(section, re, params.ignoredUpdatePatterns);
        Ok(CheckLevels(|pending|, params.updateCount, PendingMetric, "Pending")
           + IgnoredCount(|ignored|)
           + [DetailsResult(pending, ignored)])
  }

  /** The check as the plug-in runs it. */
  method CheckMsWinUpdate(params: Params, section: seq<WindowsUpdate>, re: Regex)
    returns (r: Result<seq<Output>, CheckError>)
    ensures r == CheckResults(params, section, re)
  {
    if section == [] {
      var out := CheckLevels(0, params.updateCount, PendingMetric, "Pending");
      return Ok(out + [Metric(IgnoredMetric, 0)]);
    }
    var invalid := FirstInvalid(re, params.ignoredUpdatePatterns);
    if invalid.Some? {
      return Err(InvalidPattern(invalid.value));
    }
    var pendingUpdates, ignoredUpdates := SplitTitles(section, re, params.ignoredUpdatePatterns);
    var resultDetails: seq<string> := [];
    if pendingUpdates != [] {
      resultDetails := resultDetails + [Group(PendingHeader, pendingUpdates)];
    }
    if ignoredUpdates != [] {
      resultDetails := resultDetails + [Group(IgnoredHeader, ignoredUpdates)];
    }
    assert resultDetails == DetailGroups(pendingUpdates, ignoredUpdates);
    var details := JoinWith(resultDetails, "\n\n");
    var out := CheckLevels(|pendingUpdates|, params.updateCount, PendingMetric, "Pending");
    var ignoredCount := |ignoredUpdates|;
    if ignoredCount > 0 {
      out := out + CheckLevels(ignoredCount, None, IgnoredMetric, "Ignored");
    } else {
      out := out + [Metric(IgnoredMetric, 0)];
    }
    r := Ok(out + [Result(OK, Details(" ", "\n" + details))]);
  }

  /** An empty section passes whatever the ignore patterns are (they are
    * not even compiled): the pending threshold check on 0 comes first, in
    * the state the levels give 0, then the ignored metric at 0, and no
    * details result. */
  lemma EmptySectionResults(params: Params, re: Regex)
    ensures CheckResults(params, [], re).Ok?
    ensures var out := CheckResults(params, [], re).value;
      out != [] && out[0] == Result(LevelState(0, params.updateCount), LevelsText("Pending", 0))
    ensures var out := CheckResults(params, [], re).value;
      && Metrics(out) == [(PendingMetric, 0), (IgnoredMetric, 0)]
      && (forall k :: 0 <= k < |out| && out[k].Result? ==>
            out[k].state == LevelState(0, params.updateCount) && out[k].text == LevelsText("Pending", 0))
  {
    var levels := CheckLevels(0, params.updateCount, PendingMetric, "Pending");
    var out := levels + [Metric(IgnoredMetric, 0)];
    assert CheckResults(params, [], re).value == out;
    MetricsAppend(levels, [Metric(IgnoredMetric, 0)]);
    assert [Metric(IgnoredMetric, 0)][..0] == [];
    forall k | 0 <= k < |out| && out[k].Result?
      ensures out[k].state == LevelState(0, params.updateCount) && out[k].text == LevelsText("Pending", 0)
    {
      assert k < |levels|;
    }
  }

  /** A non-empty section whose patterns all compile gets exactly two
    * metrics, the pending count and the ignored count, in this order. */
  lemma CheckMetrics(params: Params, section: seq<WindowsUpdate>, re: Regex)
    requires section != []
    requires forall i :: 0 <= i < |params.ignoredUpdatePatterns| ==> re.compiles(params.ignoredUpdatePatterns[i])
    ensures var patterns := params.ignoredUpdatePatterns;
      Metrics(CheckResults(params, section, re).value)
        == [(PendingMetric, |PendingTitles(section, re, patterns)|), (IgnoredMetric, |IgnoredTitles(section, re, patterns)|)]
  {
    assert FirstInvalid(re, params.ignoredUpdatePatterns).None?;
    var patterns := params.ignoredUpdatePatterns;
    var pending := PendingTitles(section, re, patterns);
    var ignored := IgnoredTitles(section, re, patterns);
    var levels := CheckLevels(|pending|, params.updateCount, PendingMetric, "Pending");
    var count := IgnoredCount(|ignored|);
    var details := [DetailsResult(pending, ignored)];
    assert CheckResults(params, section, re).value == levels + count + details;
    TwoMetrics(levels, count, details, (PendingMetric, |pending|), (IgnoredMetric, |ignored|));
  }

  lemma TwoMetrics(a: seq<Output>, b: seq<Output>, c: seq<Output>, x: (string, int), y: (string, int))
    requires Metrics(a) == [x] && Metrics(b) == [y]
    requires forall k :: 0 <= k < |c| ==> c[k].Result?
    ensures Metrics(a + b + c) == [x, y]
  {
    MetricsAppend(a + b, c);
    MetricsAppend(a, b);
    NoMetrics(c);
  }

  /** The pending count is checked against `update_count` and that result
    * comes first, in the state the levels give the count; it is also the
    * only result that can leave state OK: every other result, the ignored
    * count and the details included, is OK. */
  lemma OnlyPendingLevelsAlert(params: Params, section: seq<WindowsUpdate>, re: Regex)
    requires section == [] || forall i :: 0 <= i < |params.ignoredUpdatePatterns| ==> re.compiles(params.ignoredUpdatePatterns[i])
    ensures CheckResults(params, section, re).Ok?
    ensures var out := CheckResults(params, section, re).value;
      var pending := if section == [] then 0 else |PendingTitles(section, re, params.ignoredUpdatePatterns)|;
      out != [] && out[0] == Result(LevelState(pending, params.updateCount), LevelsText("Pending", pending))
    ensures var out := CheckResults(params, section, re).value;
      var pending := if section == [] then 0 else |PendingTitles(section, re, params.ignoredUpdatePatterns)|;
      forall k :: 0 <= k < |out| && out[k].Result? && out[k].state != OK ==>
        out[k].state == LevelState(pending, params.updateCount) && out[k].text == LevelsText("Pending", pending)
  {
    assert section != [] ==> FirstInvalid(re, params.ignoredUpdatePatterns).None?;
    if section != [] {
      var patterns := params.ignoredUpdatePatterns;
      var pendingList := PendingTitles(section, re, patterns);
      var ignored := IgnoredTitles(section, re, patterns);
      var levels := CheckLevels(|pendingList|, params.updateCount, PendingMetric, "Pending");
      var count := IgnoredCount(|ignored|);
      var out := levels + count + [DetailsResult(pendingList, ignored)];
      assert CheckResults(params, section, re).value == out;
      assert out[0] == levels[0];
      forall k | 0 <= k < |out| && out[k].Result? && out[k].state != OK
        ensures out[k].state == LevelState(|pendingList|, params.updateCount)
             && out[k].text == LevelsText("Pending", |pendingList|)
      {
        if k >= |levels| {
          assert false;
        }
      }
    } else {
      EmptySectionResults(params, re);
    }
  }

  /** A non-empty section whose patterns all compile ends with the one
    * details result, in state OK, listing the pending then the ignored
    * titles; no other result carries details. */
  lemma DetailsOnce(params: Params, section: seq<WindowsUpdate>, re: Regex)
    requires section != []
    requires forall i :: 0 <= i < |params.ignoredUpdatePatterns| ==> re.compiles(params.ignoredUpdatePatterns[i])
    ensures var out := CheckResults(params, section, re).value;
      var patterns := params.ignoredUpdatePatterns;
      && out != []
      && out[|out| - 1] == Result(OK, Details(" ", "\n" + DetailsText(PendingTitles(section, re, patterns), IgnoredTitles(section, re, patterns))))
      && forall k :: 0 <= k < |out| - 1 && out[k].Result? ==> !out[k].text.Details?
  {
    assert FirstInvalid(re, params.ignoredUpdatePatterns).None?;
    var patterns := params.ignoredUpdatePatterns;
    var pending := PendingTitles(section, re, patterns);
    var ignored := IgnoredTitles(section, re, patterns);
    var levels := CheckLevels(|pending|, params.updateCount, PendingMetric, "Pending");
    var count := IgnoredCount(|ignored|);
    var out := levels + count + [DetailsResult(pending, ignored)];
    assert CheckResults(params, section, re).value == out;
    forall k | 0 <= k < |out| - 1 && out[k].Result?
      ensures !out[k].text.Details?
    {
      if k >= |levels| {
        assert out[k] == count[k - |levels|];
      }
    }
  }

  /** Under the default parameters nothing is ignored, so every title is
    * pending: an empty section is OK, one to four titles give WARN and five
    * or more give CRIT. */
  lemma DefaultPendingLevels(section: seq<WindowsUpdate>, re: Regex)
    ensures CheckResults(DefaultParams, section, re).Ok?
    ensures var out := CheckResults(DefaultParams, section, re).value;
      out != [] && out[0].Result?
      && out[0].state == (if |section| >= 5 then CRIT else if |section| >= 1 then WARN else OK)
  {
    OnlyPendingLevelsAlert(DefaultParams, section, re);
    if section != [] {
      FilterEmpty(Titles(section), Ignored(re, []));
      PartitionMeaning(section, re, []);
    }
  }
}
