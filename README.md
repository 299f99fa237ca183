# Windows Update check plug-ins for Checkmk, modelled in Dafny

This project models the two Checkmk agent-based plug-ins that monitor
pending Windows updates. It also proves what they promise about their input
and their output.

- **Legacy plug-in (`ms_win_update`).** The agent sends one update title per
  row.
  - `parse_ms_win_update` keeps one record per row that, joined with spaces
    and stripped, is non-empty.
  - `check_ms_win_update` first drops the titles that an ignore pattern finds.
    It then checks the remaining (pending) count against the `update_count`
    levels, emits the pending and ignored metrics, and lists both groups in
    one details result. An empty section only reports a pending count of 0
    and an ignored count of 0.
- **Enhanced plug-in (`ms_win_update_v2`).** The agent sends a line
  protocol: `SCCM_CLIENT_*:` status lines, `*_UPDATE_COUNT:` counter lines,
  and `UPDATE|source|title|KEY:VALUE|...` records.
  - `parse_ms_win_update_v2` builds the section: update records with KB,
    severity, categories, size, download and reboot flags, evaluation state,
    deadline and compliance. It also keeps the three declared counts and the
    SCCM client information.
  - `check_ms_win_update_v2` reports the SCCM client status. It then splits
    the updates by source (Windows Update or SCCM) into pending and ignored
    lists. It checks the total and per-source pending counts against their
    levels, emits four count metrics, and adds a WARN note on critical
    updates and an OK note on updates that need a reboot.
  - The check ends with a details block that lists every pending update
    (rendered by `_format_update_details`) and every ignored one.

Modules:

- `Wrappers`: `Option` and `Result`.
- `PyText`: the Python string built-ins the plug-ins rely on, over `seq<char>`. These are `str.strip`,
  `str.join`, `str.split`, `str.startswith`, `str.lower`, `str.replace`,
  `int()` and `str()` of a count.
- `SeqFilter`: order-preserving filtering and mapping, with lemmas on
  partitions.
- `CheckApi`: the parts of the Checkmk check API the plug-ins use:
  - states, `Result` and `Metric` outputs;
  - `check_levels` with upper levels;
  - the regular-expression engine, taken as a parameter.
- `MsWinUpdateV2Section`: the enhanced parser.
- `MsWinUpdateV2Check`: the enhanced check and `_format_update_details`.
- `MsWinUpdate`: the legacy parser and check.

Both parsers and both checks are loops over their input in the source.

- Each is modelled as a method with a loop. The method is proved equal to a
  specification function: `ParseSection`, `CheckResults`, `Parse` and
  `MsWinUpdate.CheckResults`.
- The properties the plug-ins promise are lemmas about those functions.
- The enhanced parser's loop body is the separate method `ParseRow`, and its
  inner `KEY:VALUE` loop is `ParseUpdateRecord`.
- The seven loop-carried locals of the enhanced parser travel together as
  one `Scan` value.

The regular-expression engine and Python's `float()` and float `str()` are
parameters. They are the `Regex` value (whether a pattern compiles, and
whether it finds a match in a text) and the `Floats` value (parse and
render).

## Model

All source paths below are under `plugin/cmk_addons_plugins/windows/agent_based/`; the table gives them in full.

| member | source | states |
|---|---|---|
| MsWinUpdateV2Section.ParseMsWinUpdateV2 | plugin/cmk_addons_plugins/windows/agent_based/ms_win_update_v2.py:80-187 | The row loop returns exactly `ParseSection(rows)`, the section built from the classified rows, or the error of the first malformed counter. |
| MsWinUpdateV2Section.ParseRow | plugin/cmk_addons_plugins/windows/agent_based/ms_win_update_v2.py:91-171 | One loop iteration equals `Step` on the row's view. An empty row changes nothing; a client line sets its field; a counter line sets its counter or fails with the line; an `UPDATE|` line with at least three pieces appends its record. |
| MsWinUpdateV2Section.ParseViewsMeaning | plugin/cmk_addons_plugins/windows/agent_based/ms_win_update_v2.py:80-187 | Parsing fails exactly when some counter row's value is not an integer. Otherwise: the updates are the records of the record rows, in row order; each counter is the integer of the last row setting it, 0 when none does; client info exists exactly when the last status value is non-empty, and carries the last version and policy values. |
| MsWinUpdateV2Section.ScanFails | plugin/cmk_addons_plugins/windows/agent_based/ms_win_update_v2.py:103-108 | The loop fails exactly when some counter row does not hold an integer, and then with the line of the first such row. |
| MsWinUpdateV2Section.ScanRecords | plugin/cmk_addons_plugins/windows/agent_based/ms_win_update_v2.py:159-171 | The updates collected so far are the records of the record rows read so far, in order. |
| MsWinUpdateV2Section.ScanCounter | plugin/cmk_addons_plugins/windows/agent_based/ms_win_update_v2.py:103-108 | Each counter holds the integer of the last row that sets it, 0 when none does. |
| MsWinUpdateV2Section.ScanClient | plugin/cmk_addons_plugins/windows/agent_based/ms_win_update_v2.py:97-102 | Each client field holds the value of the last row that sets it, `""` when none does. |
| MsWinUpdateV2Section.Classify | plugin/cmk_addons_plugins/windows/agent_based/ms_win_update_v2.py:95-111 | A client or counter line begins with its prefix and its value is the rest of the line. A line is an update line exactly when it begins with `UPDATE|`, and then it is split on every `|`, with "UPDATE" as the first piece. |
| MsWinUpdateV2Section.ClassifyClient | plugin/cmk_addons_plugins/windows/agent_based/ms_win_update_v2.py:97-102 | A line that begins with a client prefix is classified as that client line, with the text after the prefix, whatever the order of the tests. |
| MsWinUpdateV2Section.ClassifyCounter | plugin/cmk_addons_plugins/windows/agent_based/ms_win_update_v2.py:103-108 | A line that begins with a counter prefix is classified as that counter line, with the text after the prefix. |
| MsWinUpdateV2Section.ClientRowKind | plugin/cmk_addons_plugins/windows/agent_based/ms_win_update_v2.py:91-102 | A row sets a client field exactly when its joined, stripped text begins with that field's prefix; the value is the rest of the text. |
| MsWinUpdateV2Section.CounterRowKind | plugin/cmk_addons_plugins/windows/agent_based/ms_win_update_v2.py:91-108 | A row sets a counter exactly when its joined, stripped text begins with that counter's prefix; the value is the rest of the text. |
| MsWinUpdateV2Section.RecordRowKind | plugin/cmk_addons_plugins/windows/agent_based/ms_win_update_v2.py:109-114 | A row makes a record exactly when its text begins with `UPDATE|` and has at least three `|`-separated pieces; the record is built from those pieces. |
| MsWinUpdateV2Section.ControlPrefix | plugin/cmk_addons_plugins/windows/agent_based/ms_win_update_v2.py:97-108 | For a control prefix, `split(":", 1)[1]` is exactly the text after the prefix, and such a line is never an `UPDATE|` line. |
| MsWinUpdateV2Section.ParseUpdateRecord | plugin/cmk_addons_plugins/windows/agent_based/ms_win_update_v2.py:112-171 | The segment loop returns exactly `RecordOf(parts)`: source from piece 1, title from piece 2, the fields from the segments after them. |
| MsWinUpdateV2Section.RecordOf | plugin/cmk_addons_plugins/windows/agent_based/ms_win_update_v2.py:112-114 | The record's source is piece 1 and its title piece 2. |
| MsWinUpdateV2Section.ApplySegment | plugin/cmk_addons_plugins/windows/agent_based/ms_win_update_v2.py:127-157 | A segment never changes the title or the source. |
| MsWinUpdateV2Section.ApplySegmentFields | plugin/cmk_addons_plugins/windows/agent_based/ms_win_update_v2.py:128-157 | Each field is set by a segment with its own key whose value converts, and kept otherwise. A segment without a colon, or with an unknown key, changes nothing. |
| MsWinUpdateV2Section.FieldsFromLastSegments | plugin/cmk_addons_plugins/windows/agent_based/ms_win_update_v2.py:117-157 | Every field comes from the last segment carrying its key, and is absent when there is none. DOWNLOADED and REBOOT are true exactly when the lower-cased value is "true". EVAL_STATE, COMPLIANCE and SIZE come from the last segment whose value parses. |
| MsWinUpdateV2Section.LastSegmentWins | plugin/cmk_addons_plugins/windows/agent_based/ms_win_update_v2.py:127-157 | A field that each segment sets or leaves alone ends with what the last selecting segment gave it. |
| MsWinUpdateV2Section.ViewAt | plugin/cmk_addons_plugins/windows/agent_based/ms_win_update_v2.py:91-95 | The i-th row view is the view of the i-th row. |
| MsWinUpdateV2Check.ClientStatus | plugin/cmk_addons_plugins/windows/agent_based/ms_win_update_v2.py:196-215 | At most one result, present exactly when client info exists and monitoring is on. It is never CRIT. It is WARN exactly when the status is neither "NotInstalled" nor "Running", and a running client gets the notice with its version. |
| MsWinUpdateV2Check.RunningNoticeContents | plugin/cmk_addons_plugins/windows/agent_based/ms_win_update_v2.py:209-211 | The running notice starts with the version text. It is exactly that text when there is no last policy update, and otherwise it contains the policy update. |
| MsWinUpdateV2Check.SplitUpdates | plugin/cmk_addons_plugins/windows/agent_based/ms_win_update_v2.py:221-239 | The sorting loop returns exactly the four order-preserving selections `Partition`. |
| MsWinUpdateV2Check.PartitionMeaning | plugin/cmk_addons_plugins/windows/agent_based/ms_win_update_v2.py:227-239 | The four lists together hold exactly the updates whose source is "WindowsUpdate" or "SCCM", as a multiset and by count. Updates from any other source are dropped. |
| MsWinUpdateV2Check.SourceCount | plugin/cmk_addons_plugins/windows/agent_based/ms_win_update_v2.py:258-280 | The metric carries the count. There is a threshold result exactly when levels are set and the count is positive, and it has the levels' state. |
| MsWinUpdateV2Check.CriticalNote | plugin/cmk_addons_plugins/windows/agent_based/ms_win_update_v2.py:288-296 | A WARN result, present exactly when alerting is on and some pending update is critical or important; it counts all of them. |
| MsWinUpdateV2Check.RebootNote | plugin/cmk_addons_plugins/windows/agent_based/ms_win_update_v2.py:298-306 | An OK notice, present exactly when some pending update requires a reboot; it counts all of them. |
| MsWinUpdateV2Check.FormatUpdateDetails | plugin/cmk_addons_plugins/windows/agent_based/ms_win_update_v2.py:335-356 | The text starts with the title. It is exactly the title when the update has no info part to show. |
| MsWinUpdateV2Check.FormatShowsDownloaded | plugin/cmk_addons_plugins/windows/agent_based/ms_win_update_v2.py:346-347 | A known download flag is always shown as "Downloaded: Yes" or "Downloaded: No". |
| MsWinUpdateV2Check.DetailKindsMeaning | plugin/cmk_addons_plugins/windows/agent_based/ms_win_update_v2.py:308-325 | The details block has one group per non-empty list and no other. Groups follow the fixed order: Windows pending, SCCM pending, Windows ignored, SCCM ignored. |
| MsWinUpdateV2Check.DetailsResult | plugin/cmk_addons_plugins/windows/agent_based/ms_win_update_v2.py:327-332 | At most one OK details result, present exactly when some list is non-empty. |
| MsWinUpdateV2Check.DetailsListEveryUpdate | plugin/cmk_addons_plugins/windows/agent_based/ms_win_update_v2.py:308-332 | Every update of every list appears in the details text on its bulleted line: a pending one with its details, an ignored one by title. |
| MsWinUpdateV2Check.CollectDetails | plugin/cmk_addons_plugins/windows/agent_based/ms_win_update_v2.py:308-325 | The appended groups are the rendered groups of `DetailKinds`, in order. |
| MsWinUpdateV2Check.Counts | plugin/cmk_addons_plugins/windows/agent_based/ms_win_update_v2.py:241-286 | The first output is the total pending count (Windows Update plus SCCM) checked against `update_count`, in the state those levels give that count. There are exactly four metrics, in this order: total pending, Windows pending, SCCM pending, total ignored. Every CRIT result comes from a threshold check. |
| MsWinUpdateV2Check.CountResults | plugin/cmk_addons_plugins/windows/agent_based/ms_win_update_v2.py:241-286 | The appended threshold results and metrics are exactly `Counts`. |
| MsWinUpdateV2Check.Notes | plugin/cmk_addons_plugins/windows/agent_based/ms_win_update_v2.py:288-332 | The critical note, reboot note and details are results only, and none is CRIT. |
| MsWinUpdateV2Check.CollectNotes | plugin/cmk_addons_plugins/windows/agent_based/ms_win_update_v2.py:288-332 | The appended notes and details result are exactly `Notes`. |
| MsWinUpdateV2Check.CheckResults | plugin/cmk_addons_plugins/windows/agent_based/ms_win_update_v2.py:194-332 | The check fails exactly when some ignore pattern does not compile. |
| MsWinUpdateV2Check.CheckMsWinUpdateV2 | plugin/cmk_addons_plugins/windows/agent_based/ms_win_update_v2.py:194-332 | The check as run returns exactly `CheckResults`. |
| MsWinUpdateV2Check.CheckNeverCritOutsideLevels | plugin/cmk_addons_plugins/windows/agent_based/ms_win_update_v2.py:194-332 | Only a threshold check can make the service CRIT; the client status and the notes never do. |
| MsWinUpdateV2Check.CheckTotalPending | plugin/cmk_addons_plugins/windows/agent_based/ms_win_update_v2.py:241-256 | When every ignore pattern compiles, the output right after the client status is the total pending result, in `LevelState(total, update_count)` with the caption "Total pending". |
| MsWinUpdateV2Check.DefaultTotalPending | plugin/cmk_addons_plugins/windows/agent_based/ms_win_update_v2.py:249-256 | Under the default parameters, levels 1 and 5 with no ignore patterns, the total pending result is OK for 0, WARN for 1 to 4 and CRIT from 5 on. |
| MsWinUpdateV2Check.CheckMetrics | plugin/cmk_addons_plugins/windows/agent_based/ms_win_update_v2.py:241-286 | The check's metrics are exactly the four count metrics of `Counts`, each once and in order. |
| MsWinUpdate.ParseMsWinUpdate | plugin/cmk_addons_plugins/windows/agent_based/ms_win_update.py:60-68 | The row loop returns exactly `Parse(rows)`. |
| MsWinUpdate.ParseAppend | plugin/cmk_addons_plugins/windows/agent_based/ms_win_update.py:62-66 | Parsing goes row by row in input order: the records of two concatenated tables are the records of the first followed by those of the second. |
| MsWinUpdate.ParseOneRow | plugin/cmk_addons_plugins/windows/agent_based/ms_win_update.py:63-66 | A single row gives the record of its stripped joined text, if that is non-empty. |
| MsWinUpdate.ParsedTitles | plugin/cmk_addons_plugins/windows/agent_based/ms_win_update.py:60-68 | There are never more records than rows, and every title is non-empty and has no whitespace at either end. |
| MsWinUpdate.RowTitleMeaning | plugin/cmk_addons_plugins/windows/agent_based/ms_win_update.py:63-65 | A row gives no title exactly when its joined text is all whitespace. A title is a clean piece of the joined text. |
| MsWinUpdate.SplitTitles | plugin/cmk_addons_plugins/windows/agent_based/ms_win_update.py:91-100 | The partition loop returns exactly the pending and the ignored titles, in section order. |
| MsWinUpdate.PartitionStep | plugin/cmk_addons_plugins/windows/agent_based/ms_win_update.py:94-100 | One more title goes to the end of exactly one of the two lists. |
| MsWinUpdate.PartitionMeaning | plugin/cmk_addons_plugins/windows/agent_based/ms_win_update.py:91-100 | Pending and ignored together hold the section's titles, as a multiset and by count. An ignored title is found by some pattern, and a pending title by none. |
| MsWinUpdate.DetailGroups | plugin/cmk_addons_plugins/windows/agent_based/ms_win_update.py:102-114 | There is one group per non-empty list. |
| MsWinUpdate.DetailGroupsOrder | plugin/cmk_addons_plugins/windows/agent_based/ms_win_update.py:102-116 | The pending group comes first and the ignored group last. There are no groups exactly when both lists are empty. |
| MsWinUpdate.GroupListsEveryTitle | plugin/cmk_addons_plugins/windows/agent_based/ms_win_update.py:104-114 | Every title of a list appears in its group after the bullet. |
| MsWinUpdate.DetailsListEveryTitle | plugin/cmk_addons_plugins/windows/agent_based/ms_win_update.py:102-116 | Every pending and every ignored title appears in the details text after the bullet. |
| MsWinUpdate.IgnoredCount | plugin/cmk_addons_plugins/windows/agent_based/ms_win_update.py:126-136 | The ignored metric always carries the count. Its threshold result, present exactly when the count is positive, is always OK. |
| MsWinUpdate.CheckResults | plugin/cmk_addons_plugins/windows/agent_based/ms_win_update.py:75-142 | The check fails exactly when the section is non-empty and some ignore pattern does not compile. |
| MsWinUpdate.CheckMsWinUpdate | plugin/cmk_addons_plugins/windows/agent_based/ms_win_update.py:75-142 | The check as run returns exactly `CheckResults`. |
| MsWinUpdate.EmptySectionResults | plugin/cmk_addons_plugins/windows/agent_based/ms_win_update.py:76-85 | An empty section passes whatever the patterns are. Its first output is the pending threshold check on 0, in the state the levels give 0, so warn at or below 0 alerts. Its only metrics are pending 0 and ignored 0, and it has no other result, so there is no details result. |
| MsWinUpdate.CheckMetrics | plugin/cmk_addons_plugins/windows/agent_based/ms_win_update.py:118-136 | A non-empty section gets exactly two metrics: the pending count, then the ignored count. |
| MsWinUpdate.OnlyPendingLevelsAlert | plugin/cmk_addons_plugins/windows/agent_based/ms_win_update.py:75-142 | The first output is the pending count checked against `update_count`, in the state those levels give the pending count (0 for an empty section). Every result that is not OK is that check. |
| MsWinUpdate.DefaultPendingLevels | plugin/cmk_addons_plugins/windows/agent_based/ms_win_update.py:75-124 | Under the default parameters, levels 1 and 5 with no ignore patterns, every title is pending. The first result is OK for an empty section, WARN for 1 to 4 titles and CRIT from 5 on. |
| MsWinUpdate.DetailsOnce | plugin/cmk_addons_plugins/windows/agent_based/ms_win_update.py:102-142 | A non-empty section ends with exactly one OK details result. It lists the pending group then the ignored group, and no other result carries details. |
| CheckApi.LevelState | plugin/cmk_addons_plugins/windows/agent_based/ms_win_update_v2.py:250-256 | CRIT from the critical level on, WARN from the warning level up to it, OK below or without levels. |
| CheckApi.LevelStateMonotone | plugin/cmk_addons_plugins/windows/agent_based/ms_win_update_v2.py:250-256 | A larger count never gets a milder state under the same levels. |
| CheckApi.CheckLevels | plugin/cmk_addons_plugins/windows/agent_based/ms_win_update_v2.py:250-256 | The first output is a result in the levels' state with the caption. The only metric carries the value. |
| CheckApi.FirstInvalid | plugin/cmk_addons_plugins/windows/agent_based/ms_win_update_v2.py:218-219 | No failure exactly when every pattern compiles; otherwise the failure names the first pattern that does not. |
| CheckApi.AnyMatch | plugin/cmk_addons_plugins/windows/agent_based/ms_win_update_v2.py:228 | True exactly when some pattern finds a match in the title. |
| CheckApi.MetricsBetweenResults | plugin/cmk_addons_plugins/windows/agent_based/ms_win_update_v2.py:194-332 | Results before and after a block add no metrics. |
| PyText.StripMeaning | plugin/cmk_addons_plugins/windows/agent_based/ms_win_update_v2.py:95 | `strip()` keeps a contiguous middle part that neither begins nor ends with whitespace, and removes only whitespace around it. |
| PyText.ValueAfterPrefix | plugin/cmk_addons_plugins/windows/agent_based/ms_win_update_v2.py:98 | After a prefix whose only colon is its last character, `split(":", 1)[1]` is the rest of the line. |
| PyText.SplitFirst | plugin/cmk_addons_plugins/windows/agent_based/ms_win_update_v2.py:129 | Key, colon and value put back together give the segment, and the key has no colon. |
| PyText.Split | plugin/cmk_addons_plugins/windows/agent_based/ms_win_update_v2.py:111 | At least one piece, and no piece contains the separator. |
| PyText.SplitJoin | plugin/cmk_addons_plugins/windows/agent_based/ms_win_update_v2.py:111 | Joining the pieces with the separator gives back the line. |
| PyText.ParseInt | plugin/cmk_addons_plugins/windows/agent_based/ms_win_update_v2.py:104 | `int()` accepts only an optional sign followed by digits, and reads plain digits as their decimal value. |
| PyText.Lower | plugin/cmk_addons_plugins/windows/agent_based/ms_win_update_v2.py:143 | Same length, each character lowered. |
| PyText.JoinedPartIsInfix | plugin/cmk_addons_plugins/windows/agent_based/ms_win_update_v2.py:331 | Every joined part can be found in the joined text. |
| SeqFilter.FilterComplement | plugin/cmk_addons_plugins/windows/agent_based/ms_win_update.py:94-100 | Selecting by a test and by its negation splits a sequence without loss, as a multiset and by count. |
| SeqFilter.FilterSplit | plugin/cmk_addons_plugins/windows/agent_based/ms_win_update_v2.py:227-239 | Two disjoint tests whose union is a third split that third selection without loss. |

## Left out

- Rulesets, graphing, the agent bakery and plug-in registration. These are
  declarative; only their default parameters are kept: `DefaultParams` in
  both check modules.
- Discovery is left out: it always yields one service.
- The regular-expression engine is left out: the engine is a parameter (`Regex`), so the lemmas hold for any
  engine. Python `re` syntax and matching are not modelled.
- Python's `float()` and float `str()` are left out: they are a parameter
  (`Floats`). A NaN size is whatever `Floats` makes of it. The size test
  `if update.size_mb` is modelled as "present and not 0.0".
- `int()` is modelled as an optional sign followed by ASCII digits.
  Surrounding whitespace, underscores and non-ASCII digits, which Python also
  accepts, are not modelled.
- `str.lower()` is modelled on ASCII letters only. Comparing with "true",
  "critical" or "important" gives the same answer either way.
- `check_levels` is left out except for its state and its metric. The summary
  text it renders, with `render_func`, is kept only as the caption and the
  value. How Checkmk combines results into the service state is not
  modelled.
- Level thresholds are integers. The plug-ins' levels are counts, and the
  defaults 1.0 and 5.0 are whole numbers.
- In the enhanced check, the client-status result is yielded before the
  ignore patterns are compiled. Since an invalid pattern raises, that result
  may already have been emitted. The model returns only the error for that
  call.
- `int()` on a counter value has no handler, so a non-integer value makes
  the parse fail. The model follows the code: `ParseViewsMeaning` and
  `ScanFails` state the failure.
