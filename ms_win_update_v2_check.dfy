/** The verdict of the enhanced plug-in, `check_ms_win_update_v2`, and the
  * one-line rendering of an update, `_format_update_details`.
  *
  * The check reports the SCCM client status, splits the parsed updates by
  * source into pending and ignored ones (ignored when an ignore pattern
  * finds its title), checks the pending counts against upper levels, emits
  * the count metrics, adds notes for critical and reboot-requiring updates,
  * and lists the updates in a details block. */
module MsWinUpdateV2Check {
  import opened Wrappers
  import opened PyText
  import opened SeqFilter
  import opened CheckApi
  import opened MsWinUpdateV2Section

  /** The check parameters once the rule engine has merged in the defaults;
    * an absent levels key is `None`. */
  datatype Params = Params(
    updateCount: Option<Levels>,
    windowsUpdateCount: Option<Levels>,
    sccmUpdateCount: Option<Levels>,
    monitorSccmClient: bool,
    alertOnCritical: bool,
    ignoredUpdatePatterns: seq<string>)

  /** The plug-in's default parameters: levels 1 and 5 on the total pending
    * count, client monitoring on, critical alerting off, nothing ignored. */
  const DefaultParams: Params := Params(Some(Fixed(1, 5)), None, None, true, false, [])

  // ---------------------------------------------------------------------
  // SCCM client status
  // ---------------------------------------------------------------------

  function RunningNotice(info: SccmClientInfo): string {
    "SCCM client running (v" + info.version + ")"
    + (if info.lastPolicyUpdate != "" then ", last policy update: " + info.lastPolicyUpdate else "")
  }

  /** The client-status result, present only when the section carries client
    * information and monitoring is on: OK when the client is not installed,
    * an OK notice with the version when it runs, WARN for any other status. */
  function ClientStatus(params: Params, info: Option<SccmClientInfo>): (r: seq<Output>)
    ensures |r| <= 1
    ensures r != [] <==> info.Some? && params.monitorSccmClient
    ensures forall k :: 0 <= k < |r| ==> r[k].Result? && r[k].state != CRIT
    ensures r != [] ==> (r[0].state == WARN <==> info.value.status != "NotInstalled" && info.value.status != "Running")
    ensures r != [] && info.value.status == "Running" ==> r[0].text == Notice(RunningNotice(info.value))
  {
    if info.Some? && params.monitorSccmClient then
      var status := info.value.status;
      if status == "NotInstalled" then [Result(OK, Summary("SCCM client not installed"))]
      else if status != "Running" then [Result(WARN, Summary("SCCM client status: " + status))]
      else [Result(OK, Notice(RunningNotice(info.value)))]
    else []
  }

  /** The running notice names the version, and names the last policy
    * update exactly when there is one. */
  lemma RunningNoticeContents(info: SccmClientInfo)
    ensures var head := "SCCM client running (v" + info.version + ")";
      && StartsWith(RunningNotice(info), head)
      && (RunningNotice(info) == head <==> info.lastPolicyUpdate == "")
      && (info.lastPolicyUpdate != "" ==> IsInfix(info.lastPolicyUpdate, RunningNotice(info)))
  {
    var head := "SCCM client running (v" + info.version + ")";
    var n := RunningNotice(info);
    assert n[..|head|] == head;
    if info.lastPolicyUpdate != "" {
      var pre := head + ", last policy update: ";
      assert n == pre + info.lastPolicyUpdate;
      assert n[|pre|..|pre| + |info.lastPolicyUpdate|] == info.lastPolicyUpdate;
      assert InfixAt(info.lastPolicyUpdate, n, |pre|);
    }
  }

  // ---------------------------------------------------------------------
  // The four buckets
  // ---------------------------------------------------------------------

  const WindowsSource: string := "WindowsUpdate"
  const SccmSource: string := "SCCM"

  /** Whether some ignore pattern finds the update's title. */
  predicate IsIgnored(re: Regex, patterns: seq<string>, u: WindowsUpdate) {
    AnyMatch(re, patterns, u.title)
  }

  /** The updates from `source` that are ignored (`ignored`) or pending. */
  function InBucket(re: Regex, patterns: seq<string>, source: string, ignored: bool): WindowsUpdate -> bool {
    (u: WindowsUpdate) => u.source == source && IsIgnored(re, patterns, u) == ignored
  }

  function FromSource(source: string): WindowsUpdate -> bool {
    (u: WindowsUpdate) => u.source == source
  }

  function FromKnownSource(): WindowsUpdate -> bool {
    (u: WindowsUpdate) => u.source == WindowsSource || u.source == SccmSource
  }

  datatype Buckets = Buckets(
    windowsPending: seq<WindowsUpdate>,
    windowsIgnored: seq<WindowsUpdate>,
    sccmPending: seq<WindowsUpdate>,
    sccmIgnored: seq<WindowsUpdate>)

  /** The four lists the check fills, each an order-preserving selection of
    * the section's updates. */
  function Partition(updates: seq<WindowsUpdate>, re: Regex, patterns: seq<string>): Buckets {
    Buckets(
      Filter(updates, InBucket(re, patterns, WindowsSource, false)),
      Filter(updates, InBucket(re, patterns, WindowsSource, true)),
      Filter(updates, InBucket(re, patterns, SccmSource, false)),
      Filter(updates, InBucket(re, patterns, SccmSource, true)))
  }

  /** The loop that sorts the updates into the four lists. */
  method SplitUpdates(updates: seq<WindowsUpdate>, re: Regex, patterns: seq<string>) returns (b: Buckets)
    ensures b == Partition(updates, re, patterns)
  {
    var windowsPending: seq<WindowsUpdate> := [];
    var windowsIgnored: seq<WindowsUpdate> := [];
    var sccmPending: seq<WindowsUpdate> := [];
    var sccmIgnored: seq<WindowsUpdate> := [];
    for i := 0 to |updates|
      invariant Buckets(windowsPending, windowsIgnored, sccmPending, sccmIgnored) == Partition(updates[..i], re, patterns)
    {
      var update := updates[i];
      assert updates[..i + 1][..i] == updates[..i];
      var isIgnored := AnyMatch(re, patterns, update.title);
      if update.source == WindowsSource {
        if isIgnored {
          windowsIgnored := windowsIgnored + [update];
        } else {
          windowsPending := windowsPending + [update];
        }
      } else if update.source == SccmSource {
        if isIgnored {
          sccmIgnored := sccmIgnored + [update];
        } else {
          sccmPending := sccmPending + [update];
        }
      }
    }
    assert updates[..|updates|] == updates;
    b := Buckets(windowsPending, windowsIgnored, sccmPending, sccmIgnored);
  }

  /** Every update from one of the two known sources lands in exactly one of
    * the four lists (the lists together hold exactly those updates), and an
    * update from any other source lands in none. Membership itself is
    * `InBucket`: the right source, and ignored exactly when a pattern finds
    * the title. */
  lemma PartitionMeaning(updates: seq<WindowsUpdate>, re: Regex, patterns: seq<string>)
    ensures var b := Partition(updates, re, patterns);
      && multiset(b.windowsPending) + multiset(b.windowsIgnored) + multiset(b.sccmPending) + multiset(b.sccmIgnored)
         == multiset(Filter(updates, FromKnownSource()))
      && |b.windowsPending| + |b.windowsIgnored| + |b.sccmPending| + |b.sccmIgnored|
         == |Filter(updates, FromKnownSource())|
  {
    FilterSplit(updates, InBucket(re, patterns, WindowsSource, false), InBucket(re, patterns, WindowsSource, true),
                FromSource(WindowsSource));
    FilterSplit(updates, InBucket(re, patterns, SccmSource, false), InBucket(re, patterns, SccmSource, true),
                FromSource(SccmSource));
    FilterSplit(updates, FromSource(WindowsSource), FromSource(SccmSource), FromKnownSource());
  }

  // ---------------------------------------------------------------------
  // Levels and metrics
  // ---------------------------------------------------------------------

  /** A per-source count: checked against its levels when they are set and
    * the count is positive, otherwise reported as a bare metric. Either way
    * the metric carries the count. */
  function SourceCount(n: nat, levels: Option<Levels>, metric: string, caption: string): (r: seq<Output>)
    ensures Metrics(r) == [(metric, n)]
    ensures forall k :: 0 <= k < |r| && r[k].Result? ==>
      r[k].state == LevelState(n, levels) && r[k].text == LevelsText(caption, n)
    ensures (exists k :: 0 <= k < |r| && r[k].Result?) <==> levels.Some? && n > 0
  {
    if levels.Some? && n > 0 then CheckLevels(n, levels, metric, caption)
    else
      var r := [Metric(metric, n)];
      assert r[..0] == [];
      r
  }

  // ---------------------------------------------------------------------
  // Critical and reboot notes
  // ---------------------------------------------------------------------

  /** A present, non-empty severity that reads "critical" or "important"
    * ignoring case. */
  predicate IsCritical(u: WindowsUpdate) {
    match u.severity
    case None => false
    case Some(s) => s != "" && (Lower(s) == "critical" || Lower(s) == "important")
  }

  function Critical(): WindowsUpdate -> bool {
    (u: WindowsUpdate) => IsCritical(u)
  }

  predicate NeedsReboot(u: WindowsUpdate) {
    u.rebootRequired == Some(true)
  }

  function Reboot(): WindowsUpdate -> bool {
    (u: WindowsUpdate) => NeedsReboot(u)
  }

  /** The WARN note on critical or important pending updates: present
    * exactly when alerting is on and some pending update is critical, and
    * then it counts all of them. */
  function CriticalNote(alert: bool, pending: seq<WindowsUpdate>): (r: seq<Output>)
    ensures Quiet(r)
    ensures |r| <= 1
    ensures r != [] <==> alert && exists k :: 0 <= k < |pending| && IsCritical(pending[k])
    ensures r != [] ==>
      r[0] == Result(WARN, Summary(NatToString(|Filter(pending, Critical())|) + " critical/important updates pending"))
  {
    var critical := Filter(pending, Critical());
    FilterEmpty(pending, Critical());
    if critical != [] && alert then
      [Result(WARN, Summary(NatToString(|critical|) + " critical/important updates pending"))]
    else []
  }

  /** The OK note on pending updates that need a reboot: present exactly
    * when one of them does, and then it counts all of them. */
  function RebootNote(pending: seq<WindowsUpdate>): (r: seq<Output>)
    ensures Quiet(r)
    ensures |r| <= 1
    ensures r != [] <==> exists k :: 0 <= k < |pending| && NeedsReboot(pending[k])
    ensures r != [] ==>
      r[0] == Result(OK, Notice(NatToString(|Filter(pending, Reboot())|) + " updates require reboot"))
  {
    var reboot := Filter(pending, Reboot());
    FilterEmpty(pending, Reboot());
    if reboot != [] then [Result(OK, Notice(NatToString(|reboot|) + " updates require reboot"))]
    else []
  }

  // ---------------------------------------------------------------------
  // One update, rendered
  // ---------------------------------------------------------------------

  /** A present, non-empty text: Python's truth value of an optional `str`. */
  predicate Given(v: Option<string>) {
    v.Some? && v.value != ""
  }

  function YesNo(b: bool): string {
    if b then "Yes" else "No"
  }

  /** The info parts of an update, in their fixed order. A size is shown
    * only when it is non-zero. */
  function InfoParts(u: WindowsUpdate, floats: Floats): seq<string> {
    (if Given(u.kb) then ["KB: " + u.kb.value] else [])
    + (if Given(u.severity) then ["Severity: " + u.severity.value] else [])
    + (if u.sizeMb.Some? && u.sizeMb.value != 0.0 then ["Size: " + floats.show(u.sizeMb.value) + "MB"] else [])
    + (if u.isDownloaded.Some? then ["Downloaded: " + YesNo(u.isDownloaded.value)] else [])
    + (if NeedsReboot(u) then ["Reboot required"] else [])
    + (if Given(u.deadline) then ["Deadline: " + u.deadline.value] else [])
  }

  /** `_format_update_details`: the title, then the info parts in
    * parentheses when there are any. */
  function FormatUpdateDetails(u: WindowsUpdate, floats: Floats): (r: string)
    ensures StartsWith(r, u.title)
    ensures r == u.title <==> InfoParts(u, floats) == []
  {
    var parts := InfoParts(u, floats);
    if parts != [] then
      var r := u.title + " (" + JoinWith(parts, ", ") + ")";
      assert r[..|u.title|] == u.title;
      assert |r| > |u.title|;
      r
    else u.title
  }

  /** Whether an update has been downloaded is always shown when known. */
  lemma FormatShowsDownloaded(u: WindowsUpdate, floats: Floats)
    requires u.isDownloaded.Some?
    ensures IsInfix("Downloaded: " + YesNo(u.isDownloaded.value), FormatUpdateDetails(u, floats))
  {
    var parts := InfoParts(u, floats);
    var before :=
      (if Given(u.kb) then ["KB: " + u.kb.value] else [])
      + (if Given(u.severity) then ["Severity: " + u.severity.value] else [])
      + (if u.sizeMb.Some? && u.sizeMb.value != 0.0 then ["Size: " + floats.show(u.sizeMb.value) + "MB"] else []);
    var k := |before|;
    assert parts[k] == "Downloaded: " + YesNo(u.isDownloaded.value);
    JoinedPartIsInfix(parts, ", ", k);
    InfixInContext(parts[k], JoinWith(parts, ", "), u.title + " (", ")");
  }

  // ---------------------------------------------------------------------
  // The details block
  // ---------------------------------------------------------------------

  /** The bullet that starts every listed update. */
  const Bullet: string := "  \U{2022} "

  datatype GroupKind = WindowsPendingGroup | SccmPendingGroup | WindowsIgnoredGroup | SccmIgnoredGroup

  /** The fixed order of the groups in the details block. */
  function GroupRank(k: GroupKind): nat {
    match k
    case WindowsPendingGroup => 0
    case SccmPendingGroup => 1
    case WindowsIgnoredGroup => 2
    case SccmIgnoredGroup => 3
  }

  function Header(k: GroupKind): string {
    match k
    case WindowsPendingGroup => "Windows Update - Pending"
    case SccmPendingGroup => "SCCM - Pending"
    case WindowsIgnoredGroup => "Windows Update - Ignored"
    case SccmIgnoredGroup => "SCCM - Ignored"
  }

  function Entries(b: Buckets, k: GroupKind): seq<WindowsUpdate> {
    match k
    case WindowsPendingGroup => b.windowsPending
    case SccmPendingGroup => b.sccmPending
    case WindowsIgnoredGroup => b.windowsIgnored
    case SccmIgnoredGroup => b.sccmIgnored
  }

  /** A pending update is listed with its details, an ignored one by title. */
  function EntryLine(k: GroupKind, u: WindowsUpdate, floats: Floats): string {
    if k == WindowsPendingGroup || k == SccmPendingGroup then Bullet + FormatUpdateDetails(u, floats)
    else Bullet + u.title
  }

  function Lines(b: Buckets, k: GroupKind, floats: Floats): (r: seq<string>)
    ensures |r| == |Entries(b, k)|
    ensures forall i :: 0 <= i < |r| ==> r[i] == EntryLine(k, Entries(b, k)[i], floats)
  {
    var us := Entries(b, k);
    seq(|us|, i requires 0 <= i < |us| => EntryLine(k, us[i], floats))
  }

  /** The groups of the details block, in the fixed group order. */
  function DetailKinds(b: Buckets): seq<GroupKind> {
    KindsFor(b.windowsPending != [], b.sccmPending != [], b.windowsIgnored != [], b.sccmIgnored != [])
  }

  /** The groups present under four presence flags, in the fixed order. */
  function KindsFor(p1: bool, p2: bool, p3: bool, p4: bool): seq<GroupKind> {
    GroupIf(p1, WindowsPendingGroup) + GroupIf(p2, SccmPendingGroup)
    + GroupIf(p3, WindowsIgnoredGroup) + GroupIf(p4, SccmIgnoredGroup)
  }

  /** The presence flag that governs group `k`. */
  function Flag(k: GroupKind, p1: bool, p2: bool, p3: bool, p4: bool): bool {
    match k
    case WindowsPendingGroup => p1
    case SccmPendingGroup => p2
    case WindowsIgnoredGroup => p3
    case SccmIgnoredGroup => p4
  }

  function GroupIf(present: bool, k: GroupKind): seq<GroupKind> {
    if present then [k] else []
  }

  /** The details block has one group per non-empty list and no other, and
    * the groups follow the fixed group order. */
  lemma DetailKindsMeaning(b: Buckets)
    ensures var r := DetailKinds(b);
      && (forall i :: 0 <= i < |r| ==> Entries(b, r[i]) != [])
      && (forall k :: Entries(b, k) != [] ==> k in r)
      && (forall i, j :: 0 <= i < j < |r| ==> GroupRank(r[i]) < GroupRank(r[j]))
      && (r == [] <==> b.windowsPending == b.sccmPending == b.windowsIgnored == b.sccmIgnored == [])
  {
    KindsOf(b.windowsPending != [], b.sccmPending != [], b.windowsIgnored != [], b.sccmIgnored != []);
  }

  /** A group is listed exactly when its flag is set, and the listed
    * groups are in strictly increasing rank. */
  lemma KindsOf(p1: bool, p2: bool, p3: bool, p4: bool)
    ensures var r := KindsFor(p1, p2, p3, p4);
      && (forall i :: 0 <= i < |r| ==> Flag(r[i], p1, p2, p3, p4))
      && (forall k :: Flag(k, p1, p2, p3, p4) ==> k in r)
      && (forall i, j :: 0 <= i < j < |r| ==> GroupRank(r[i]) < GroupRank(r[j]))
      && (r == [] <==> !p1 && !p2 && !p3 && !p4)
  {
    KindsFlagged(p1, p2, p3, p4);
    KindsComplete(p1, p2, p3, p4);
    KindsRanked(p1, p2, p3, p4);
  }

  lemma KindsFlagged(p1: bool, p2: bool, p3: bool, p4: bool)
    ensures var r := KindsFor(p1, p2, p3, p4);
      forall i :: 0 <= i < |r| ==> Flag(r[i], p1, p2, p3, p4)
  {
  }

  lemma KindsComplete(p1: bool, p2: bool, p3: bool, p4: bool)
    ensures var r := KindsFor(p1, p2, p3, p4);
      forall k :: Flag(k, p1, p2, p3, p4) ==> k in r
  {
  }

  lemma KindsRanked(p1: bool, p2: bool, p3: bool, p4: bool)
    ensures var r := KindsFor(p1, p2, p3, p4);
      forall i, j :: 0 <= i < j < |r| ==> GroupRank(r[i]) < GroupRank(r[j])
  {
  }

  /** One group: its header, then one line per entry. */
  function RenderGroup(b: Buckets, k: GroupKind, floats: Floats): string {
    Header(k) + ":\n" + JoinWith(Lines(b, k, floats), "\n")
  }

  function Renderer(b: Buckets, floats: Floats): GroupKind -> string {
    k => RenderGroup(b, k, floats)
  }

  /** The text of the details block. */
  function DetailsText(b: Buckets, floats: Floats): string {
    JoinWith(Map(DetailKinds(b), Renderer(b, floats)), "\n\n")
  }

  /** The details result: emitted, in state OK, exactly when some list is
    * non-empty. */
  function DetailsResult(b: Buckets, floats: Floats): (r: seq<Output>)
    ensures Quiet(r)
    ensures |r| <= 1
    ensures r != [] <==> b.windowsPending != [] || b.sccmPending != [] || b.windowsIgnored != [] || b.sccmIgnored != []
    ensures r != [] ==> r[0] == Result(OK, Details(" ", DetailsText(b, floats)))
  {
    DetailKindsMeaning(b);
    if DetailKinds(b) != [] then [Result(OK, Details(" ", DetailsText(b, floats)))] else []
  }

  /** Every update of every list shows up in the details text on its own
    * bulleted line: a pending one with its details, an ignored one by title. */
  lemma DetailsListEveryUpdate(b: Buckets, floats: Floats, k: GroupKind, i: nat)
    requires i < |Entries(b, k)|
    ensures IsInfix(EntryLine(k, Entries(b, k)[i], floats), DetailsText(b, floats))
  {
    var kinds := DetailKinds(b);
    DetailKindsMeaning(b);
    var g :| 0 <= g < |kinds| && kinds[g] == k;
    var lines := Lines(b, k, floats);
    var group := RenderGroup(b, k, floats);
    JoinedPartIsInfix(lines, "\n", i);
    InfixInContext(lines[i], JoinWith(lines, "\n"), Header(k) + ":\n", "");
    assert group == Header(k) + ":\n" + JoinWith(lines, "\n") + "";
    var rendered := Map(kinds, Renderer(b, floats));
    JoinedPartIsInfix(rendered, "\n\n", g);
    InfixTransitive(lines[i], group, DetailsText(b, floats));
  }

  // ---------------------------------------------------------------------
  // The whole check
  // ---------------------------------------------------------------------

  const PendingMetric: string := "ms_win_updates_pending"
  const WindowsPendingMetric: string := "ms_win_updates_windows_pending"
  const SccmPendingMetric: string := "ms_win_updates_sccm_pending"
  const IgnoredMetric: string := "ms_win_updates_ignored"

  /** The threshold checks and count metrics: first the total pending count
    * checked against `update_count`, then the four count metrics, each once,
    * in this order. */
  function Counts(params: Params, b: Buckets): (r: seq<Output>)
    ensures var total := |b.windowsPending| + |b.sccmPending|;
      r != [] && r[0] == Result(LevelState(total, params.updateCount), LevelsText("Total pending", total))
    ensures Metrics(r) == [
      (PendingMetric, |b.windowsPending| + |b.sccmPending|),
      (WindowsPendingMetric, |b.windowsPending|),
      (SccmPendingMetric, |b.sccmPending|),
      (IgnoredMetric, |b.windowsIgnored| + |b.sccmIgnored|)]
    ensures CritOnlyFromLevels(r)
  {
    var a1 := CheckLevels(|b.windowsPending| + |b.sccmPending|, params.updateCount, PendingMetric, "Total pending");
    var a2 := SourceCount(|b.windowsPending|, params.windowsUpdateCount, WindowsPendingMetric, "Windows Update pending");
    var a3 := SourceCount(|b.sccmPending|, params.sccmUpdateCount, SccmPendingMetric, "SCCM pending");
    var a4 := [Metric(IgnoredMetric, |b.windowsIgnored| + |b.sccmIgnored|)];
    assert a4[..0] == [];
    MetricsAppend(a1 + a2 + a3, a4);
    MetricsAppend(a1 + a2, a3);
    MetricsAppend(a1, a2);
    CritOnlyFromLevelsAppend(a1, a2);
    CritOnlyFromLevelsAppend(a1 + a2, a3);
    CritOnlyFromLevelsAppend(a1 + a2 + a3, a4);
    assert (a1 + a2 + a3 + a4)[0] == a1[0];
    a1 + a2 + a3 + a4
  }

  /** The critical note, the reboot note and the details: results only,
    * none of them CRIT. */
  function Notes(params: Params, b: Buckets, floats: Floats): (r: seq<Output>)
    ensures Quiet(r)
  {
    var pending := b.windowsPending + b.sccmPending;
    var critical := CriticalNote(params.alertOnCritical, pending);
    var reboot := RebootNote(pending);
    var details := DetailsResult(b, floats);
    QuietAppend(critical, reboot);
    QuietAppend(critical + reboot, details);
    critical + reboot + details
  }

  /** Results only, none of them CRIT. */
  predicate Quiet(out: seq<Output>) {
    forall k :: 0 <= k < |out| ==> out[k].Result? && out[k].state != CRIT
  }

  lemma QuietAppend(a: seq<Output>, b: seq<Output>)
    requires Quiet(a) && Quiet(b)
    ensures Quiet(a + b)
  {
    forall k | 0 <= k < |a + b|
      ensures (a + b)[k].Result? && (a + b)[k].state != CRIT
    {
      if k >= |a| {
        assert (a + b)[k] == b[k - |a|];
      }
    }
  }

  /** Everything after the ignore patterns have compiled, given the four
    * lists. */
  function Verdict(params: Params, b: Buckets, floats: Floats): seq<Output> {
    Counts(params, b) + Notes(params, b, floats)
  }

  /** `check_ms_win_update_v2`: the client status, then the verdict; an
    * ignore pattern that does not compile makes the whole check fail. */
  function CheckResults(params: Params, section: Section, re: Regex, floats: Floats): (r: Result<seq<Output>, CheckError>)
    ensures r.Err? <==> exists i :: 0 <= i < |params.ignoredUpdatePatterns| && !re.compiles(params.ignoredUpdatePatterns[i])
  {
    match FirstInvalid(re, params.ignoredUpdatePatterns)
    case Some(p) => Err(InvalidPattern(p))
    case None =>
      Ok(ClientStatus(params, section.sccmClientInfo)
         + Verdict(params, Partition(section.updates, re, params.ignoredUpdatePatterns), floats))
  }

  /** The groups of the details block, appended one after another. */
  method CollectDetails(b: Buckets, floats: Floats) returns (details: seq<string>)
    ensures details == Map(DetailKinds(b), Renderer(b, floats))
  {
    ghost var render := Renderer(b, floats);
    details := [];
    ghost var kinds: seq<GroupKind> := [];
    GroupStep(kinds, details, b.windowsPending != [], WindowsPendingGroup, render);
    if b.windowsPending != [] {
      details := details + [RenderGroup(b, WindowsPendingGroup, floats)];
    }
    kinds := kinds + GroupIf(b.windowsPending != [], WindowsPendingGroup);
    GroupStep(kinds, details, b.sccmPending != [], SccmPendingGroup, render);
    if b.sccmPending != [] {
      details := details + [RenderGroup(b, SccmPendingGroup, floats)];
    }
    kinds := kinds + GroupIf(b.sccmPending != [], SccmPendingGroup);
    GroupStep(kinds, details, b.windowsIgnored != [], WindowsIgnoredGroup, render);
    if b.windowsIgnored != [] {
      details := details + [RenderGroup(b, WindowsIgnoredGroup, floats)];
    }
    kinds := kinds + GroupIf(b.windowsIgnored != [], WindowsIgnoredGroup);
    GroupStep(kinds, details, b.sccmIgnored != [], SccmIgnoredGroup, render);
    if b.sccmIgnored != [] {
      details := details + [RenderGroup(b, SccmIgnoredGroup, floats)];
    }
  }

  /** Rendering one more group, if present, appends its text. */
  lemma GroupStep(kinds: seq<GroupKind>, done: seq<string>, present: bool, k: GroupKind, render: GroupKind -> string)
    requires done == Map(kinds, render)
    ensures Map(kinds + GroupIf(present, k), render) == done + if present then [render(k)] else []
  {
    if present {
      MapSnoc(kinds, k, render);
    } else {
      assert kinds + GroupIf(present, k) == kinds;
    }
  }

  /** The threshold checks and count metrics, appended one after another. */
  method CountResults(params: Params, b: Buckets) returns (counts: seq<Output>)
    ensures counts == Counts(params, b)
  {
    var totalPending := |b.windowsPending| + |b.sccmPending|;
    var totalIgnored := |b.windowsIgnored| + |b.sccmIgnored|;
    counts := CheckLevels(totalPending, params.updateCount, PendingMetric, "Total pending");
    counts := counts + SourceCount(|b.windowsPending|, params.windowsUpdateCount, WindowsPendingMetric, "Windows Update pending");
    counts := counts + SourceCount(|b.sccmPending|, params.sccmUpdateCount, SccmPendingMetric, "SCCM pending");
    counts := counts + [Metric(IgnoredMetric, totalIgnored)];
  }

  /** The critical note, the reboot note and the details result. */
  method CollectNotes(params: Params, b: Buckets, floats: Floats) returns (notes: seq<Output>)
    ensures notes == Notes(params, b, floats)
  {
    var pending := b.windowsPending + b.sccmPending;
    notes := CriticalNote(params.alertOnCritical, pending);
    notes := notes + RebootNote(pending);
    var details := CollectDetails(b, floats);
    if details != [] {
      notes := notes + [Result(OK, Details(" ", JoinWith(details, "\n\n")))];
    }
  }

  /** The check as the plug-in runs it: results appended one after another. */
  method CheckMsWinUpdateV2(params: Params, section: Section, re: Regex, floats: Floats)
    returns (r: Result<seq<Output>, CheckError>)
    ensures r == CheckResults(params, section, re, floats)
  {
    var out := ClientStatus(params, section.sccmClientInfo);
    var invalid := FirstInvalid(re, params.ignoredUpdatePatterns);
    if invalid.Some? {
      return Err(InvalidPattern(invalid.value));
    }
    var b := SplitUpdates(section.updates, re, params.ignoredUpdatePatterns);
    var counts := CountResults(params, b);
    var notes := CollectNotes(params, b, floats);
    var verdict := counts + notes;
    r := Ok(out + verdict);
  }

  /** Every result whose state is CRIT is one `check_levels` produced. */
  predicate CritOnlyFromLevels(out: seq<Output>) {
    forall k :: 0 <= k < |out| && out[k].Result? && out[k].state == CRIT ==> out[k].text.LevelsText?
  }

  lemma CritOnlyFromLevelsAppend(a: seq<Output>, b: seq<Output>)
    requires CritOnlyFromLevels(a) && CritOnlyFromLevels(b)
    ensures CritOnlyFromLevels(a + b)
  {
    forall k | 0 <= k < |a + b| && (a + b)[k].Result? && (a + b)[k].state == CRIT
      ensures (a + b)[k].text.LevelsText?
    {
      if k >= |a| {
        assert (a + b)[k] == b[k - |a|];
      }
    }
  }

  /** Only a threshold check can make the service CRIT: the client status,
    * the critical note (at worst WARN), the reboot note and the details are
    * never CRIT. */
  lemma CheckNeverCritOutsideLevels(params: Params, section: Section, re: Regex, floats: Floats)
    requires forall i :: 0 <= i < |params.ignoredUpdatePatterns| ==> re.compiles(params.ignoredUpdatePatterns[i])
    ensures CritOnlyFromLevels(CheckResults(params, section, re, floats).value)
  {
    assert FirstInvalid(re, params.ignoredUpdatePatterns).None?;
    var b := Partition(section.updates, re, params.ignoredUpdatePatterns);
    var head := ClientStatus(params, section.sccmClientInfo);
    var notes := Notes(params, b, floats);
    assert CritOnlyFromLevels(head) && CritOnlyFromLevels(notes);
    CritOnlyFromLevelsAppend(Counts(params, b), notes);
    CritOnlyFromLevelsAppend(head, Verdict(params, b, floats));
  }

  /** The check always emits the four count metrics, each exactly once and
    * in this order: the total pending count, the per-source pending counts
    * and the ignored count (0 when nothing is ignored). */
  lemma CheckMetrics(params: Params, section: Section, re: Regex, floats: Floats)
    requires forall i :: 0 <= i < |params.ignoredUpdatePatterns| ==> re.compiles(params.ignoredUpdatePatterns[i])
    ensures var b := Partition(section.updates, re, params.ignoredUpdatePatterns);
      Metrics(CheckResults(params, section, re, floats).value) == Metrics(Counts(params, b))
  {
    assert FirstInvalid(re, params.ignoredUpdatePatterns).None?;
    var b := Partition(section.updates, re, params.ignoredUpdatePatterns);
    MetricsBetweenResults(ClientStatus(params, section.sccmClientInfo), Counts(params, b), Notes(params, b, floats));
  }

  /** The total pending count, Windows Update and SCCM together, is checked
    * against `update_count`: its result, in the state the levels give that
    * count, directly follows the client status. */
  lemma CheckTotalPending(params: Params, section: Section, re: Regex, floats: Floats)
    requires forall i :: 0 <= i < |params.ignoredUpdatePatterns| ==> re.compiles(params.ignoredUpdatePatterns[i])
    ensures var b := Partition(section.updates, re, params.ignoredUpdatePatterns);
      var total := |b.windowsPending| + |b.sccmPending|;
      var out := CheckResults(params, section, re, floats).value;
      var head := |ClientStatus(params, section.sccmClientInfo)|;
      head < |out| && out[head] == Result(LevelState(total, params.updateCount), LevelsText("Total pending", total))
  {
    assert FirstInvalid(re, params.ignoredUpdatePatterns).None?;
    var b := Partition(section.updates, re, params.ignoredUpdatePatterns);
    var head := ClientStatus(params, section.sccmClientInfo);
    var verdict := Verdict(params, b, floats);
    assert CheckResults(params, section, re, floats).value == head + verdict;
    FirstOfTail(head, Counts(params, b), Notes(params, b, floats));
  }

  lemma FirstOfTail(head: seq<Output>, a: seq<Output>, b: seq<Output>)
    requires a != []
    ensures |head| < |head + (a + b)| && (head + (a + b))[|head|] == a[0]
  {
  }

  /** Under the default parameters (no ignore patterns, levels 1 and 5) the
    * total pending result is OK with nothing pending, WARN for one to four
    * pending updates and CRIT from five on. */
  lemma DefaultTotalPending(section: Section, re: Regex, floats: Floats)
    ensures var b := Partition(section.updates, re, DefaultParams.ignoredUpdatePatterns);
      var total := |b.windowsPending| + |b.sccmPending|;
      var out := CheckResults(DefaultParams, section, re, floats).value;
      var head := |ClientStatus(DefaultParams, section.sccmClientInfo)|;
      head < |out| && out[head].Result?
      && out[head].state == (if total >= 5 then CRIT else if total >= 1 then WARN else OK)
  {
    CheckTotalPending(DefaultParams, section, re, floats);
  }
}
