/** The agent section of the enhanced Windows Update plug-in: its records
  * and the line-protocol parser `parse_ms_win_update_v2`.
  *
  * Each agent row arrives already split into whitespace-separated tokens.
  * The parser joins a row with single spaces, strips it, and dispatches on
  * its prefix: `SCCM_CLIENT_STATUS:`, `SCCM_CLIENT_VERSION:`,
  * `SCCM_LAST_POLICY_UPDATE:` set a client-status field; `WINDOWS_UPDATE_COUNT:`,
  * `SCCM_UPDATE_COUNT:`, `TOTAL_UPDATE_COUNT:` set a counter; and
  * `UPDATE|source|title|KEY:VALUE|...` adds an update record. */
module MsWinUpdateV2Section {
  import opened Wrappers
  import opened PyText
  import opened SeqFilter

  /** One pending update. `source` is "WindowsUpdate" or "SCCM" on
    * well-formed input but is kept as the agent sent it. */
  datatype WindowsUpdate = WindowsUpdate(
    title: string,
    source: string,
    kb: Option<string>,
    severity: Option<string>,
    categories: Option<string>,
    sizeMb: Option<real>,
    isDownloaded: Option<bool>,
    rebootRequired: Option<bool>,
    evaluationState: Option<int>,
    deadline: Option<string>,
    complianceState: Option<int>)

  datatype SccmClientInfo = SccmClientInfo(status: string, version: string, lastPolicyUpdate: string)

  /** The parsed section. The three counts are the figures the agent
    * declares, not recomputed from `updates`. */
  datatype Section = Section(
    updates: seq<WindowsUpdate>,
    windowsUpdateCount: int,
    sccmUpdateCount: int,
    totalCount: int,
    sccmClientInfo: Option<SccmClientInfo>)

  /** Python's `float(text)`, with `None` where it raises `ValueError`, and
    * `str(x)` of a float. */
  datatype Floats = Floats(parse: string -> Option<real>, show: real -> string)

  /** The `ValueError` that `int()` raises on a counter line, with that line. */
  datatype ParseError = InvalidCounter(line: string)

  datatype ClientField = StatusField | VersionField | PolicyField

  datatype CounterKind = WindowsCounter | SccmCounter | TotalCounter

  function ClientPrefix(f: ClientField): string {
    match f
    case StatusField => "SCCM_CLIENT_STATUS:"
    case VersionField => "SCCM_CLIENT_VERSION:"
    case PolicyField => "SCCM_LAST_POLICY_UPDATE:"
  }

  function CounterPrefix(k: CounterKind): string {
    match k
    case WindowsCounter => "WINDOWS_UPDATE_COUNT:"
    case SccmCounter => "SCCM_UPDATE_COUNT:"
    case TotalCounter => "TOTAL_UPDATE_COUNT:"
  }

  const UpdatePrefix: string := "UPDATE|"

  /** What one joined line says to the parser. */
  datatype Line =
    | ClientLine(field: ClientField, value: string)
    | CounterLine(kind: CounterKind, value: string)
    | UpdateLine(parts: seq<string>)
    | OtherLine

  /** `" ".join(line).strip()`. */
  function LineText(row: seq<string>): string {
    Strip(JoinWith(row, " "))
  }

  /** `line_str.split(":", 1)[1]`. */
  function ColonValue(s: string): string
    requires ':' in s
  {
    SplitFirst(s, ':').1
  }

  /** A line that begins with a control prefix is not an `UPDATE|` line, and
    * its value, `line_str.split(":", 1)[1]`, is everything after the prefix. */
  lemma ControlPrefix(s: string, p: string)
    requires StartsWith(s, p)
    requires |p| > 1 && p[0] != 'U' && p[|p| - 1] == ':' && ':' !in p[..|p| - 1]
    ensures ':' in s && ColonValue(s) == s[|p|..]
    ensures !StartsWith(s, UpdatePrefix)
  {
    assert s[0] == p[0];
    ValueAfterPrefix(s, p);
  }

  lemma ClientControl(s: string, f: ClientField)
    requires StartsWith(s, ClientPrefix(f))
    ensures ':' in s && ColonValue(s) == s[|ClientPrefix(f)|..]
    ensures !StartsWith(s, UpdatePrefix)
  {
    ControlPrefix(s, ClientPrefix(f));
  }

  lemma CounterControl(s: string, k: CounterKind)
    requires StartsWith(s, CounterPrefix(k))
    ensures ':' in s && ColonValue(s) == s[|CounterPrefix(k)|..]
    ensures !StartsWith(s, UpdatePrefix)
  {
    ControlPrefix(s, CounterPrefix(k));
  }

  /** The `if`/`elif` chain over the prefixes of one joined line. A control
    * line's value is everything after its prefix; an `UPDATE|` line is cut
    * at every `|`, its first piece being "UPDATE". */
  function Classify(s: string): (l: Line)
    ensures l.ClientLine? ==> StartsWith(s, ClientPrefix(l.field)) && l.value == s[|ClientPrefix(l.field)|..]
    ensures l.CounterLine? ==> StartsWith(s, CounterPrefix(l.kind)) && l.value == s[|CounterPrefix(l.kind)|..]
    ensures l.UpdateLine? <==> StartsWith(s, UpdatePrefix)
    ensures l.UpdateLine? ==> l.parts == Split(s, '|') && |l.parts| >= 2 && l.parts[0] == "UPDATE"
  {
    if StartsWith(s, ClientPrefix(StatusField)) then
      ClientControl(s, StatusField);
      ClientLine(StatusField, ColonValue(s))
    else if StartsWith(s, ClientPrefix(VersionField)) then
      ClientControl(s, VersionField);
      ClientLine(VersionField, ColonValue(s))
    else if StartsWith(s, ClientPrefix(PolicyField)) then
      ClientControl(s, PolicyField);
      ClientLine(PolicyField, ColonValue(s))
    else if StartsWith(s, CounterPrefix(WindowsCounter)) then
      CounterControl(s, WindowsCounter);
      CounterLine(WindowsCounter, ColonValue(s))
    else if StartsWith(s, CounterPrefix(SccmCounter)) then
      CounterControl(s, SccmCounter);
      CounterLine(SccmCounter, ColonValue(s))
    else if StartsWith(s, CounterPrefix(TotalCounter)) then
      CounterControl(s, TotalCounter);
      CounterLine(TotalCounter, ColonValue(s))
    else if StartsWith(s, UpdatePrefix) then
      assert UpdatePrefix == "UPDATE" + ['|'];
      SplitAfterPrefix(s, "UPDATE", '|');
      UpdateLine(Split(s, '|'))
    else
      OtherLine
  }

  // ---------------------------------------------------------------------
  // The KEY:VALUE segments of an update line
  // ---------------------------------------------------------------------

  /** The record an `UPDATE|source|title` line starts from: every optional
    * field absent. */
  function Blank(title: string, source: string): WindowsUpdate {
    WindowsUpdate(title, source, None, None, None, None, None, None, None, None, None)
  }

  const KnownKeys: set<string> :=
    {"KB", "SEVERITY", "CATEGORIES", "SIZE", "DOWNLOADED", "REBOOT", "EVAL_STATE", "DEADLINE", "COMPLIANCE"}

  /** `part` is a `KEY:VALUE` segment whose key (before the first colon) is `key`. */
  predicate HasKey(part: string, key: string) {
    ':' in part && SplitFirst(part, ':').0 == key
  }

  function SegmentValue(part: string): string
    requires ':' in part
  {
    SplitFirst(part, ':').1
  }

  /** One pass of `for part in parts[3:]`: a known key sets its field; a
    * malformed number leaves the field as it was. A segment without a colon
    * or with an unknown key changes nothing, and title and source are never
    * touched. */
  function ApplySegment(u: WindowsUpdate, part: string, floats: Floats): (r: WindowsUpdate)
    ensures r.title == u.title && r.source == u.source
  {
    if ':' !in part then u
    else
      var (key, value) := SplitFirst(part, ':');
      if key == "KB" then u.(kb := Some(value))
      else if key == "SEVERITY" then u.(severity := Some(value))
      else if key == "CATEGORIES" then u.(categories := Some(value))
      else if key == "SIZE" then
        (match floats.parse(RemoveAll(value, "MB"))
         case Some(x) => u.(sizeMb := Some(x))
         case None => u)
      else if key == "DOWNLOADED" then u.(isDownloaded := Some(Lower(value) == "true"))
      else if key == "REBOOT" then u.(rebootRequired := Some(Lower(value) == "true"))
      else if key == "EVAL_STATE" then
        (match ParseInt(value)
         case Some(n) => u.(evaluationState := Some(n))
         case None => u)
      else if key == "DEADLINE" then u.(deadline := Some(value))
      else if key == "COMPLIANCE" then
        (match ParseInt(value)
         case Some(n) => u.(complianceState := Some(n))
         case None => u)
      else u
  }

  /** Each field is set by a segment with its own key whose value converts,
    * and kept otherwise; a segment without a known key changes nothing. */
  lemma ApplySegmentFields(u: WindowsUpdate, part: string, floats: Floats)
    ensures var r := ApplySegment(u, part, floats);
      && r.kb == (if Selected(part, "KB", AnyText) then Some(SegmentValue(part)) else u.kb)
      && r.severity == (if Selected(part, "SEVERITY", AnyText) then Some(SegmentValue(part)) else u.severity)
      && r.categories == (if Selected(part, "CATEGORIES", AnyText) then Some(SegmentValue(part)) else u.categories)
      && r.deadline == (if Selected(part, "DEADLINE", AnyText) then Some(SegmentValue(part)) else u.deadline)
      && r.isDownloaded ==
        (if Selected(part, "DOWNLOADED", AnyText) then AsFlag(Some(SegmentValue(part))) else u.isDownloaded)
      && r.rebootRequired ==
        (if Selected(part, "REBOOT", AnyText) then AsFlag(Some(SegmentValue(part))) else u.rebootRequired)
      && r.evaluationState ==
        (if Selected(part, "EVAL_STATE", IsInteger) then AsInt(Some(SegmentValue(part))) else u.evaluationState)
      && r.complianceState ==
        (if Selected(part, "COMPLIANCE", IsInteger) then AsInt(Some(SegmentValue(part))) else u.complianceState)
      && r.sizeMb ==
        (if Selected(part, "SIZE", SizeParses(floats)) then AsSize(Some(SegmentValue(part)), floats) else u.sizeMb)
      && (':' !in part || SplitFirst(part, ':').0 !in KnownKeys ==> r == u)
  {
  }

  /** All segments, first to last. */
  function ApplySegments(u: WindowsUpdate, segs: seq<string>, floats: Floats): (r: WindowsUpdate)
    ensures r.title == u.title && r.source == u.source
    decreases |segs|
  {
    if segs == [] then u
    else ApplySegment(ApplySegments(u, segs[..|segs| - 1], floats), segs[|segs| - 1], floats)
  }

  /** The record for the pieces of an `UPDATE|` line that has at least three
    * of them: source from piece 1, title from piece 2, fields from the rest. */
  function RecordOf(parts: seq<string>, floats: Floats): (r: WindowsUpdate)
    requires |parts| >= 3
    ensures r.source == parts[1] && r.title == parts[2]
  {
    ApplySegments(Blank(parts[2], parts[1]), parts[3..], floats)
  }

  /** The inner loop of the parser over the segments after the title. */
  method ParseUpdateRecord(parts: seq<string>, floats: Floats) returns (update: WindowsUpdate)
    requires |parts| >= 3
    ensures update == RecordOf(parts, floats)
  {
    var source := parts[1];
    var title := parts[2];
    var kb: Option<string> := None;
    var severity: Option<string> := None;
    var categories: Option<string> := None;
    var sizeMb: Option<real> := None;
    var isDownloaded: Option<bool> := None;
    var rebootRequired: Option<bool> := None;
    var evaluationState: Option<int> := None;
    var deadline: Option<string> := None;
    var complianceState: Option<int> := None;
    var i := 3;
    while i < |parts|
      invariant 3 <= i <= |parts|
      invariant ApplySegments(Blank(title, source), parts[3..i], floats)
        == WindowsUpdate(title, source, kb, severity, categories, sizeMb, isDownloaded,
                         rebootRequired, evaluationState, deadline, complianceState)
    {
      var part := parts[i];
      ghost var before := WindowsUpdate(title, source, kb, severity, categories, sizeMb, isDownloaded,
                                        rebootRequired, evaluationState, deadline, complianceState);
      assert parts[3..i + 1][..i - 3] == parts[3..i];
      assert ApplySegments(Blank(title, source), parts[3..i + 1], floats) == ApplySegment(before, part, floats);
      if ':' in part {
        var (key, value) := SplitFirst(part, ':');
        if key == "KB" {
          kb := Some(value);
        } else if key == "SEVERITY" {
          severity := Some(value);
        } else if key == "CATEGORIES" {
          categories := Some(value);
        } else if key == "SIZE" {
          var size := floats.parse(RemoveAll(value, "MB"));
          if size.Some? {
            sizeMb := size;
          }
        } else if key == "DOWNLOADED" {
          isDownloaded := Some(Lower(value) == "true");
        } else if key == "REBOOT" {
          rebootRequired := Some(Lower(value) == "true");
        } else if key == "EVAL_STATE" {
          var n := ParseInt(value);
          if n.Some? {
            evaluationState := n;
          }
        } else if key == "DEADLINE" {
          deadline := Some(value);
        } else if key == "COMPLIANCE" {
          var n := ParseInt(value);
          if n.Some? {
            complianceState := n;
          }
        }
      }
      i := i + 1;
    }
    assert parts[3..i] == parts[3..];
    update := WindowsUpdate(title, source, kb, severity, categories, sizeMb, isDownloaded,
                            rebootRequired, evaluationState, deadline, complianceState);
  }

  /** `part` is a segment with key `key` whose value `accept`s. */
  predicate Selected(part: string, key: string, accept: string -> bool) {
    HasKey(part, key) && accept(SegmentValue(part))
  }

  function SelectedBy(key: string, accept: string -> bool): string -> bool {
    part => Selected(part, key, accept)
  }

  /** The value of the last segment with key `key` whose value `accept`s,
    * or `None` when there is no such segment. */
  function LastValue(segs: seq<string>, key: string, accept: string -> bool): Option<string> {
    match LastWhere(segs, SelectedBy(key, accept))
    case None => None
    case Some(i) => Some(SegmentValue(segs[i]))
  }

  function AnyText(v: string): bool {
    true
  }

  function IsInteger(v: string): bool {
    ParseInt(v).Some?
  }

  /** The values `float(value.replace("MB", ""))` accepts. */
  function SizeParses(floats: Floats): string -> bool {
    v => floats.parse(RemoveAll(v, "MB")).Some?
  }

  /** `value.lower() == "true"` of a present value. */
  function AsFlag(v: Option<string>): Option<bool> {
    match v
    case None => None
    case Some(s) => Some(Lower(s) == "true")
  }

  function AsInt(v: Option<string>): Option<int> {
    match v
    case None => None
    case Some(s) => ParseInt(s)
  }

  function AsSize(v: Option<string>, floats: Floats): Option<real> {
    match v
    case None => None
    case Some(s) => floats.parse(RemoveAll(s, "MB"))
  }

  /** A field that each segment either sets from its own value (when
    * `Selected`) or leaves alone ends up with what the last selected segment
    * gave it, and stays absent when no segment is selected. */
  lemma {:induction false} LastSegmentWins<T>(u0: WindowsUpdate, segs: seq<string>, floats: Floats, key: string,
                                              accept: string -> bool, get: WindowsUpdate -> Option<T>,
                                              conv: string -> Option<T>)
    requires get(u0) == None
    requires forall u, part :: get(ApplySegment(u, part, floats))
                               == if Selected(part, key, accept) then conv(SegmentValue(part)) else get(u)
    ensures get(ApplySegments(u0, segs, floats))
            == match LastValue(segs, key, accept) case None => None case Some(v) => conv(v)
    decreases |segs|
  {
    if segs != [] {
      LastSegmentWins(u0, segs[..|segs| - 1], floats, key, accept, get, conv);
    }
  }

  /** Every field comes from the last segment carrying its key: a repeated
    * key keeps the last value; DOWNLOADED and REBOOT become a present
    * boolean, true exactly when the lower-cased value is "true"; EVAL_STATE,
    * COMPLIANCE and SIZE come from the last segment whose value parses, and
    * stay absent when none does. */
  lemma FieldsFromLastSegments(title: string, source: string, segs: seq<string>, floats: Floats)
    ensures var u := ApplySegments(Blank(title, source), segs, floats);
      && u.kb == LastValue(segs, "KB", AnyText)
      && u.severity == LastValue(segs, "SEVERITY", AnyText)
      && u.categories == LastValue(segs, "CATEGORIES", AnyText)
      && u.deadline == LastValue(segs, "DEADLINE", AnyText)
      && u.isDownloaded == AsFlag(LastValue(segs, "DOWNLOADED", AnyText))
      && u.rebootRequired == AsFlag(LastValue(segs, "REBOOT", AnyText))
      && u.evaluationState == AsInt(LastValue(segs, "EVAL_STATE", IsInteger))
      && u.complianceState == AsInt(LastValue(segs, "COMPLIANCE", IsInteger))
      && u.sizeMb == AsSize(LastValue(segs, "SIZE", SizeParses(floats)), floats)
  {
    forall u, part {
      ApplySegmentFields(u, part, floats);
    }
    TextFieldsFromLastSegments(Blank(title, source), segs, floats);
    ConvertedFieldsFromLastSegments(Blank(title, source), segs, floats);
  }

  lemma TextFieldsFromLastSegments(u0: WindowsUpdate, segs: seq<string>, floats: Floats)
    requires u0.kb == u0.severity == u0.categories == u0.deadline == None
    requires forall u, part :: var r := ApplySegment(u, part, floats);
      && r.kb == (if Selected(part, "KB", AnyText) then Some(SegmentValue(part)) else u.kb)
      && r.severity == (if Selected(part, "SEVERITY", AnyText) then Some(SegmentValue(part)) else u.severity)
      && r.categories == (if Selected(part, "CATEGORIES", AnyText) then Some(SegmentValue(part)) else u.categories)
      && r.deadline == (if Selected(part, "DEADLINE", AnyText) then Some(SegmentValue(part)) else u.deadline)
    ensures var u := ApplySegments(u0, segs, floats);
      && u.kb == LastValue(segs, "KB", AnyText)
      && u.severity == LastValue(segs, "SEVERITY", AnyText)
      && u.categories == LastValue(segs, "CATEGORIES", AnyText)
      && u.deadline == LastValue(segs, "DEADLINE", AnyText)
  {
    LastSegmentWins(u0, segs, floats, "KB", AnyText, (u: WindowsUpdate) => u.kb, v => Some(v));
    LastSegmentWins(u0, segs, floats, "SEVERITY", AnyText, (u: WindowsUpdate) => u.severity, v => Some(v));
    LastSegmentWins(u0, segs, floats, "CATEGORIES", AnyText, (u: WindowsUpdate) => u.categories, v => Some(v));
    LastSegmentWins(u0, segs, floats, "DEADLINE", AnyText, (u: WindowsUpdate) => u.deadline, v => Some(v));
  }

  lemma ConvertedFieldsFromLastSegments(u0: WindowsUpdate, segs: seq<string>, floats: Floats)
    requires u0.isDownloaded == u0.rebootRequired == None
    requires u0.evaluationState == u0.complianceState == None && u0.sizeMb == None
    requires forall u, part :: var r := ApplySegment(u, part, floats);
      && r.isDownloaded ==
        (if Selected(part, "DOWNLOADED", AnyText) then AsFlag(Some(SegmentValue(part))) else u.isDownloaded)
      && r.rebootRequired ==
        (if Selected(part, "REBOOT", AnyText) then AsFlag(Some(SegmentValue(part))) else u.rebootRequired)
      && r.evaluationState ==
        (if Selected(part, "EVAL_STATE", IsInteger) then AsInt(Some(SegmentValue(part))) else u.evaluationState)
      && r.complianceState ==
        (if Selected(part, "COMPLIANCE", IsInteger) then AsInt(Some(SegmentValue(part))) else u.complianceState)
      && r.sizeMb ==
        (if Selected(part, "SIZE", SizeParses(floats)) then AsSize(Some(SegmentValue(part)), floats) else u.sizeMb)
    ensures var u := ApplySegments(u0, segs, floats);
      && u.isDownloaded == AsFlag(LastValue(segs, "DOWNLOADED", AnyText))
      && u.rebootRequired == AsFlag(LastValue(segs, "REBOOT", AnyText))
      && u.evaluationState == AsInt(LastValue(segs, "EVAL_STATE", IsInteger))
      && u.complianceState == AsInt(LastValue(segs, "COMPLIANCE", IsInteger))
      && u.sizeMb == AsSize(LastValue(segs, "SIZE", SizeParses(floats)), floats)
  {
    LastSegmentWins(u0, segs, floats, "DOWNLOADED", AnyText, (u: WindowsUpdate) => u.isDownloaded, v => AsFlag(Some(v)));
    LastSegmentWins(u0, segs, floats, "REBOOT", AnyText, (u: WindowsUpdate) => u.rebootRequired, v => AsFlag(Some(v)));
    LastSegmentWins(u0, segs, floats, "EVAL_STATE", IsInteger, (u: WindowsUpdate) => u.evaluationState, v => AsInt(Some(v)));
    LastSegmentWins(u0, segs, floats, "COMPLIANCE", IsInteger, (u: WindowsUpdate) => u.complianceState, v => AsInt(Some(v)));
    LastSegmentWins(u0, segs, floats, "SIZE", SizeParses(floats), (u: WindowsUpdate) => u.sizeMb, v => AsSize(Some(v), floats));
  }

  // ---------------------------------------------------------------------
  // One row as the parser sees it
  // ---------------------------------------------------------------------

  /** Two prefixes that differ at position `i` cannot both begin `s`. */
  lemma PrefixClash(s: string, p: string, q: string, i: nat)
    requires StartsWith(s, p) && i < |p| && i < |q| && p[i] != q[i]
    ensures !StartsWith(s, q)
  {
    assert s[i] == p[i];
  }

  /** No control prefix begins with another, so a line that begins with a
    * client prefix is that client line whatever the order of the tests. */
  lemma ClassifyClient(s: string, f: ClientField)
    requires StartsWith(s, ClientPrefix(f))
    ensures Classify(s) == ClientLine(f, s[|ClientPrefix(f)|..])
  {
    match f
    case StatusField =>
    case VersionField =>
      PrefixClash(s, ClientPrefix(f), ClientPrefix(StatusField), 12);
    case PolicyField =>
      PrefixClash(s, ClientPrefix(f), ClientPrefix(StatusField), 5);
      PrefixClash(s, ClientPrefix(f), ClientPrefix(VersionField), 5);
  }

  /** Likewise for a line that begins with a counter prefix. */
  lemma ClassifyCounter(s: string, k: CounterKind)
    requires StartsWith(s, CounterPrefix(k))
    ensures Classify(s) == CounterLine(k, s[|CounterPrefix(k)|..])
  {
    PrefixClash(s, CounterPrefix(k), ClientPrefix(StatusField), if k == SccmCounter then 5 else 0);
    PrefixClash(s, CounterPrefix(k), ClientPrefix(VersionField), if k == SccmCounter then 5 else 0);
    PrefixClash(s, CounterPrefix(k), ClientPrefix(PolicyField), if k == SccmCounter then 5 else 0);
    if k != WindowsCounter {
      PrefixClash(s, CounterPrefix(k), CounterPrefix(WindowsCounter), 0);
    }
    if k == TotalCounter {
      PrefixClash(s, CounterPrefix(k), CounterPrefix(SccmCounter), 0);
    }
  }

  /** A row as the parser sees it: what its line says, the line itself
    * (which a failing `int()` reports), and the record an `UPDATE|` line
    * with at least three pieces makes. */
  datatype RowView = RowView(line: Line, text: string, record: Option<WindowsUpdate>)

  /** What a row says; an empty row (`if not line: continue`) says nothing. */
  function View(row: seq<string>, floats: Floats): RowView {
    var line := if row == [] then OtherLine else Classify(LineText(row));
    RowView(line, LineText(row),
            if line.UpdateLine? && |line.parts| >= 3 then Some(RecordOf(line.parts, floats)) else None)
  }

  /** The view of every row, in row order. */
  function Views(rows: seq<seq<string>>, floats: Floats): (vs: seq<RowView>)
    ensures |vs| == |rows|
    decreases |rows|
  {
    if rows == [] then [] else Views(rows[..|rows| - 1], floats) + [View(rows[|rows| - 1], floats)]
  }

  /** `Views(rows)[i]` is `View(rows[i])`. */
  lemma {:induction false} ViewAt(rows: seq<seq<string>>, floats: Floats, i: nat)
    requires i < |rows|
    ensures Views(rows, floats)[i] == View(rows[i], floats)
    decreases |rows|
  {
    var init := rows[..|rows| - 1];
    var vs := Views(init, floats);
    assert Views(rows, floats) == vs + [View(rows[|rows| - 1], floats)];
    if i < |rows| - 1 {
      ViewAt(init, floats, i);
      assert init[i] == rows[i];
      assert Views(rows, floats)[i] == vs[i];
    }
  }

  /** The row sets client field `f`. */
  predicate SetsClient(v: RowView, f: ClientField) {
    v.line.ClientLine? && v.line.field == f
  }

  function ClientRows(f: ClientField): RowView -> bool {
    v => SetsClient(v, f)
  }

  /** The row sets counter `k`. */
  predicate SetsCounter(v: RowView, k: CounterKind) {
    v.line.CounterLine? && v.line.kind == k
  }

  function CounterRows(k: CounterKind): RowView -> bool {
    v => SetsCounter(v, k)
  }

  /** A counter row whose value `int()` rejects. */
  predicate BadCounterRow(v: RowView) {
    v.line.CounterLine? && ParseInt(v.line.value).None?
  }

  /** The row is an `UPDATE|` line with at least three pieces. */
  predicate IsRecordRow(v: RowView) {
    v.line.UpdateLine? && v.record.Some?
  }

  /** A client row is one whose joined, stripped line begins with that
    * field's prefix; its value is the rest of the line. */
  lemma ClientRowKind(row: seq<string>, floats: Floats, f: ClientField)
    ensures SetsClient(View(row, floats), f) <==> StartsWith(LineText(row), ClientPrefix(f))
    ensures SetsClient(View(row, floats), f) ==> View(row, floats).line.value == LineText(row)[|ClientPrefix(f)|..]
  {
    var s := LineText(row);
    if row == [] {
      assert s == [];
    } else if StartsWith(s, ClientPrefix(f)) {
      ClassifyClient(s, f);
    }
  }

  /** A counter row is one whose joined, stripped line begins with that
    * counter's prefix; its value is the rest of the line. */
  lemma CounterRowKind(row: seq<string>, floats: Floats, k: CounterKind)
    ensures SetsCounter(View(row, floats), k) <==> StartsWith(LineText(row), CounterPrefix(k))
    ensures SetsCounter(View(row, floats), k) ==> View(row, floats).line.value == LineText(row)[|CounterPrefix(k)|..]
  {
    var s := LineText(row);
    if row == [] {
      assert s == [];
    } else if StartsWith(s, CounterPrefix(k)) {
      ClassifyCounter(s, k);
    }
  }

  /** A record row is one whose joined, stripped line begins with `UPDATE|`
    * and has at least three `|`-separated pieces. */
  lemma RecordRowKind(row: seq<string>, floats: Floats)
    ensures IsRecordRow(View(row, floats)) <==> StartsWith(LineText(row), UpdatePrefix) && |Split(LineText(row), '|')| >= 3
    ensures IsRecordRow(View(row, floats)) ==> View(row, floats).record == Some(RecordOf(Split(LineText(row), '|'), floats))
  {
    if row == [] {
      assert LineText(row) == [];
    }
  }

  // ---------------------------------------------------------------------
  // The row loop
  // ---------------------------------------------------------------------

  /** The locals of `parse_ms_win_update_v2` between two rows. */
  datatype Scan = Scan(
    updates: seq<WindowsUpdate>,
    windowsUpdateCount: int,
    sccmUpdateCount: int,
    totalCount: int,
    sccmStatus: string,
    sccmVersion: string,
    sccmLastPolicy: string)

  const Initial: Scan := Scan([], 0, 0, 0, "", "", "")

  function Counter(sc: Scan, k: CounterKind): int {
    match k
    case WindowsCounter => sc.windowsUpdateCount
    case SccmCounter => sc.sccmUpdateCount
    case TotalCounter => sc.totalCount
  }

  function ClientValue(sc: Scan, f: ClientField): string {
    match f
    case StatusField => sc.sccmStatus
    case VersionField => sc.sccmVersion
    case PolicyField => sc.sccmLastPolicy
  }

  /** One iteration of the row loop. */
  function Step(sc: Scan, v: RowView): Result<Scan, ParseError> {
    match v.line
    case ClientLine(f, value) =>
      Ok(match f
         case StatusField => sc.(sccmStatus := value)
         case VersionField => sc.(sccmVersion := value)
         case PolicyField => sc.(sccmLastPolicy := value))
    case CounterLine(k, value) =>
      (match ParseInt(value)
       case None => Err(InvalidCounter(v.text))
       case Some(n) =>
         Ok(match k
            case WindowsCounter => sc.(windowsUpdateCount := n)
            case SccmCounter => sc.(sccmUpdateCount := n)
            case TotalCounter => sc.(totalCount := n)))
    case UpdateLine(_) =>
      (match v.record
       case Some(u) => Ok(sc.(updates := sc.updates + [u]))
       case None => Ok(sc))
    case OtherLine => Ok(sc)
  }

  /** The row loop over `views`; the first malformed counter ends it. */
  function ScanViews(views: seq<RowView>): Result<Scan, ParseError>
    decreases |views|
  {
    if views == [] then Ok(Initial)
    else match ScanViews(views[..|views| - 1])
         case Err(e) => Err(e)
         case Ok(sc) => Step(sc, views[|views| - 1])
  }

  /** The section built after the loop: client info only for a non-empty status. */
  function Finish(sc: Scan): Section {
    Section(sc.updates, sc.windowsUpdateCount, sc.sccmUpdateCount, sc.totalCount,
            if sc.sccmStatus != "" then Some(SccmClientInfo(sc.sccmStatus, sc.sccmVersion, sc.sccmLastPolicy))
            else None)
  }

  /** `parse_ms_win_update_v2` as a function of the rows. */
  function ParseSection(rows: seq<seq<string>>, floats: Floats): Result<Section, ParseError> {
    ParseViews(Views(rows, floats))
  }

  /** The parser once each row has been classified. */
  function ParseViews(views: seq<RowView>): Result<Section, ParseError> {
    match ScanViews(views)
    case Err(e) => Err(e)
    case Ok(sc) => Ok(Finish(sc))
  }

  /** Once the loop has failed on a prefix of the rows, the rest of the rows
    * do not matter. */
  lemma {:induction false} ScanErrorSticks(views: seq<RowView>, k: nat)
    requires k <= |views| && ScanViews(views[..k]).Err?
    ensures ScanViews(views) == ScanViews(views[..k])
    decreases |views|
  {
    if k < |views| {
      assert views[..|views| - 1][..k] == views[..k];
      ScanErrorSticks(views[..|views| - 1], k);
    } else {
      assert views[..k] == views;
    }
  }

  /** The views of a prefix of the rows are a prefix of the views. */
  lemma {:induction false} ViewsPrefix(rows: seq<seq<string>>, floats: Floats, k: nat)
    requires k <= |rows|
    ensures Views(rows[..k], floats) == Views(rows, floats)[..k]
    decreases |rows|
  {
    if k < |rows| {
      var init := rows[..|rows| - 1];
      assert init[..k] == rows[..k];
      ViewsPrefix(init, floats, k);
      assert Views(rows, floats)[..|rows| - 1] == Views(init, floats);
    } else {
      assert rows[..k] == rows;
    }
  }

  /** `parse_ms_win_update_v2(string_table)`. */
  method ParseMsWinUpdateV2(stringTable: seq<seq<string>>, floats: Floats) returns (section: Result<Section, ParseError>)
    ensures section == ParseSection(stringTable, floats)
  {
    var locals := Initial;
    var i := 0;
    while i < |stringTable|
      invariant 0 <= i <= |stringTable|
      invariant ScanViews(Views(stringTable[..i], floats)) == Ok(locals)
    {
      ghost var views := Views(stringTable[..i + 1], floats);
      assert stringTable[..i + 1][..i] == stringTable[..i];
      assert views[..i] == Views(stringTable[..i], floats);
      assert ScanViews(views) == Step(locals, View(stringTable[i], floats));
      var next := ParseRow(locals, stringTable[i], floats);
      i := i + 1;
      if next.Err? {
        ViewsPrefix(stringTable, floats, i);
        ScanErrorSticks(Views(stringTable, floats), i);
        return Err(next.error);
      }
      locals := next.value;
    }
    assert stringTable[..i] == stringTable;
    section := Ok(Finish(locals));
  }

  /** The body of the row loop: an empty row is skipped; otherwise the
    * joined, stripped line sets a client field, sets a counter (failing
    * when `int()` rejects its value), or appends an update record. */
  method ParseRow(locals: Scan, line: seq<string>, floats: Floats) returns (next: Result<Scan, ParseError>)
    ensures next == Step(locals, View(line, floats))
  {
    if line == [] {
      return Ok(locals);
    }
    var lineStr := LineText(line);
    match Classify(lineStr) {
      case ClientLine(f, v) =>
        match f {
          case StatusField => next := Ok(locals.(sccmStatus := v));
          case VersionField => next := Ok(locals.(sccmVersion := v));
          case PolicyField => next := Ok(locals.(sccmLastPolicy := v));
        }
      case CounterLine(k, v) =>
        var n := ParseInt(v);
        if n.None? {
          return Err(InvalidCounter(lineStr));
        }
        match k {
          case WindowsCounter => next := Ok(locals.(windowsUpdateCount := n.value));
          case SccmCounter => next := Ok(locals.(sccmUpdateCount := n.value));
          case TotalCounter => next := Ok(locals.(totalCount := n.value));
        }
      case UpdateLine(parts) =>
        if |parts| >= 3 {
          var update := ParseUpdateRecord(parts, floats);
          next := Ok(locals.(updates := locals.updates + [update]));
        } else {
          next := Ok(locals);
        }
      case OtherLine =>
        next := Ok(locals);
    }
  }


  // ---------------------------------------------------------------------
  // What the parsed section says about the rows
  // ---------------------------------------------------------------------

  /** One record per record row, in row order. */
  function Records(views: seq<RowView>): seq<WindowsUpdate> {
    var picked := Filter(views, IsRecordRow);
    seq(|picked|, k requires 0 <= k < |picked| => picked[k].record.value)
  }

  /** The client value of the last row that sets it, `""` when none does. */
  function LastClient(views: seq<RowView>, f: ClientField): string {
    match LastWhere(views, ClientRows(f))
    case None => ""
    case Some(i) => views[i].line.value
  }

  /** The records collected so far are those of the record rows read so far. */
  lemma {:induction false} ScanRecords(views: seq<RowView>)
    requires ScanViews(views).Ok?
    ensures ScanViews(views).value.updates == Records(views)
    decreases |views|
  {
    if views != [] {
      var init := views[..|views| - 1];
      var last := views[|views| - 1];
      assert views == init + [last];
      ScanRecords(init);
      var sc := ScanViews(init).value;
      assert ScanViews(views) == Step(sc, last);
      StepRecords(sc, last);
      RecordsSnoc(init, last);
    }
  }

  /** One step appends the record of a record row and nothing else. */
  lemma StepRecords(sc: Scan, v: RowView)
    requires Step(sc, v).Ok?
    ensures Step(sc, v).value.updates == sc.updates + if IsRecordRow(v) then [v.record.value] else []
  {
  }

  lemma RecordsSnoc(views: seq<RowView>, v: RowView)
    ensures Records(views + [v]) == Records(views) + if IsRecordRow(v) then [v.record.value] else []
  {
    assert (views + [v])[..|views|] == views;
    var picked := Filter(views, IsRecordRow);
    if IsRecordRow(v) {
      assert Filter(views + [v], IsRecordRow) == picked + [v];
    } else {
      assert Filter(views + [v], IsRecordRow) == picked;
    }
  }

  /** Each counter holds the value of the last row that sets it, 0 when no
    * row does. */
  lemma {:induction false} ScanCounter(views: seq<RowView>, k: CounterKind)
    requires ScanViews(views).Ok?
    ensures var n := Counter(ScanViews(views).value, k);
      match LastWhere(views, CounterRows(k))
      case None => n == 0
      case Some(i) => ParseInt(views[i].line.value) == Some(n)
    decreases |views|
  {
    if views != [] {
      var init := views[..|views| - 1];
      var last := views[|views| - 1];
      ScanCounter(init, k);
      var sc := ScanViews(init).value;
      StepCounter(sc, last, k);
      if !SetsCounter(last, k) {
        assert LastWhere(views, CounterRows(k)) == LastWhere(init, CounterRows(k));
        match LastWhere(init, CounterRows(k))
        case None =>
        case Some(i) => assert views[i] == init[i];
      }
    }
  }

  /** One step sets counter `k` to the integer of a row that sets it and
    * leaves it alone otherwise. */
  lemma StepCounter(sc: Scan, v: RowView, k: CounterKind)
    requires Step(sc, v).Ok?
    ensures SetsCounter(v, k) ==> ParseInt(v.line.value) == Some(Counter(Step(sc, v).value, k))
    ensures !SetsCounter(v, k) ==> Counter(Step(sc, v).value, k) == Counter(sc, k)
  {
  }

  /** Each client field holds the value of the last row that sets it. */
  lemma {:induction false} ScanClient(views: seq<RowView>, f: ClientField)
    requires ScanViews(views).Ok?
    ensures ClientValue(ScanViews(views).value, f) == LastClient(views, f)
    decreases |views|
  {
    if views != [] {
      var init := views[..|views| - 1];
      var last := views[|views| - 1];
      ScanClient(init, f);
      var sc := ScanViews(init).value;
      StepClient(sc, last, f);
      if !SetsClient(last, f) {
        assert LastWhere(views, ClientRows(f)) == LastWhere(init, ClientRows(f));
        match LastWhere(init, ClientRows(f))
        case None =>
        case Some(i) => assert views[i] == init[i];
      }
    }
  }

  /** One step sets client field `f` to the value of a row that sets it and
    * leaves it alone otherwise. */
  lemma StepClient(sc: Scan, v: RowView, f: ClientField)
    requires Step(sc, v).Ok?
    ensures ClientValue(Step(sc, v).value, f) == if SetsClient(v, f) then v.line.value else ClientValue(sc, f)
  {
  }

  /** The row loop fails exactly when some counter row does not hold an
    * integer, and then with the line of the first such row. */
  lemma {:induction false} ScanFails(views: seq<RowView>)
    ensures ScanViews(views).Err? <==> exists i :: 0 <= i < |views| && BadCounterRow(views[i])
    ensures ScanViews(views).Err? ==>
      exists i :: && 0 <= i < |views| && BadCounterRow(views[i])
                  && (forall j :: 0 <= j < i ==> !BadCounterRow(views[j]))
                  && ScanViews(views).error == InvalidCounter(views[i].text)
    decreases |views|
  {
    if views != [] {
      var init := views[..|views| - 1];
      ScanFails(init);
      assert forall i :: 0 <= i < |init| ==> init[i] == views[i];
      if ScanViews(init).Ok? && BadCounterRow(views[|views| - 1]) {
        assert forall j :: 0 <= j < |views| - 1 ==> !BadCounterRow(views[j]);
      }
    }
  }

  /** The counter of kind `k` in a parsed section. */
  function CounterOf(section: Section, k: CounterKind): int {
    match k
    case WindowsCounter => section.windowsUpdateCount
    case SccmCounter => section.sccmUpdateCount
    case TotalCounter => section.totalCount
  }

  /** What `parse_ms_win_update_v2` returns, stated over the classified rows
    * `views` (`ParseSection(rows, floats)` is `ParseViews(Views(rows, floats))`,
    * and `ClientRowKind`, `CounterRowKind` and `RecordRowKind` say which rows
    * set what):
    * - it fails exactly when some counter row does not hold an integer;
    * - otherwise the updates are the records of the record rows, in row
    *   order, and every other row adds none;
    * - each counter is the integer of the last row that sets it, 0 when
    *   none does;
    * - client info exists exactly when the last status value is non-empty,
    *   and carries the last version and policy values, `""` when absent. */
  lemma ParseViewsMeaning(views: seq<RowView>)
    ensures ParseViews(views).Err? <==> exists i :: 0 <= i < |views| && BadCounterRow(views[i])
    ensures ParseViews(views).Ok? ==>
      var section := ParseViews(views).value;
      && section.updates == Records(views)
      && |section.updates| <= |views|
      && (section.sccmClientInfo.Some? <==> LastClient(views, StatusField) != "")
      && (section.sccmClientInfo.Some? ==>
            section.sccmClientInfo.value
            == SccmClientInfo(LastClient(views, StatusField), LastClient(views, VersionField), LastClient(views, PolicyField)))
    ensures ParseViews(views).Ok? ==>
      forall k :: match LastWhere(views, CounterRows(k))
        case None => CounterOf(ParseViews(views).value, k) == 0
        case Some(i) => ParseInt(views[i].line.value) == Some(CounterOf(ParseViews(views).value, k))
  {
    ScanFails(views);
    if ScanViews(views).Ok? {
      ScanRecords(views);
      ScanClient(views, StatusField);
      ScanClient(views, VersionField);
      ScanClient(views, PolicyField);
      forall k ensures match LastWhere(views, CounterRows(k))
        case None => CounterOf(ParseViews(views).value, k) == 0
        case Some(i) => ParseInt(views[i].line.value) == Some(CounterOf(ParseViews(views).value, k))
      {
        ScanCounter(views, k);
      }
    }
  }
}
