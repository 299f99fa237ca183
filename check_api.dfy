/** What a check function hands to the monitoring core: results carrying a
  * state and text, and named metrics. Also the two pieces of the host
  * framework both plug-ins call: the two-level upper threshold rule of
  * `check_levels`, and the regular-expression engine, kept uninterpreted. */
module CheckApi {
  import opened Wrappers

  datatype State = OK | WARN | CRIT

  /** `("no_levels", None)` or `("fixed", (warn, crit))` as the rule engine
    * stores an upper-levels parameter; an absent parameter is `None`. */
  datatype Levels = NoLevels | Fixed(warn: int, crit: int)

  /** The text of a result: a summary, a notice, a notice with a details
    * block, or the summary `check_levels` renders from its label and value. */
  datatype Text =
    | Summary(summary: string)
    | Notice(notice: string)
    | Details(notice: string, details: string)
    | LevelsText(caption: string, value: int)

  datatype Output = Result(state: State, text: Text) | Metric(name: string, value: int)

  /** The state `check_levels` gives `value` against optional upper levels:
    * CRIT from the critical level on, WARN from the warning level on. */
  function LevelState(value: int, levels: Option<Levels>): (s: State)
    ensures s == CRIT <==> levels.Some? && levels.value.Fixed? && value >= levels.value.crit
    ensures s == WARN <==> levels.Some? && levels.value.Fixed? && levels.value.warn <= value < levels.value.crit
    ensures levels.None? || levels.value.NoLevels? ==> s == OK
  {
    match levels
    case Some(Fixed(warn, crit)) =>
      if value >= crit then CRIT else if value >= warn then WARN else OK
    case _ => OK
  }

  function Rank(s: State): nat {
    match s
    case OK => 0
    case WARN => 1
    case CRIT => 2
  }

  /** A larger count never gets a milder state under the same levels. */
  lemma LevelStateMonotone(v1: int, v2: int, levels: Option<Levels>)
    requires v1 <= v2
    ensures Rank(LevelState(v1, levels)) <= Rank(LevelState(v2, levels))
  {
  }

  /** The metrics among `out`, as name and value, in the order they were
    * emitted. */
  function Metrics(out: seq<Output>): seq<(string, int)> {
    if out == [] then []
    else Metrics(out[..|out| - 1])
         + (if out[|out| - 1].Metric? then [(out[|out| - 1].name, out[|out| - 1].value)] else [])
  }

  /** The metrics of consecutive outputs are those of each part, in order. */
  lemma {:induction false} MetricsAppend(a: seq<Output>, b: seq<Output>)
    ensures Metrics(a + b) == Metrics(a) + Metrics(b)
    decreases |b|
  {
    if b == [] {
      assert a + b == a;
    } else {
      assert (a + b)[..|a + b| - 1] == a + b[..|b| - 1];
      MetricsAppend(a, b[..|b| - 1]);
    }
  }

  /** Outputs that are all results carry no metric. */
  lemma {:induction false} NoMetrics(out: seq<Output>)
    requires forall k :: 0 <= k < |out| ==> out[k].Result?
    ensures Metrics(out) == []
    decreases |out|
  {
    if out != [] {
      NoMetrics(out[..|out| - 1]);
    }
  }

  /** Results placed around some outputs add no metrics to them. */
  lemma MetricsBetweenResults(head: seq<Output>, mid: seq<Output>, tail: seq<Output>)
    requires forall k :: 0 <= k < |head| ==> head[k].Result?
    requires forall k :: 0 <= k < |tail| ==> tail[k].Result?
    ensures Metrics(head + (mid + tail)) == Metrics(mid)
  {
    NoMetrics(head);
    NoMetrics(tail);
    MetricsAppend(head, mid + tail);
    MetricsAppend(mid, tail);
  }

  /** `check_levels(value, levels_upper=levels, metric_name=metric, label=caption)`:
    * one result in the threshold state, then the metric with the raw value. */
  function CheckLevels(value: int, levels: Option<Levels>, metric: string, caption: string): (r: seq<Output>)
    ensures Metrics(r) == [(metric, value)]
    ensures forall k :: 0 <= k < |r| && r[k].Result? ==>
      r[k].state == LevelState(value, levels) && r[k].text == LevelsText(caption, value)
    ensures exists k :: 0 <= k < |r| && r[k].Result?
    ensures r != [] && r[0] == Result(LevelState(value, levels), LevelsText(caption, value))
  {
    var r := [Result(LevelState(value, levels), LevelsText(caption, value)), Metric(metric, value)];
    assert r[..1] == [r[0]];
    assert r[..1][..0] == [];
    assert Metrics(r[..1]) == [];
    r
  }

  /** The regular-expression engine: whether `re.compile(pattern)` succeeds,
    * and whether `compiled.search(text)` finds a match anywhere in `text`. */
  datatype Regex = Regex(compiles: string -> bool, search: (string, string) -> bool)

  /** `re.error` raised while compiling an ignore pattern. */
  datatype CheckError = InvalidPattern(pattern: string)

  /** `[re.compile(p) for p in patterns]`: the first pattern that fails to
    * compile, the one whose exception escapes; `None` when all compile. */
  function FirstInvalid(re: Regex, patterns: seq<string>): (r: Option<string>)
    ensures r.None? <==> forall i :: 0 <= i < |patterns| ==> re.compiles(patterns[i])
    ensures r.Some? ==> exists i :: (0 <= i < |patterns| && patterns[i] == r.value && !re.compiles(r.value)
                                     && forall j :: 0 <= j < i ==> re.compiles(patterns[j]))
  {
    if patterns == [] then None
    else if !re.compiles(patterns[0]) then Some(patterns[0])
    else
      var r := FirstInvalid(re, patterns[1..]);
      assert r.Some? ==> exists i :: (1 <= i < |patterns| && patterns[i] == r.value && !re.compiles(r.value)
                                      && forall j :: 0 <= j < i ==> re.compiles(patterns[j])) by {
        if r.Some? {
          var i :| 0 <= i < |patterns[1..]| && patterns[1..][i] == r.value && !re.compiles(r.value)
            && forall j :: 0 <= j < i ==> re.compiles(patterns[1..][j]);
          assert forall j :: 0 <= j < i + 1 ==> re.compiles(patterns[j]) by {
            forall j | 0 <= j < i + 1 ensures re.compiles(patterns[j]) {
              if j > 0 { assert patterns[j] == patterns[1..][j - 1]; }
            }
          }
        }
      }
      r
  }

  /** `any(p.search(title) for p in compiled_patterns)`. */
  function AnyMatch(re: Regex, patterns: seq<string>, title: string): (b: bool)
    ensures b <==> exists i :: 0 <= i < |patterns| && re.search(patterns[i], title)
  {
    if patterns == [] then false
    else re.search(patterns[0], title) || AnyMatch(re, patterns[1..], title)
  }
}
