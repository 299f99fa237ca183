/** The Python string built-ins the plug-ins use (`str.join`, `str.strip`,
  * `str.startswith`, `str.split`, `str.lower`, `str.replace`, `int` and the
  * decimal rendering of counts), written over `string` = `seq<char>`. */
module PyText {
  import opened Wrappers

  /** Python's `str.isspace()` for one character: the characters `str.strip()`
    * removes when it is called without arguments. */
  predicate IsSpace(c: char) {
    || ('\t' <= c <= '\r')
    || ('\U{1C}' <= c <= '\U{1F}')
    || c == ' ' || c == '\U{85}' || c == '\U{A0}' || c == '\U{1680}'
    || ('\U{2000}' <= c <= '\U{200A}')
    || c == '\U{2028}' || c == '\U{2029}' || c == '\U{202F}' || c == '\U{205F}' || c == '\U{3000}'
  }

  /** `str.lstrip()`. */
  function TrimLeft(s: string): (r: string)
    ensures |r| <= |s|
  {
    if s != [] && IsSpace(s[0]) then TrimLeft(s[1..]) else s
  }

  /** `str.rstrip()`. */
  function TrimRight(s: string): (r: string)
    ensures |r| <= |s|
  {
    if s != [] && IsSpace(s[|s| - 1]) then TrimRight(s[..|s| - 1]) else s
  }

  /** `str.strip()`. */
  function Strip(s: string): (r: string)
    ensures |r| <= |s|
  {
    TrimRight(TrimLeft(s))
  }

  /** `lstrip` removes the leading whitespace and nothing else. */
  lemma {:induction false} TrimLeftMeaning(s: string)
    ensures var r := TrimLeft(s);
      && r == s[|s| - |r|..]
      && (r == [] || !IsSpace(r[0]))
      && forall i :: 0 <= i < |s| - |r| ==> IsSpace(s[i])
    decreases |s|
  {
    if s != [] && IsSpace(s[0]) {
      TrimLeftMeaning(s[1..]);
    }
  }

  /** `rstrip` removes the trailing whitespace and nothing else. */
  lemma {:induction false} TrimRightMeaning(s: string)
    ensures var r := TrimRight(s);
      && r == s[..|r|]
      && (r == [] || !IsSpace(r[|r| - 1]))
      && forall i :: |r| <= i < |s| ==> IsSpace(s[i])
    decreases |s|
  {
    if s != [] && IsSpace(s[|s| - 1]) {
      TrimRightMeaning(s[..|s| - 1]);
    }
  }

  /** `strip` keeps a contiguous middle part of `s`, from `lo` on, that
    * neither begins nor ends with whitespace, and removes only whitespace
    * around it. */
  lemma StripMeaning(s: string)
    ensures var r := Strip(s);
      var lo := |s| - |TrimLeft(s)|;
      && lo + |r| <= |s| && r == s[lo..lo + |r|]
      && (forall i :: 0 <= i < lo ==> IsSpace(s[i]))
      && (forall i :: lo + |r| <= i < |s| ==> IsSpace(s[i]))
      && (r == [] || (!IsSpace(r[0]) && !IsSpace(r[|r| - 1])))
  {
    var t := TrimLeft(s);
    var r := TrimRight(t);
    TrimLeftMeaning(s);
    TrimRightMeaning(t);
    var lo := |s| - |t|;
    assert t == s[lo..];
    assert r == t[..|r|];
    assert t[..|r|] == s[lo..lo + |r|];
    forall i | lo + |r| <= i < |s|
      ensures IsSpace(s[i])
    {
      assert s[i] == t[i - lo];
    }
  }

  /** `sep.join(parts)`. */
  function JoinWith(parts: seq<string>, sep: string): (r: string)
  {
    if parts == [] then []
    else if |parts| == 1 then parts[0]
    else parts[0] + sep + JoinWith(parts[1..], sep)
  }

  /** Every joined part can be found in the joined text. */
  lemma {:induction false} JoinedPartIsInfix(parts: seq<string>, sep: string, k: nat)
    requires k < |parts|
    ensures IsInfix(parts[k], JoinWith(parts, sep))
    decreases |parts|
  {
    var r := JoinWith(parts, sep);
    if |parts| == 1 {
      assert r[0..|parts[0]|] == parts[0];
      assert InfixAt(parts[0], r, 0);
    } else if k == 0 {
      assert r[0..|parts[0]|] == parts[0];
      assert InfixAt(parts[0], r, 0);
    } else {
      JoinedPartIsInfix(parts[1..], sep, k - 1);
      var rest := JoinWith(parts[1..], sep);
      var i :| InfixAt(parts[k], rest, i);
      var off := |parts[0]| + |sep|;
      assert r == parts[0] + sep + rest;
      assert r[off + i..off + i + |parts[k]|] == rest[i..i + |parts[k]|];
      assert InfixAt(parts[k], r, off + i);
    }
  }

  /** `p` occurs in `s` at position `i`. */
  ghost predicate InfixAt(p: string, s: string, i: int) {
    0 <= i <= |s| - |p| && s[i..i + |p|] == p
  }

  /** Python's `p in s` for strings. */
  ghost predicate IsInfix(p: string, s: string) {
    exists i :: InfixAt(p, s, i)
  }

  /** Text placed around a part keeps the part findable. */
  lemma InfixInContext(p: string, s: string, before: string, after: string)
    requires IsInfix(p, s)
    ensures IsInfix(p, before + s + after)
  {
    var i :| InfixAt(p, s, i);
    var t := before + s + after;
    assert t[|before| + i..|before| + i + |p|] == s[i..i + |p|];
    assert InfixAt(p, t, |before| + i);
  }

  /** Being found in a text that is itself found in `s` means being found
    * in `s`. */
  lemma InfixTransitive(p: string, t: string, s: string)
    requires IsInfix(p, t) && IsInfix(t, s)
    ensures IsInfix(p, s)
  {
    var i :| InfixAt(p, t, i);
    var j :| InfixAt(t, s, j);
    forall m | 0 <= m < |p|
      ensures s[j + i + m] == p[m]
    {
      assert t[i..i + |p|][m] == t[i + m];
      assert s[j..j + |t|][i + m] == s[j + i + m];
    }
    assert s[j + i..j + i + |p|] == p;
    assert InfixAt(p, s, j + i);
  }

  /** `s.startswith(p)`. */
  predicate StartsWith(s: string, p: string) {
    |p| <= |s| && s[..|p|] == p
  }

  /** `s.find(c)`, with `None` for Python's -1: the first position of `c`. */
  function Find(s: string, c: char): (r: Option<nat>)
    ensures r.None? <==> c !in s
    ensures r.Some? ==> r.value < |s| && s[r.value] == c && c !in s[..r.value]
  {
    if s == [] then None
    else if s[0] == c then Some(0)
    else match Find(s[1..], c)
         case None => None
         case Some(i) =>
           assert s[..i + 1] == [s[0]] + s[1..][..i];
           Some(i + 1)
  }

  /** `s.split(c, 1)` when `c in s`: the text before the first `c` and the
    * text after it. */
  function SplitFirst(s: string, c: char): (r: (string, string))
    requires c in s
    ensures r.0 + [c] + r.1 == s
    ensures c !in r.0
  {
    var i := Find(s, c).value;
    assert s == s[..i] + [c] + s[i + 1..];
    (s[..i], s[i + 1..])
  }

  /** When `s` begins with a prefix whose only colon is its last character,
    * `s.split(":", 1)[1]` is exactly the text after that prefix. */
  lemma ValueAfterPrefix(s: string, prefix: string)
    requires StartsWith(s, prefix)
    requires |prefix| > 0 && prefix[|prefix| - 1] == ':' && ':' !in prefix[..|prefix| - 1]
    ensures ':' in s && SplitFirst(s, ':').1 == s[|prefix|..]
  {
    var n := |prefix| - 1;
    assert s[n] == prefix[n];
    assert s[..n] == prefix[..n];
  }

  /** `s.split(c)`: the pieces between occurrences of `c`, at least one. */
  function Split(s: string, c: char): (r: seq<string>)
    ensures |r| >= 1
    ensures forall k :: 0 <= k < |r| ==> c !in r[k]
    decreases |s|
  {
    match Find(s, c)
    case None => [s]
    case Some(i) => [s[..i]] + Split(s[i + 1..], c)
  }

  /** Splitting loses nothing: joining the pieces with the separator gives
    * the original text back. */
  lemma {:induction false} SplitJoin(s: string, c: char)
    ensures JoinWith(Split(s, c), [c]) == s
    decreases |s|
  {
    match Find(s, c)
    case None =>
    case Some(i) =>
      SplitJoin(s[i + 1..], c);
      var rest := Split(s[i + 1..], c);
      assert Split(s, c) == [s[..i]] + rest;
      assert (Split(s, c))[1..] == rest;
      assert s == s[..i] + [c] + s[i + 1..];
  }

  /** A text that begins with `p + [c]` splits on `c` into `p` first. */
  lemma SplitAfterPrefix(s: string, p: string, c: char)
    requires StartsWith(s, p + [c]) && c !in p
    ensures Split(s, c)[0] == p && |Split(s, c)| >= 2
  {
    assert s[|p|] == (p + [c])[|p|] == c;
    assert s[..|p|] == p;
  }

  /** ASCII lower-casing of one character. */
  function LowerChar(c: char): char {
    if 'A' <= c <= 'Z' then (c as int + 32) as char else c
  }

  /** `s.lower()` restricted to ASCII letters. */
  function Lower(s: string): (r: string)
    ensures |r| == |s|
    ensures forall i :: 0 <= i < |s| ==> r[i] == LowerChar(s[i])
  {
    seq(|s|, i requires 0 <= i < |s| => LowerChar(s[i]))
  }

  /** `s.replace(pat, "")`: every non-overlapping occurrence of `pat`, found
    * from left to right, is removed. */
  function RemoveAll(s: string, pat: string): (r: string)
    requires pat != []
    ensures |r| <= |s|
    decreases |s|
  {
    if |s| < |pat| then s
    else if s[..|pat|] == pat then RemoveAll(s[|pat|..], pat)
    else [s[0]] + RemoveAll(s[1..], pat)
  }

  predicate IsDigit(c: char) {
    '0' <= c <= '9'
  }

  predicate AllDigits(s: string) {
    forall i :: 0 <= i < |s| ==> IsDigit(s[i])
  }

  /** The value of a string of decimal digits, most significant first. */
  function DigitsValue(s: string): nat
    requires AllDigits(s)
  {
    if s == [] then 0
    else DigitsValue(s[..|s| - 1]) * 10 + (s[|s| - 1] as int - '0' as int)
  }

  /** Python's `int(s)` on an optional sign followed by ASCII digits;
    * `None` stands for the `ValueError` Python raises on anything else. */
  function ParseInt(s: string): (r: Option<int>)
    ensures r.Some? ==> |s| > 0 && (AllDigits(s) || (|s| > 1 && (s[0] == '-' || s[0] == '+') && AllDigits(s[1..])))
    ensures s == [] ==> r.None?
    ensures AllDigits(s) && s != [] ==> r == Some(DigitsValue(s))
  {
    if |s| > 1 && (s[0] == '-' || s[0] == '+') && AllDigits(s[1..]) then
      var magnitude: int := DigitsValue(s[1..]);
      Some(if s[0] == '-' then -magnitude else magnitude)
    else if |s| > 0 && AllDigits(s) then Some(DigitsValue(s))
    else None
  }

  function DigitChar(d: nat): (c: char)
    requires d < 10
    ensures IsDigit(c) && c as int - '0' as int == d
  {
    ('0' as int + d) as char
  }

  /** `str(n)` for a count: its decimal digits, which read back as `n`. */
  function NatToString(n: nat): (r: string)
    ensures |r| >= 1 && AllDigits(r)
    ensures DigitsValue(r) == n
  {
    if n < 10 then [DigitChar(n)]
    else
      var r := NatToString(n / 10) + [DigitChar(n % 10)];
      assert r[..|r| - 1] == NatToString(n / 10);
      r
  }
}
