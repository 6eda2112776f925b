/**
 * The JavaScript string built-ins the crawler relies on: `trim`, `split` on one
 * character, and the three regular expressions it applies (`/\d{6,}/` for the
 * id, `\.html.*` for href normalisation, and the date pattern).
 * Strings are `seq<char>` with a `char` a Unicode scalar value, where
 * JavaScript has UTF-16 code units; every character the model inspects (white
 * space, ASCII digits, ',', ".html", line terminators) lies in the Basic
 * Multilingual Plane, so the difference does not affect the results.
 */
module Text {
  import opened Wrappers

  /** The LineTerminator characters of ECMAScript; the regex `.` does not match them. */
  predicate IsLineTerminator(c: char) {
    c == '\n' || c == '\r' || c == '\U{2028}' || c == '\U{2029}'
  }

  /** WhiteSpace plus LineTerminator: what `String.prototype.trim` strips. */
  predicate IsSpace(c: char) {
    IsLineTerminator(c) || c == '\t' || c == '\U{000B}' || c == '\U{000C}' || c == ' '
    || c == '\U{00A0}' || c == '\U{FEFF}' || c == '\U{1680}' || ('\U{2000}' <= c <= '\U{200A}')
    || c == '\U{202F}' || c == '\U{205F}' || c == '\U{3000}'
  }

  /** The regex class `\d`: ASCII digits only. */
  predicate IsDigit(c: char) {
    '0' <= c <= '9'
  }

  predicate AllSpace(s: string) {
    forall k :: 0 <= k < |s| ==> IsSpace(s[k])
  }

  /** `trimStart`: drop leading white space. */
  function TrimStart(s: string): string
  {
    if s != [] && IsSpace(s[0]) then TrimStart(s[1..]) else s
  }

  /** `trimEnd`: drop trailing white space. */
  function TrimEnd(s: string): string
  {
    if s != [] && IsSpace(s[|s| - 1]) then TrimEnd(s[..|s| - 1]) else s
  }

  /** `s.trim()`. */
  function Trim(s: string): string
  {
    TrimEnd(TrimStart(s))
  }

  lemma {:induction false} TrimStartSpec(s: string)
    ensures |TrimStart(s)| <= |s| && TrimStart(s) == s[|s| - |TrimStart(s)|..]
    ensures AllSpace(s[..|s| - |TrimStart(s)|])
    ensures TrimStart(s) == [] || !IsSpace(TrimStart(s)[0])
  {
    if s != [] && IsSpace(s[0]) {
      TrimStartSpec(s[1..]);
      assert s[..|s| - |TrimStart(s)|] == [s[0]] + s[1..][..|s| - 1 - |TrimStart(s)|];
    }
  }

  lemma {:induction false} TrimEndSpec(s: string)
    ensures |TrimEnd(s)| <= |s| && TrimEnd(s) == s[..|TrimEnd(s)|]
    ensures AllSpace(s[|TrimEnd(s)|..])
    ensures TrimEnd(s) == [] || !IsSpace(TrimEnd(s)[|TrimEnd(s)| - 1])
  {
    if s != [] && IsSpace(s[|s| - 1]) {
      var init := s[..|s| - 1];
      TrimEndSpec(init);
      assert s[|TrimEnd(s)|..] == init[|TrimEnd(s)|..] + [s[|s| - 1]];
    }
  }

  /**
   * The result of `trim` is the slice s[lead..lead + |Trim(s)|] of s, where
   * lead counts the leading white space; it neither starts nor ends with white
   * space, and everything cut off on either side is white space.
   */
  lemma {:induction false} TrimSpec(s: string)
    ensures var lead := |s| - |TrimStart(s)|; var r := Trim(s);
      && 0 <= lead && lead + |r| <= |s|
      && r == s[lead..lead + |r|]
      && AllSpace(s[..lead]) && AllSpace(s[lead + |r|..])
      && (r == [] || (!IsSpace(r[0]) && !IsSpace(r[|r| - 1])))
  {
    TrimStartSpec(s);
    TrimEndSpec(TrimStart(s));
    var lead := |s| - |TrimStart(s)|;
    var r := Trim(s);
    assert s[lead + |r|..] == TrimStart(s)[|r|..];
  }

  /** Trimming twice is trimming once. */
  lemma {:induction false} TrimIdempotent(s: string)
    ensures Trim(Trim(s)) == Trim(s)
  {
    TrimSpec(s);
    var r := Trim(s);
    if r != [] {
      assert TrimStart(r) == r;
      TrimEndSpec(r);
    }
  }

  /** Number of occurrences of c in s. */
  function Count(s: string, c: char): nat
  {
    if s == [] then 0 else (if s[0] == c then 1 else 0) + Count(s[1..], c)
  }

  /** The inverse of Split: the parts glued together with sep between neighbours. */
  function Join(parts: seq<string>, sep: char): string
    requires |parts| >= 1
  {
    if |parts| == 1 then parts[0] else parts[0] + [sep] + Join(parts[1..], sep)
  }

  /**
   * `s.split(sep)` for a one-character separator: one part more than there are
   * separators, no part holds the separator, and joining the parts gives s back.
   */
  function Split(s: string, sep: char): (parts: seq<string>)
    ensures |parts| == Count(s, sep) + 1
    ensures forall k :: 0 <= k < |parts| ==> sep !in parts[k]
    ensures Join(parts, sep) == s
  {
    if s == [] then [""]
    else
      var rest := Split(s[1..], sep);
      if s[0] == sep then [""] + rest
      else [[s[0]] + rest[0]] + rest[1..]
  }

  lemma {:induction false} SplitNoSeparator(s: string, sep: char)
    requires sep !in s
    ensures Split(s, sep) == [s]
  {
    if s != [] {
      assert sep !in s[1..];
      SplitNoSeparator(s[1..], sep);
      assert [s[0]] + s[1..] == s;
    }
  }

  /** Splitting a part, a separator and the rest gives the part followed by the split of the rest. */
  lemma {:induction false} SplitCons(x: string, sep: char, t: string)
    requires sep !in x
    ensures Split(x + [sep] + t, sep) == [x] + Split(t, sep)
  {
    if x == [] {
      assert [sep] + t == ([] + [sep] + t);
      assert (x + [sep] + t)[1..] == t;
    } else {
      assert (x + [sep] + t)[1..] == x[1..] + [sep] + t;
      assert sep !in x[1..];
      SplitCons(x[1..], sep, t);
      assert [x[0]] + x[1..] == x;
    }
  }

  /** Split is the only decomposition with the properties its contract states. */
  lemma {:induction false} SplitUnique(parts: seq<string>, sep: char)
    requires |parts| >= 1
    requires forall k :: 0 <= k < |parts| ==> sep !in parts[k]
    ensures Split(Join(parts, sep), sep) == parts
  {
    if |parts| == 1 {
      SplitNoSeparator(parts[0], sep);
    } else {
      SplitUnique(parts[1..], sep);
      SplitCons(parts[0], sep, Join(parts[1..], sep));
      assert [parts[0]] + parts[1..] == parts;
    }
  }

  /** A maximal run of decimal digits: the match of a regex `\d{n,}`. */
  datatype Span = Span(start: nat, end: nat)

  predicate DigitsAt(s: string, i: nat, n: nat) {
    i + n <= |s| && forall k :: i <= k < i + n ==> IsDigit(s[k])
  }

  /** Where the run of digits that begins at i ends. */
  function DigitRunEnd(s: string, i: nat): (e: nat)
    requires i <= |s|
    ensures i <= e <= |s|
    ensures forall k :: i <= k < e ==> IsDigit(s[k])
    ensures e == |s| || !IsDigit(s[e])
    decreases |s| - i
  {
    if i < |s| && IsDigit(s[i]) then DigitRunEnd(s, i + 1) else i
  }

  /** The leftmost position at or after `from` where n digits follow. */
  function FirstDigitsAt(s: string, from: nat, n: nat): (r: Option<nat>)
    requires from <= |s|
    ensures r.Some? ==> from <= r.value && DigitsAt(s, r.value, n)
    ensures forall j :: from <= j && (r.None? || j < r.value) ==> !DigitsAt(s, j, n)
    decreases |s| - from
  {
    if DigitsAt(s, from, n) then Some(from)
    else if from == |s| then None
    else FirstDigitsAt(s, from + 1, n)
  }

  /**
   * `s.match` with the regex `\d{n,}` for n >= 1: the leftmost match, extended greedily.
   * None exactly when no n digits stand together anywhere in s; otherwise the
   * span is a whole run of digits (no digit just before or just after it) of
   * length at least n, and no run of n digits starts before it.
   */
  function MatchDigits(s: string, n: nat): (r: Option<Span>)
    requires n >= 1
    ensures r.None? <==> forall j :: 0 <= j ==> !DigitsAt(s, j, n)
    ensures r.Some? ==> r.value.start + n <= r.value.end <= |s|
    ensures r.Some? ==> forall k :: r.value.start <= k < r.value.end ==> IsDigit(s[k])
    ensures r.Some? ==> r.value.start == 0 || !IsDigit(s[r.value.start - 1])
    ensures r.Some? ==> r.value.end == |s| || !IsDigit(s[r.value.end])
    ensures r.Some? ==> forall j :: 0 <= j < r.value.start ==> !DigitsAt(s, j, n)
  {
    match FirstDigitsAt(s, 0, n)
    case None => None
    case Some(i) =>
      var e := DigitRunEnd(s, i);
      assert i + n <= e;
      if i > 0 && IsDigit(s[i - 1]) then
        assert DigitsAt(s, i - 1, n);
        assert false; None
      else Some(Span(i, e))
  }

  predicate OccursAt(s: string, pat: string, i: nat) {
    i + |pat| <= |s| && s[i..i + |pat|] == pat
  }

  /** `s.indexOf(pat, from)`: the leftmost occurrence of pat at or after `from`, if any. */
  function IndexOf(s: string, pat: string, from: nat): (r: Option<nat>)
    requires from <= |s|
    ensures r.Some? ==> from <= r.value && OccursAt(s, pat, r.value)
    ensures forall j :: from <= j && (r.None? || j < r.value) ==> !OccursAt(s, pat, j)
    decreases |s| - from
  {
    if OccursAt(s, pat, from) then Some(from)
    else if from == |s| then None
    else IndexOf(s, pat, from + 1)
  }

  /** The first line terminator at or after i, or |s|: where a regex `.*` starting at i stops. */
  function LineEnd(s: string, i: nat): (e: nat)
    requires i <= |s|
    ensures i <= e <= |s|
    ensures forall k :: i <= k < e ==> !IsLineTerminator(s[k])
    ensures e == |s| || IsLineTerminator(s[e])
    decreases |s| - i
  {
    if i < |s| && !IsLineTerminator(s[i]) then LineEnd(s, i + 1) else i
  }

  /**
   * The regex `\d{1,} .+? \d{4}` matches somewhere in s: digits, a space,
   * one or more characters other than line terminators, a space, four digits.
   * p is the first space, q the second.
   */
  predicate DateMatchAt(s: string, p: nat, q: nat) {
    1 <= p && p + 2 <= q && q + 5 <= |s| && IsDigit(s[p - 1]) && s[p] == ' ' && s[q] == ' '
    && (forall k :: p < k < q ==> !IsLineTerminator(s[k]))
    && (forall k :: q < k < q + 5 ==> IsDigit(s[k]))
  }

  predicate HasDateMatch(s: string) {
    exists p: nat, q: nat | p < |s| && q < |s| :: DateMatchAt(s, p, q)
  }
}
