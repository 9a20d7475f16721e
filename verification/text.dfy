/** String helpers that the service's TypeScript takes from the JavaScript
    runtime (`startsWith`, `indexOf`, `split`, `trim`, number-to-string and
    `parseInt`), restated over `seq<char>` so that the other modules can
    speak about them exactly. */
module Text {

  datatype Option<+T> = None | Some(value: T)

  /** `s.startsWith(p)` */
  predicate StartsWith(s: string, p: string) {
    |p| <= |s| && s[..|p|] == p
  }

  /** `p` occurs in `s` at position `i` */
  predicate OccursAt(s: string, p: string, i: int) {
    0 <= i && i + |p| <= |s| && s[i..i + |p|] == p
  }

  /** `s.includes(p)` */
  predicate Contains(s: string, p: string) {
    exists i | 0 <= i <= |s| :: OccursAt(s, p, i)
  }

  function IndexFrom(s: string, p: string, i: nat): (r: Option<nat>)
    requires i <= |s|
    ensures r.Some? ==> i <= r.value && OccursAt(s, p, r.value)
    ensures r.Some? ==> forall j :: i <= j < r.value ==> !OccursAt(s, p, j)
    ensures r.None? ==> forall j :: i <= j ==> !OccursAt(s, p, j)
    decreases |s| - i
  {
    if OccursAt(s, p, i) then Some(i)
    else if i + |p| >= |s| then None
    else IndexFrom(s, p, i + 1)
  }

  /** `s.indexOf(p)`, with `None` for JavaScript's -1: the FIRST occurrence. */
  function IndexOf(s: string, p: string): (r: Option<nat>)
    ensures r.Some? ==> OccursAt(s, p, r.value) && forall j :: 0 <= j < r.value ==> !OccursAt(s, p, j)
    ensures r.None? <==> !Contains(s, p)
  {
    IndexFrom(s, p, 0)
  }

  /** Position of the first `c` in `s`. */
  function FirstIndexOf(s: string, c: char): (r: nat)
    requires c in s
    ensures r < |s| && s[r] == c
    ensures forall j :: 0 <= j < r ==> s[j] != c
  {
    if s[0] == c then 0 else 1 + FirstIndexOf(s[1..], c)
  }

  /** The inverse of `Split`: the parts glued together with `sep`. */
  function Join(parts: seq<string>, sep: char): string
  {
    if |parts| == 0 then ""
    else if |parts| == 1 then parts[0]
    else parts[0] + [sep] + Join(parts[1..], sep)
  }

  /** `s.split(sep)` for a one-character separator: never empty, no part
      holds the separator, and joining the parts back gives `s`. */
  function Split(s: string, sep: char): (r: seq<string>)
    ensures |r| >= 1
    ensures forall k :: 0 <= k < |r| ==> sep !in r[k]
    ensures Join(r, sep) == s
    decreases |s|
  {
    if sep !in s then [s]
    else
      var i := FirstIndexOf(s, sep);
      var rest := Split(s[i + 1..], sep);
      var r := [s[..i]] + rest;
      assert r[1..] == rest;
      assert s == s[..i] + [sep] + s[i + 1..];
      r
  }

  /** The first part of a split: the text before the first separator, or
      all of it. */
  lemma SplitHead(s: string, sep: char)
    ensures var h := Split(s, sep)[0];
      sep !in h && StartsWith(s, h) && (|h| == |s| || s[|h|] == sep)
  {
    if sep in s {
      var i := FirstIndexOf(s, sep);
      assert Split(s, sep)[0] == s[..i];
    }
  }

  /** `Split` undoes `Join` when no part holds the separator. */
  lemma {:induction false} SplitOfJoin(parts: seq<string>, sep: char)
    requires |parts| >= 1
    requires forall k :: 0 <= k < |parts| ==> sep !in parts[k]
    ensures Split(Join(parts, sep), sep) == parts
    decreases |parts|
  {
    var s := Join(parts, sep);
    if |parts| > 1 {
      var rest := Join(parts[1..], sep);
      assert s == parts[0] + [sep] + rest;
      assert s[|parts[0]|] == sep;
      assert s[..|parts[0]|] == parts[0];
      assert FirstIndexOf(s, sep) == |parts[0]|;
      assert s[..|parts[0]|] == parts[0];
      assert s[|parts[0]| + 1..] == rest;
      SplitOfJoin(parts[1..], sep);
      assert [parts[0]] + parts[1..] == parts;
    }
  }

  /** A string that ends with the separator splits into a last part that
      is empty. */
  lemma {:induction false} SplitEndingWithSep(s: string, sep: char)
    requires |s| > 0 && s[|s| - 1] == sep
    ensures Split(s, sep)[|Split(s, sep)| - 1] == ""
    decreases |s|
  {
    var i := FirstIndexOf(s, sep);
    var t := s[i + 1..];
    if t == [] {
      assert Split(t, sep) == [""];
    } else {
      assert t[|t| - 1] == sep;
      SplitEndingWithSep(t, sep);
    }
    assert Split(s, sep) == [s[..i]] + Split(t, sep);
  }

  /** The ECMAScript WhiteSpace and LineTerminator code points, which
      `trim`, `trimStart` and `parseInt` skip. */
  predicate IsJsSpace(c: char) {
    || c == '\t' || c == '\n' || c == '\U{B}' || c == '\U{C}' || c == '\r' || c == ' '
    || c == '\U{A0}' || c == '\U{1680}' || ('\U{2000}' <= c <= '\U{200A}')
    || c == '\U{2028}' || c == '\U{2029}' || c == '\U{202F}' || c == '\U{205F}'
    || c == '\U{3000}' || c == '\U{FEFF}'
  }

  /** `s.trimStart()`: the suffix left after every leading space is dropped. */
  function TrimStart(s: string): (r: string)
    ensures |r| <= |s| && r == s[|s| - |r|..]
    ensures forall i :: 0 <= i < |s| - |r| ==> IsJsSpace(s[i])
    ensures r == [] || !IsJsSpace(r[0])
    decreases |s|
  {
    if |s| > 0 && IsJsSpace(s[0]) then TrimStart(s[1..]) else s
  }

  /** `s.trimEnd()`: the prefix left after every trailing space is dropped. */
  function TrimEnd(s: string): (r: string)
    ensures |r| <= |s| && r == s[..|r|]
    ensures forall i :: |r| <= i < |s| ==> IsJsSpace(s[i])
    ensures r == [] || !IsJsSpace(r[|r| - 1])
    decreases |s|
  {
    if |s| > 0 && IsJsSpace(s[|s| - 1]) then TrimEnd(s[..|s| - 1]) else s
  }

  predicate Trimmed(s: string) {
    s == [] || (!IsJsSpace(s[0]) && !IsJsSpace(s[|s| - 1]))
  }

  /** `r` is the slice of `s` starting at `a`, with only spaces on either
      side of it. */
  predicate CutAt(s: string, r: string, a: int) {
    && 0 <= a <= |s| - |r|
    && s[a..a + |r|] == r
    && (forall i :: 0 <= i < a ==> IsJsSpace(s[i]))
    && (forall i :: a + |r| <= i < |s| ==> IsJsSpace(s[i]))
  }

  /** `r` is what is left of `s` once some run of spaces at its start and
      some run at its end are cut away. */
  ghost predicate StripsTo(s: string, r: string) {
    exists a :: CutAt(s, r, a)
  }

  /** `s.trim()`: a slice of `s` with only spaces cut from either side,
      and none left at either end of it; a string with none there already
      comes back unchanged. */
  function Trim(s: string): (r: string)
    ensures Trimmed(r)
    ensures StripsTo(s, r)
    ensures Trimmed(s) ==> r == s
  {
    TrimCut(s);
    TrimEnd(TrimStart(s))
  }

  lemma TrimCut(s: string)
    ensures CutAt(s, TrimEnd(TrimStart(s)), |s| - |TrimStart(s)|)
    ensures TrimEnd(TrimStart(s)) == [] || !IsJsSpace(TrimEnd(TrimStart(s))[0])
  {
    var t := TrimStart(s);
    var r := TrimEnd(t);
    PrefixOfSuffixCut(s, t, r);
    if r != [] {
      assert r[0] == t[0];
    }
  }

  /** A prefix `r` of a suffix `t` of `s` is cut out of `s` when the parts
      of `s` before `t` and of `t` after `r` are spaces. */
  lemma PrefixOfSuffixCut(s: string, t: string, r: string)
    requires |t| <= |s| && t == s[|s| - |t|..]
    requires |r| <= |t| && r == t[..|r|]
    requires forall i :: 0 <= i < |s| - |t| ==> IsJsSpace(s[i])
    requires forall i :: |r| <= i < |t| ==> IsJsSpace(t[i])
    ensures CutAt(s, r, |s| - |t|)
  {
    var a := |s| - |t|;
    forall i | a + |r| <= i < |s|
      ensures IsJsSpace(s[i])
    {
      assert s[i] == t[i - a];
    }
  }

  /** The trimmed string is the only slice that `StripsTo` allows with no
      space left at either end: `trim` removes exactly the white space at
      both ends and nothing else. */
  lemma {:induction false} TrimUnique(s: string, r: string)
    requires StripsTo(s, r) && Trimmed(r)
    ensures r == Trim(s)
  {
    var t := Trim(s);
    var a :| CutAt(s, r, a);
    var b :| CutAt(s, t, b);
    if r != [] && t != [] {
      assert r[0] == s[a] && t[0] == s[b];
      assert r[|r| - 1] == s[a + |r| - 1] && t[|t| - 1] == s[b + |t| - 1];
      assert a == b;
      assert |r| == |t|;
    }
  }

  /** A leading space makes no difference to `trim`. */
  lemma TrimSkipsLeadingSpace(s: string)
    requires |s| > 0 && IsJsSpace(s[0])
    ensures Trim(s) == Trim(s[1..])
  {
    assert TrimStart(s) == TrimStart(s[1..]);
  }

  /** A value a `catch` block receives: an `Error` with its message, or
      anything else that was thrown. */
  datatype Thrown = ErrorValue(message: string) | OtherValue

  /** `error instanceof Error ? error.message : fallback` */
  function MessageOr(t: Thrown, fallback: string): (r: string)
    ensures t.ErrorValue? ==> r == t.message
    ensures t.OtherValue? ==> r == fallback
  {
    match t
    case ErrorValue(m) => m
    case OtherValue => fallback
  }

  /** `v || d` for an environment variable `v`: unset and empty both fall
      back to `d`. */
  function EnvOr(v: Option<string>, d: string): (r: string)
    ensures v.Some? && v.value != "" ==> r == v.value
    ensures v.None? || v.value == "" ==> r == d
  {
    if v.Some? && v.value != "" then v.value else d
  }

  predicate IsDigit(c: char) {
    '0' <= c <= '9'
  }

  predicate AllDigits(s: string) {
    forall i :: 0 <= i < |s| ==> IsDigit(s[i])
  }

  function DigitChar(d: nat): (c: char)
    requires d < 10
    ensures IsDigit(c) && c as int - '0' as int == d
  {
    (d + '0' as int) as char
  }

  /** The value of a run of decimal digits, as `Number` reads it. */
  function DigitsValue(s: string): nat
    requires AllDigits(s)
  {
    if s == [] then 0 else DigitsValue(s[..|s| - 1]) * 10 + (s[|s| - 1] as int - '0' as int)
  }

  /** The decimal digits of `n`, without leading zeros. */
  function NatToDecimal(n: nat): (r: string)
    ensures |r| >= 1 && AllDigits(r)
    ensures DigitsValue(r) == n
    ensures r[0] == '0' ==> r == "0"
    decreases n
  {
    if n < 10 then [DigitChar(n)]
    else
      var r := NatToDecimal(n / 10) + [DigitChar(n % 10)];
      assert r[..|r| - 1] == NatToDecimal(n / 10);
      r
  }

  /** `${n}` for an integer `n`. */
  function IntToDecimal(n: int): (r: string)
    ensures |r| >= 1
    ensures ':' !in r
  {
    if n < 0 then "-" + NatToDecimal(-n) else NatToDecimal(n)
  }

  predicate IsHexDigit(c: char) {
    IsDigit(c) || ('a' <= c <= 'f') || ('A' <= c <= 'F')
  }

  predicate IsLowerHex(c: char) {
    IsDigit(c) || ('a' <= c <= 'f')
  }

  function HexDigitValue(c: char): (v: nat)
    requires IsHexDigit(c)
    ensures v < 16
  {
    if IsDigit(c) then c as int - '0' as int
    else if 'a' <= c <= 'f' then c as int - 'a' as int + 10
    else c as int - 'A' as int + 10
  }

  function HexValue(s: string): nat
    requires forall i :: 0 <= i < |s| ==> IsHexDigit(s[i])
  {
    if s == [] then 0 else HexValue(s[..|s| - 1]) * 16 + HexDigitValue(s[|s| - 1])
  }

  /** The longest prefix of `s` made of decimal digits. */
  function DigitRun(s: string): (r: string)
    ensures StartsWith(s, r) && AllDigits(r)
    ensures |r| < |s| ==> !IsDigit(s[|r|])
  {
    if |s| > 0 && IsDigit(s[0]) then [s[0]] + DigitRun(s[1..]) else ""
  }

  /** The longest prefix of `s` made of hexadecimal digits of either case. */
  function HexRun(s: string): (r: string)
    ensures StartsWith(s, r) && forall i :: 0 <= i < |r| ==> IsHexDigit(r[i])
    ensures |r| < |s| ==> !IsHexDigit(s[|r|])
  {
    if |s| > 0 && IsHexDigit(s[0]) then [s[0]] + HexRun(s[1..]) else ""
  }

  /** JavaScript's `parseInt(s)` without a radix, `None` standing for NaN:
      leading spaces are skipped, one sign is read, a `0x`/`0X` prefix
      switches to base 16, and the longest run of digits is read; anything
      after it is ignored. */
  function ParseInt(s: string): (r: Option<int>)
  {
    var t := TrimStart(s);
    var negative := |t| > 0 && t[0] == '-';
    var u := if |t| > 0 && (t[0] == '-' || t[0] == '+') then t[1..] else t;
    match ParseMagnitude(u)
    case None => None
    case Some(v) => Some(if negative then -(v as int) else v as int)
  }

  /** The digits `parseInt` reads after the sign: hexadecimal after a
      `0x`/`0X` prefix, decimal otherwise; `None` when there are none. */
  function ParseMagnitude(u: string): (r: Option<nat>)
  {
    if StartsWith(u, "0x") || StartsWith(u, "0X") then
      var h := HexRun(u[2..]);
      if h == [] then None else Some(HexValue(h))
    else
      var d := DigitRun(u);
      if d == [] then None else Some(DigitsValue(d))
  }

  lemma DigitRunOfDigits(s: string)
    requires AllDigits(s)
    ensures DigitRun(s) == s
  {
    if s != [] {
      DigitRunOfDigits(s[1..]);
    }
  }

  lemma TrimStartOfNonSpace(s: string)
    requires s != [] && !IsJsSpace(s[0])
    ensures TrimStart(s) == s
  {
  }

  /** The digits of a natural number read back as that number. */
  lemma MagnitudeOfDecimal(m: nat)
    ensures ParseMagnitude(NatToDecimal(m)) == Some(m)
  {
    var d := NatToDecimal(m);
    assert !StartsWith(d, "0x") && !StartsWith(d, "0X") by {
      if |d| >= 2 {
        assert IsDigit(d[1]);
      }
    }
    DigitRunOfDigits(d);
  }

  /** `parseInt` reads back what `${n}` writes, for every integer. */
  lemma ParseIntOfDecimal(n: int)
    ensures ParseInt(IntToDecimal(n)) == Some(n)
  {
    if n < 0 { ParseIntOfNegative(n); } else { ParseIntOfNonNegative(n); }
  }

  /** A leading `-` is read as the sign of the magnitude after it. */
  lemma ParseMinus(u: string, v: nat)
    requires ParseMagnitude(u) == Some(v)
    ensures ParseInt("-" + u) == Some(-(v as int))
  {
    var s := "-" + u;
    assert s[0] == '-' && s[1..] == u;
    TrimStartOfNonSpace(s);
  }

  /** A string that starts with a digit is read as a magnitude. */
  lemma ParseUnsigned(u: string, v: nat)
    requires u != [] && IsDigit(u[0]) && ParseMagnitude(u) == Some(v)
    ensures ParseInt(u) == Some(v as int)
  {
    TrimStartOfNonSpace(u);
  }

  lemma ParseIntOfNegative(n: int)
    requires n < 0
    ensures ParseInt(IntToDecimal(n)) == Some(n)
  {
    var d := NatToDecimal(-n);
    MagnitudeOfDecimal(-n);
    ParseMinus(d, -n);
    assert IntToDecimal(n) == "-" + d;
  }

  lemma ParseIntOfNonNegative(n: int)
    requires n >= 0
    ensures ParseInt(IntToDecimal(n)) == Some(n)
  {
    var d := NatToDecimal(n);
    MagnitudeOfDecimal(n);
    ParseUnsigned(d, n);
    assert IntToDecimal(n) == d;
  }



}
