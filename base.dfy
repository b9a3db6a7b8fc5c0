/** Shared vocabulary: optional values, error results, and the handful of
    Go standard-library string operations (strings.ToLower, strings.Split,
    strings.Join, strings.TrimSpace, strings.HasPrefix, strings.TrimPrefix,
    strconv.FormatUint) that the command front end relies on. */
module Base {

  datatype Option<+T> = None | Some(value: T)

  /** A Go `(value, error)` pair: either a value or the error's text. */
  datatype Result<+T> = Ok(value: T) | Err(error: string)

  /** 2^64: the exclusive bound of a Go uint64 (snowflake identifiers). */
  const Uint64Limit: int := 0x1_0000_0000_0000_0000

  // ---------------------------------------------------------------------
  // Case folding (ASCII letters only; see README "Left out")
  // ---------------------------------------------------------------------

  function LowerChar(c: char): char {
    if 'A' <= c <= 'Z' then (c as int + 32) as char else c
  }

  predicate IsUpper(c: char) { 'A' <= c <= 'Z' }

  function ToLower(s: string): (r: string)
    ensures |r| == |s|
    ensures forall i :: 0 <= i < |s| ==> r[i] == LowerChar(s[i])
  {
    if s == [] then [] else [LowerChar(s[0])] + ToLower(s[1..])
  }

  lemma ToLowerIdempotent(s: string)
    ensures ToLower(ToLower(s)) == ToLower(s)
  {
    assert forall i :: 0 <= i < |s| ==> LowerChar(LowerChar(s[i])) == LowerChar(s[i]);
  }

  lemma ToLowerHasNoUpper(s: string)
    ensures forall i :: 0 <= i < |s| ==> !IsUpper(ToLower(s)[i])
  {
  }

  // ---------------------------------------------------------------------
  // strings.Split with a one-character separator, and strings.Join
  // ---------------------------------------------------------------------

  /** The pieces of `s` between occurrences of `sep`; never empty, and
      `Split("", sep) == [""]` as in Go. */
  function Split(s: string, sep: char): (parts: seq<string>)
    ensures |parts| >= 1
    ensures forall k, j :: 0 <= k < |parts| && 0 <= j < |parts[k]| ==> parts[k][j] != sep
  {
    if s == [] then [""]
    else if s[0] == sep then [""] + Split(s[1..], sep)
    else
      var rest := Split(s[1..], sep);
      [[s[0]] + rest[0]] + rest[1..]
  }

  function Join(parts: seq<string>, sep: string): string {
    if |parts| == 0 then ""
    else if |parts| == 1 then parts[0]
    else parts[0] + sep + Join(parts[1..], sep)
  }

  lemma JoinCons(p: string, parts: seq<string>, sep: string)
    requires |parts| >= 1
    ensures Join([p] + parts, sep) == p + sep + Join(parts, sep)
  {
    assert ([p] + parts)[1..] == parts;
  }

  /** Gluing `h` onto the first piece joins to `h` followed by the join. */
  lemma JoinGlued(h: string, parts: seq<string>, sep: string)
    requires |parts| >= 1
    ensures Join([h + parts[0]] + parts[1..], sep) == h + Join(parts, sep)
  {
    if |parts| > 1 {
      JoinCons(h + parts[0], parts[1..], sep);
      JoinCons(parts[0], parts[1..], sep);
      assert parts == [parts[0]] + parts[1..];
    }
  }

  /** Splitting and re-joining with the same separator gives back the input. */
  lemma {:induction false} SplitJoinRoundTrip(s: string, sep: char)
    ensures Join(Split(s, sep), [sep]) == s
  {
    if s == [] {
    } else if s[0] == sep {
      SplitJoinRoundTrip(s[1..], sep);
      JoinCons("", Split(s[1..], sep), [sep]);
      assert s == [sep] + s[1..];
    } else {
      SplitJoinRoundTrip(s[1..], sep);
      JoinGlued([s[0]], Split(s[1..], sep), [sep]);
      assert s == [s[0]] + s[1..];
    }
  }

  // ---------------------------------------------------------------------
  // strings.TrimSpace: Go's unicode.IsSpace set
  // ---------------------------------------------------------------------

  predicate IsSpace(c: char) {
    c == ' ' || c == '\t' || c == '\n' || c == '\r' || c == '\U{000B}' || c == '\U{000C}'
    || c == '\U{0085}' || c == '\U{00A0}' || c == '\U{1680}'
    || ('\U{2000}' <= c <= '\U{200A}')
    || c == '\U{2028}' || c == '\U{2029}' || c == '\U{202F}' || c == '\U{205F}' || c == '\U{3000}'
  }

  function TrimLeft(s: string): (r: string)
    ensures |r| <= |s| && r == s[|s| - |r|..]
    ensures r != [] ==> !IsSpace(r[0])
    ensures forall k :: 0 <= k < |s| - |r| ==> IsSpace(s[k])
  {
    if s != [] && IsSpace(s[0]) then TrimLeft(s[1..]) else s
  }

  function TrimRight(s: string): (r: string)
    ensures |r| <= |s| && r == s[..|r|]
    ensures r != [] ==> !IsSpace(r[|r| - 1])
    ensures forall k :: |r| <= k < |s| ==> IsSpace(s[k])
  {
    if s != [] && IsSpace(s[|s| - 1]) then TrimRight(s[..|s| - 1]) else s
  }

  /** `r` is the slice of `s` starting at `lo`, and everything of `s`
      before and after that slice is white space. */
  predicate SpaceAround(s: string, lo: nat, r: string) {
    lo + |r| <= |s| && r == s[lo..lo + |r|] &&
    (forall k :: 0 <= k < lo ==> IsSpace(s[k])) &&
    (forall k :: lo + |r| <= k < |s| ==> IsSpace(s[k]))
  }

  /** A prefix `r` of the suffix `l` of `s` at `lo`, with white space
      before `lo` and after `r` in `l`, has white space around it in `s`. */
  lemma SliceAround(s: string, lo: nat, l: string, r: string)
    requires lo <= |s| && l == s[lo..] && |r| <= |l| && r == l[..|r|]
    requires forall k :: 0 <= k < lo ==> IsSpace(s[k])
    requires forall k :: |r| <= k < |l| ==> IsSpace(l[k])
    ensures SpaceAround(s, lo, r)
  {
    forall k | lo + |r| <= k < |s|
      ensures IsSpace(s[k])
    {
      assert s[k] == l[k - lo];
    }
  }

  /** Trimming the right end of what the left trim leaves is a slice of
      `s` with only white space around it. */
  lemma TrimBothAround(s: string)
    ensures SpaceAround(s, |s| - |TrimLeft(s)|, TrimRight(TrimLeft(s)))
  {
    var l := TrimLeft(s);
    SliceAround(s, |s| - |l|, l, TrimRight(l));
  }

  /** `s` with the white space removed from both ends and nothing else:
      what remains starts after the leading white space. */
  function TrimSpace(s: string): (r: string)
    ensures r != [] ==> !IsSpace(r[0]) && !IsSpace(r[|r| - 1])
    ensures SpaceAround(s, |s| - |TrimLeft(s)|, r)
  {
    TrimBothAround(s);
    TrimRight(TrimLeft(s))
  }

  // ---------------------------------------------------------------------
  // strings.HasPrefix / strings.TrimPrefix / strings.TrimSuffix
  // ---------------------------------------------------------------------

  predicate HasPrefix(s: string, p: string) {
    |p| <= |s| && s[..|p|] == p
  }

  function TrimPrefix(s: string, p: string): (r: string)
    ensures HasPrefix(s, p) ==> p + r == s
    ensures !HasPrefix(s, p) ==> r == s
  {
    if HasPrefix(s, p) then s[|p|..] else s
  }

  function TrimSuffix(s: string, p: string): (r: string)
    ensures |p| <= |s| && s[|s| - |p|..] == p ==> r + p == s
    ensures !(|p| <= |s| && s[|s| - |p|..] == p) ==> r == s
  {
    if |p| <= |s| && s[|s| - |p|..] == p then s[..|s| - |p|] else s
  }

  // ---------------------------------------------------------------------
  // Decimal digits: strconv.FormatUint and the digit-string value
  // ---------------------------------------------------------------------

  predicate IsDigit(c: char) { '0' <= c <= '9' }

  predicate AllDigits(s: string) {
    forall i :: 0 <= i < |s| ==> IsDigit(s[i])
  }

  function DigitChar(d: nat): (c: char)
    requires d < 10
    ensures IsDigit(c)
  {
    ('0' as int + d) as char
  }

  /** strconv.FormatUint(n, 10): canonical decimal, no leading zero. */
  function FormatDecimal(n: nat): (s: string)
    ensures |s| >= 1 && AllDigits(s)
    ensures |s| > 1 ==> s[0] != '0'
  {
    if n < 10 then [DigitChar(n)] else FormatDecimal(n / 10) + [DigitChar(n % 10)]
  }

  /** The number a non-empty digit string denotes. */
  function DecimalValue(s: string): nat
    requires AllDigits(s)
  {
    if s == [] then 0 else DecimalValue(s[..|s| - 1]) * 10 + (s[|s| - 1] as int - '0' as int)
  }

  /** Formatting a number and reading its digits back gives the number. */
  lemma {:induction false} DecimalRoundTrip(n: nat)
    ensures DecimalValue(FormatDecimal(n)) == n
  {
    if n >= 10 {
      DecimalRoundTrip(n / 10);
      var s := FormatDecimal(n);
      assert s[..|s| - 1] == FormatDecimal(n / 10);
    }
  }

  /** Distinct numbers have distinct decimal renderings. */
  lemma FormatDecimalInjective(a: nat, b: nat)
    ensures FormatDecimal(a) == FormatDecimal(b) ==> a == b
  {
    DecimalRoundTrip(a);
    DecimalRoundTrip(b);
  }
}
