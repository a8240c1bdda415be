/** Values shared by every component: an optional value standing for C#'s null,
    the few string operations of the .NET base library the client relies on,
    and the 32-bit integer arithmetic of C#. */
module Common {

  /** A value that may be absent (a C# reference or nullable that may be null). */
  datatype Option<+T> = None | Some(value: T)

  /** Opaque key/value diagnostic data (Exception.Data, user custom data). */
  type Data = map<string, string>

  // ---------------------------------------------------------------------------
  // Strings

  /** char.IsWhiteSpace: the characters of the Unicode White_Space property. */
  predicate IsWhiteSpace(c: char) {
    c == ' ' || ('\t' <= c <= '\r') || c == '\U{85}' || c == '\U{A0}' || c == '\U{1680}' ||
    ('\U{2000}' <= c <= '\U{200A}') || c == '\U{2028}' || c == '\U{2029}' ||
    c == '\U{202F}' || c == '\U{205F}' || c == '\U{3000}'
  }

  /** string.IsNullOrEmpty */
  predicate IsNullOrEmpty(s: Option<string>) {
    s.None? || s.value == []
  }

  /** string.IsNullOrWhiteSpace */
  predicate IsNullOrWhiteSpace(s: Option<string>) {
    s.None? || forall k :: 0 <= k < |s.value| ==> IsWhiteSpace(s.value[k])
  }

  /** Removes the leading white space of `s`. */
  function TrimStart(s: string): (r: string)
    ensures |r| <= |s|
    ensures forall k :: 0 <= k < |s| - |r| ==> IsWhiteSpace(s[k])
    ensures r == [] || !IsWhiteSpace(r[0])
  {
    if s != [] && IsWhiteSpace(s[0]) then TrimStart(s[1..]) else s
  }

  /** Removes the trailing white space of `s`. */
  function TrimEnd(s: string): (r: string)
    ensures |r| <= |s|
    ensures forall k :: |r| <= k < |s| ==> IsWhiteSpace(s[k])
    ensures r == [] || !IsWhiteSpace(r[|r| - 1])
  {
    if s != [] && IsWhiteSpace(s[|s| - 1]) then TrimEnd(s[..|s| - 1]) else s
  }

  /** What TrimStart leaves is a suffix of its input. */
  lemma {:induction false} TrimStartIsSuffix(s: string)
    ensures TrimStart(s) == s[|s| - |TrimStart(s)|..]
    decreases |s|
  {
    if s != [] && IsWhiteSpace(s[0]) {
      TrimStartIsSuffix(s[1..]);
      assert s[1..][|s| - 1 - |TrimStart(s)|..] == s[|s| - |TrimStart(s)|..];
    }
  }

  /** What TrimEnd leaves is a prefix of its input. */
  lemma {:induction false} TrimEndIsPrefix(s: string)
    ensures TrimEnd(s) == s[..|TrimEnd(s)|]
    decreases |s|
  {
    if s != [] && IsWhiteSpace(s[|s| - 1]) {
      TrimEndIsPrefix(s[..|s| - 1]);
    }
  }

  /** string.Trim: `s` without its leading and trailing white space. */
  function Trim(s: string): string {
    TrimEnd(TrimStart(s))
  }

  /** string.StartsWith, compared character by character. */
  predicate StartsWith(s: string, prefix: string) {
    |prefix| <= |s| && s[..|prefix|] == prefix
  }

  /** string.IndexOf(c): the first position of `c` in `s`, or -1. */
  function IndexOf(s: string, c: char): (r: int)
    ensures -1 <= r < |s|
    ensures r >= 0 ==> s[r] == c && forall k :: 0 <= k < r ==> s[k] != c
    ensures r == -1 ==> forall k :: 0 <= k < |s| ==> s[k] != c
  {
    if s == [] then -1
    else if s[0] == c then 0
    else var r := IndexOf(s[1..], c); if r == -1 then -1 else r + 1
  }

  /** string.LastIndexOf(c, start): the last position of `c` in `s[..start + 1]`,
      searching backwards from `start`, or -1. */
  function LastIndexOfFrom(s: string, c: char, start: int): (r: int)
    requires -1 <= start < |s|
    ensures -1 <= r <= start
    ensures r >= 0 ==> s[r] == c && forall k :: r < k <= start ==> s[k] != c
    ensures r == -1 ==> forall k :: 0 <= k <= start ==> s[k] != c
    decreases start + 1
  {
    if start < 0 then -1
    else if s[start] == c then start
    else LastIndexOfFrom(s, c, start - 1)
  }

  /** String.Join(",", parts) */
  function JoinWithComma(parts: seq<string>): (r: string)
    ensures parts == [] ==> r == []
    ensures |parts| == 1 ==> r == parts[0]
  {
    if parts == [] then []
    else if |parts| == 1 then parts[0]
    else parts[0] + "," + JoinWithComma(parts[1..])
  }

  /** string.Replace(old, "") for a one-character `old`. */
  function RemoveAll(s: string, c: char): (r: string)
    ensures |r| <= |s|
    ensures forall k :: 0 <= k < |r| ==> r[k] != c
  {
    if s == [] then []
    else if s[0] == c then RemoveAll(s[1..], c)
    else [s[0]] + RemoveAll(s[1..], c)
  }

  /** The decimal digits of a natural number, as int.ToString() prints them. */
  function DigitsOf(n: nat): (r: string)
    ensures r != [] && forall k :: 0 <= k < |r| ==> '0' <= r[k] <= '9'
    decreases n
  {
    if n < 10 then [DigitChar(n)] else DigitsOf(n / 10) + [DigitChar(n % 10)]
  }

  function DigitChar(d: nat): (c: char)
    requires d < 10
    ensures '0' <= c <= '9'
  {
    ('0' as int + d) as char
  }

  /** The value of a character '0'..'9'. */
  function DigitValue(c: char): (d: nat)
    requires '0' <= c <= '9'
    ensures d < 10 && DigitChar(d) == c
  {
    (c as int - '0' as int)
  }

  /** The number a string of decimal digits denotes. */
  function ValueOfDigits(s: string): nat
    requires forall k :: 0 <= k < |s| ==> '0' <= s[k] <= '9'
  {
    if s == [] then 0 else ValueOfDigits(s[..|s| - 1]) * 10 + DigitValue(s[|s| - 1])
  }

  lemma {:induction false} DigitsRoundTrip(n: nat)
    ensures ValueOfDigits(DigitsOf(n)) == n
    decreases n
  {
    var s := DigitsOf(n);
    if n < 10 {
      assert s[..|s| - 1] == [];
    } else {
      DigitsRoundTrip(n / 10);
      assert s[..|s| - 1] == DigitsOf(n / 10);
      assert DigitValue(s[|s| - 1]) == n % 10;
    }
  }

  // ---------------------------------------------------------------------------
  // 32-bit integers

  const Int32Min := -0x8000_0000
  const Int32Max := 0x7FFF_FFFF

  predicate IsInt32(x: int) {
    Int32Min <= x <= Int32Max
  }

  /** The unchecked 32-bit wrap-around C# applies to the result of int arithmetic. */
  function Wrap32(x: int): (r: int)
    ensures IsInt32(r)
    ensures (r - x) % 0x1_0000_0000 == 0
    ensures IsInt32(x) ==> r == x
  {
    (x - Int32Min) % 0x1_0000_0000 + Int32Min
  }

  /** C#'s integer division, which truncates toward zero (Dafny's `/` is Euclidean). */
  function TruncDiv(a: int, b: int): (q: int)
    requires b > 0
    ensures a >= 0 ==> q == a / b
    ensures a < 0 ==> q <= 0
  {
    if a >= 0 then a / b else -((-a) / b)
  }
}
