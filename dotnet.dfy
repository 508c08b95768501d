/** Value-level stand-ins for the .NET primitives the modelled code relies on:
    32-bit `int` arithmetic, the exception classes it throws and catches, and the
    ordinal string operations of `System.String`. */
module DotNet {
  import opened Wrappers

  const INT32_MIN: int := -0x8000_0000
  const INT32_MAX: int := 0x7FFF_FFFF

  /** C# `int`. */
  type Int32 = x: int | INT32_MIN <= x <= INT32_MAX

  /** C# `a + b` on `int` in the default unchecked context: the mathematical sum,
      wrapped into the 32-bit range. */
  function AddInt32(a: Int32, b: Int32): (r: Int32)
    ensures INT32_MIN <= a + b <= INT32_MAX ==> r == a + b
    ensures (a + b - r) % 0x1_0000_0000 == 0
  {
    var s := a + b;
    if s > INT32_MAX then s - 0x1_0000_0000
    else if s < INT32_MIN then s + 0x1_0000_0000
    else s
  }

  /** The exception classes the modelled code throws or catches. Subclassing matters
      to a `catch` clause, so the derived classes the framework throws are listed too. */
  datatype ExceptionKind =
    | InvalidOperationException
    | ObjectDisposedException       // derives from InvalidOperationException
    | ArgumentException
    | ArgumentNullException         // derives from ArgumentException
    | ArgumentOutOfRangeException   // derives from ArgumentException
    | KeyNotFoundException          // derives from SystemException only
    | DbUpdateException             // a failed save or commit
    | IOException
  {
    /** `catch (InvalidOperationException)` catches this exception. */
    predicate IsInvalidOperation() {
      InvalidOperationException? || ObjectDisposedException?
    }

    /** `catch (ArgumentException)` catches this exception. */
    predicate IsArgument() {
      ArgumentException? || ArgumentNullException? || ArgumentOutOfRangeException?
    }
  }

  /** `char.IsWhiteSpace`: U+0009..U+000D, U+0020, U+0085, U+00A0 and the Unicode
      space, line and paragraph separators. */
  const WhiteSpaceChars: set<char> := {
    '\U{9}', '\U{A}', '\U{B}', '\U{C}', '\U{D}', ' ', '\U{85}', '\U{A0}', '\U{1680}',
    '\U{2000}', '\U{2001}', '\U{2002}', '\U{2003}', '\U{2004}', '\U{2005}', '\U{2006}',
    '\U{2007}', '\U{2008}', '\U{2009}', '\U{200A}',
    '\U{2028}', '\U{2029}', '\U{202F}', '\U{205F}', '\U{3000}'}

  predicate IsWhiteSpace(c: char) {
    c in WhiteSpaceChars
  }

  /** `string.IsNullOrWhiteSpace`. */
  predicate IsNullOrWhiteSpace(s: Option<string>) {
    s.None? || forall i :: 0 <= i < |s.value| ==> IsWhiteSpace(s.value[i])
  }

  /** `string.IsNullOrEmpty`. */
  predicate IsNullOrEmpty(s: Option<string>) {
    s.None? || s.value == ""
  }

  /** Ordinal `s.StartsWith(prefix)`. */
  predicate StartsWith(s: string, prefix: string) {
    |prefix| <= |s| && s[..|prefix|] == prefix
  }

  /** `char.ToLowerInvariant` on the ASCII range. */
  function ToLowerChar(c: char): char {
    if 'A' <= c <= 'Z' then (c as int + 32) as char else c
  }

  /** `string.ToLowerInvariant` on the ASCII range. */
  function ToLowerInvariant(s: string): (r: string)
    ensures |r| == |s|
    ensures forall i :: 0 <= i < |s| ==> r[i] == ToLowerChar(s[i])
  {
    seq(|s|, i requires 0 <= i < |s| => ToLowerChar(s[i]))
  }

  /** `s.TrimEnd(c)`: `s` without every trailing occurrence of `c`. */
  function TrimEnd(s: string, c: char): (r: string)
    ensures |r| <= |s| && r == s[..|r|]
    ensures forall i :: |r| <= i < |s| ==> s[i] == c
    ensures r == [] || r[|r| - 1] != c
  {
    if s == [] || s[|s| - 1] != c then s else TrimEnd(s[..|s| - 1], c)
  }

  /** `s.TrimStart()`: `s` without its leading white space. */
  function TrimStart(s: string): (r: string)
    ensures |r| <= |s| && r == s[|s| - |r|..]
    ensures forall i :: 0 <= i < |s| - |r| ==> IsWhiteSpace(s[i])
    ensures r == [] || !IsWhiteSpace(r[0])
  {
    if s == [] || !IsWhiteSpace(s[0]) then s else TrimStart(s[1..])
  }

  /** `s.TrimEnd()`: `s` without its trailing white space. */
  function TrimEndWhiteSpace(s: string): (r: string)
    ensures |r| <= |s| && r == s[..|r|]
    ensures forall i :: |r| <= i < |s| ==> IsWhiteSpace(s[i])
    ensures r == [] || !IsWhiteSpace(r[|r| - 1])
  {
    if s == [] || !IsWhiteSpace(s[|s| - 1]) then s else TrimEndWhiteSpace(s[..|s| - 1])
  }

  /** `s.Trim()`: `s` without leading and trailing white space. */
  function Trim(s: string): (r: string)
    ensures r == [] || (!IsWhiteSpace(r[0]) && !IsWhiteSpace(r[|r| - 1]))
  {
    TrimEndWhiteSpace(TrimStart(s))
  }

  /** A prefix `r` of a suffix `t` of `s` is the slice of `s` where `t` starts, and what
      `r` leaves of `t` lies at the end of `s`. */
  lemma PrefixOfSuffix(s: string, t: string, r: string)
    requires |t| <= |s| && t == s[|s| - |t|..]
    requires |r| <= |t| && r == t[..|r|]
    ensures forall k :: 0 <= k < |r| ==> r[k] == s[|s| - |t| + k]
    ensures forall k :: |s| - |t| + |r| <= k < |s| ==> s[k] == t[k - (|s| - |t|)]
  {
  }

  lemma TrimKeeps(s: string, t: string, r: string)
    requires t == TrimStart(s) && r == TrimEndWhiteSpace(t)
    ensures |s| - |t| + |r| <= |s|
    ensures forall k :: 0 <= k < |r| ==> r[k] == s[|s| - |t| + k]
  {
    PrefixOfSuffix(s, t, r);
  }

  lemma TrimCuts(s: string, t: string, r: string)
    requires t == TrimStart(s) && r == TrimEndWhiteSpace(t)
    ensures forall k :: 0 <= k < |s| - |t| ==> IsWhiteSpace(s[k])
    ensures forall k :: |s| - |t| + |r| <= k < |s| ==> IsWhiteSpace(s[k])
  {
    PrefixOfSuffix(s, t, r);
    forall k | |s| - |t| + |r| <= k < |s| ensures IsWhiteSpace(s[k]) {
      assert s[k] == t[k - (|s| - |t|)];
    }
  }

  /** `Trim(s)` is the slice of `s` from the first character that is not white space on,
      and everything it cuts from either end is white space. */
  lemma TrimIsSlice(s: string)
    ensures var r := Trim(s);
      var i := |s| - |TrimStart(s)|;
      && i + |r| <= |s|
      && (forall k :: 0 <= k < |r| ==> r[k] == s[i + k])
      && (forall k :: 0 <= k < i ==> IsWhiteSpace(s[k]))
      && (forall k :: i + |r| <= k < |s| ==> IsWhiteSpace(s[k]))
  {
    var t := TrimStart(s);
    TrimKeeps(s, t, TrimEndWhiteSpace(t));
    TrimCuts(s, t, TrimEndWhiteSpace(t));
  }

  /** Trimming leaves nothing exactly when the string is all white space. */
  lemma TrimBlank(s: string)
    ensures Trim(s) == [] <==> IsNullOrWhiteSpace(Some(s))
  {
  }

  /** A string that neither starts nor ends with white space is its own trim. */
  lemma TrimUnpadded(s: string)
    requires s != [] && !IsWhiteSpace(s[0]) && !IsWhiteSpace(s[|s| - 1])
    ensures Trim(s) == s
  {
  }
}
