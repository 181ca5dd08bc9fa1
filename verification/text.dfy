/**
 * The pieces of the .NET base library that the services apply to strings:
 * `string.IsNullOrEmpty`, invariant-culture case mapping, `Path.GetExtension`,
 * `Path.GetFileName`, `TrimStart`, and `int.ToString` / `int.TryParse`.
 * Paths follow the Unix conventions of the deployed system: '/' is the only
 * directory separator.
 */
module Text {
  import opened Wrappers

  /** `string.IsNullOrEmpty(s)`. */
  predicate IsNullOrEmpty(s: Option<string>) {
    s.None? || s.value == ""
  }

  // ---------------------------------------------------------------------------
  // Case mapping
  // ---------------------------------------------------------------------------

  /**
   * `char.ToLowerInvariant` for the characters whose invariant lower case is
   * ASCII: the ASCII capitals and U+212A (Kelvin sign). U+0130 (capital I with dot
   * above) is not among them: invariant casing leaves it unchanged. Every other
   * character is left as it is here; the non-ASCII characters the library would
   * lower-case stay non-ASCII either way, so an ASCII allow-list decides the same.
   */
  function LowerInvariant(c: char): (r: char)
    ensures 'A' <= c <= 'Z' ==> r as int == c as int + 32
    ensures c == '\U{212A}' ==> r == 'k'
    ensures !('A' <= c <= 'Z') && c != '\U{212A}' ==> r == c
    ensures !('A' <= r <= 'Z')
  {
    if 'A' <= c <= 'Z' then (c as int + 32) as char
    else if c == '\U{212A}' then 'k'
    else c
  }

  /** `s.ToLowerInvariant()`, character by character. */
  function ToLowerInvariant(s: string): (r: string)
    ensures |r| == |s|
    ensures forall k :: 0 <= k < |s| ==> r[k] == LowerInvariant(s[k])
  {
    seq(|s|, k requires 0 <= k < |s| => LowerInvariant(s[k]))
  }

  /** Lower-casing twice is lower-casing once. */
  lemma LowerInvariantIdempotent(s: string)
    ensures ToLowerInvariant(ToLowerInvariant(s)) == ToLowerInvariant(s)
  {
  }

  /** `char.ToUpper` for ASCII letters (the only letters it is applied to here are hex digits). */
  function UpperAscii(c: char): (r: char)
    ensures 'a' <= c <= 'z' ==> r as int == c as int - 32
    ensures !('a' <= r <= 'z')
  {
    if 'a' <= c <= 'z' then (c as int - 32) as char else c
  }

  /** `s.ToUpper()` on ASCII text. */
  function ToUpperAscii(s: string): (r: string)
    ensures |r| == |s|
    ensures forall k :: 0 <= k < |s| ==> r[k] == UpperAscii(s[k])
  {
    seq(|s|, k requires 0 <= k < |s| => UpperAscii(s[k]))
  }

  /**
   * `string.Equals(a, b, StringComparison.OrdinalIgnoreCase)` for ASCII letters:
   * the same length, and the same characters once ASCII letters are upper-cased.
   */
  predicate EqualsIgnoreCase(a: string, b: string) {
    ToUpperAscii(a) == ToUpperAscii(b)
  }

  // ---------------------------------------------------------------------------
  // Paths
  // ---------------------------------------------------------------------------

  /** `r` is a suffix of `s`. */
  predicate IsSuffix(r: string, s: string) {
    |r| <= |s| && r == s[|s| - |r|..]
  }

  /**
   * A file-name extension as `Path.GetExtension` reports it: a dot followed by at
   * least one character, none of which is a dot or a directory separator.
   */
  predicate IsExtension(ext: string) {
    |ext| >= 2 && ext[0] == '.' && forall k :: 1 <= k < |ext| ==> ext[k] != '.' && ext[k] != '/'
  }

  /**
   * The scan of `Path.GetExtension` from position `i` leftwards, once the characters
   * from `i` on are known to hold neither a dot nor a separator.
   */
  function ExtensionBefore(path: string, i: nat): (ext: string)
    requires i <= |path|
    requires forall k :: i <= k < |path| ==> path[k] != '.' && path[k] != '/'
    ensures ext == "" || (IsExtension(ext) && IsSuffix(ext, path))
    ensures forall k :: 0 <= k < i && IsExtension(path[k..]) ==> ext == path[k..]
  {
    if i == 0 then ""
    else if path[i - 1] == '.' then
      (if i == |path| then "" else path[i - 1..])
    else if path[i - 1] == '/' then ""
    else ExtensionBefore(path, i - 1)
  }

  /**
   * `Path.GetExtension(path)`: the extension of the last path segment, or "" when it
   * has none (no dot, or a dot as its last character). The two ensures together say
   * that the result is THE extension suffix of the path when one exists, else "".
   */
  function GetExtension(path: string): (ext: string)
    ensures ext == "" || (IsExtension(ext) && IsSuffix(ext, path))
    ensures forall k :: 0 <= k < |path| && IsExtension(path[k..]) ==> ext == path[k..]
  {
    ExtensionBefore(path, |path|)
  }

  /** `s.TrimStart(c)`: `s` without its leading run of `c`. */
  function TrimStart(s: string, c: char): (r: string)
    ensures IsSuffix(r, s)
    ensures r == "" || r[0] != c
    ensures forall k :: 0 <= k < |s| - |r| ==> s[k] == c
  {
    if s != [] && s[0] == c then TrimStart(s[1..], c) else s
  }

  /** `Path.GetFileName(path)`: what follows the last directory separator. */
  function GetFileName(path: string): (name: string)
    ensures IsSuffix(name, path)
    ensures forall k :: 0 <= k < |name| ==> name[k] != '/'
    ensures |name| == |path| || path[|path| - |name| - 1] == '/'
  {
    if path == [] then ""
    else if path[|path| - 1] == '/' then ""
    else
      var prefix := path[..|path| - 1];
      var rest := GetFileName(prefix);
      assert path == prefix + [path[|path| - 1]];
      assert path[|path| - |rest| - 1..] == rest + [path[|path| - 1]] by {
        assert path[|path| - |rest| - 1..] == prefix[|prefix| - |rest|..] + [path[|path| - 1]];
      }
      rest + [path[|path| - 1]]
  }

  // ---------------------------------------------------------------------------
  // 32-bit integers in decimal
  // ---------------------------------------------------------------------------

  const INT32_MIN: int := -0x8000_0000
  const INT32_MAX: int := 0x7FFF_FFFF

  /** The range of C#'s `int`. */
  predicate IsInt32(n: int) {
    INT32_MIN <= n <= INT32_MAX
  }

  predicate IsDigit(c: char) {
    '0' <= c <= '9'
  }

  predicate IsDigits(s: string) {
    forall k :: 0 <= k < |s| ==> IsDigit(s[k])
  }

  function DigitChar(d: nat): (c: char)
    requires d < 10
    ensures IsDigit(c)
  {
    ('0' as int + d) as char
  }

  /** The number a string of decimal digits denotes. */
  function DigitsValue(s: string): nat
    requires IsDigits(s)
  {
    if s == [] then 0 else DigitsValue(s[..|s| - 1]) * 10 + (s[|s| - 1] as int - '0' as int)
  }

  /** The decimal digits of `n`, most significant first, without leading zeros. */
  function NaturalToString(n: nat): (s: string)
    ensures |s| > 0 && IsDigits(s)
  {
    if n < 10 then [DigitChar(n)] else NaturalToString(n / 10) + [DigitChar(n % 10)]
  }

  /** Reading back the digits of `n` gives `n`. */
  lemma {:induction false} NaturalToStringValue(n: nat)
    ensures DigitsValue(NaturalToString(n)) == n
  {
    if n >= 10 {
      var s := NaturalToString(n);
      assert s[..|s| - 1] == NaturalToString(n / 10);
      NaturalToStringValue(n / 10);
    }
  }

  /** `n.ToString()`: an optional minus sign, then the decimal digits of `|n|`. */
  function IntToString(n: int): (s: string)
    ensures |s| > 0 && (IsDigit(s[0]) || (s[0] == '-' && |s| > 1 && IsDigits(s[1..])))
  {
    if n < 0 then "-" + NaturalToString(-n) else NaturalToString(n)
  }

  /** The white space `int.TryParse` skips at either end. */
  predicate IsWhiteSpace(c: char) {
    c == ' ' || '\t' <= c <= '\r'
  }

  /** `s` without leading and trailing white space. */
  function TrimWhiteSpace(s: string): (r: string)
    ensures |r| <= |s|
    ensures r == "" || (!IsWhiteSpace(r[0]) && !IsWhiteSpace(r[|r| - 1]))
    ensures (s == "" || (!IsWhiteSpace(s[0]) && !IsWhiteSpace(s[|s| - 1]))) ==> r == s
  {
    if s == [] then s
    else if IsWhiteSpace(s[0]) then TrimWhiteSpace(s[1..])
    else if IsWhiteSpace(s[|s| - 1]) then TrimWhiteSpace(s[..|s| - 1])
    else s
  }

  /**
   * `int.TryParse(s, out v) ? v : null` with the default number style: optional
   * white space at both ends, an optional sign, then one or more decimal digits whose
   * value fits in 32 bits. Null parses to null.
   */
  function TryParseInt32(s: Option<string>): (r: Option<int>)
    ensures r.Some? ==> s.Some? && IsInt32(r.value)
    ensures s.Some? && TrimWhiteSpace(s.value) == "" ==> r.None?
  {
    if s.None? then None
    else
      var t := TrimWhiteSpace(s.value);
      var signed := |t| > 0 && (t[0] == '-' || t[0] == '+');
      var digits := if signed then t[1..] else t;
      if |digits| == 0 || !IsDigits(digits) then None
      else
        var v: int := if signed && t[0] == '-' then 0 - DigitsValue(digits) as int else DigitsValue(digits);
        if IsInt32(v) then Some(v) else None
  }

  /** Parsing what `ToString` printed gives back the number. */
  lemma ParseInt32ToString(n: int)
    requires IsInt32(n)
    ensures TryParseInt32(Some(IntToString(n))) == Some(n)
  {
    var s := IntToString(n);
    assert TrimWhiteSpace(s) == s by {
      assert !IsWhiteSpace(s[0]) && !IsWhiteSpace(s[|s| - 1]);
    }
    if n < 0 {
      var d := NaturalToString(-n);
      assert s == "-" + d && s[1..] == d;
      NaturalToStringValue(-n);
    } else {
      assert !(s[0] == '-' || s[0] == '+');
      NaturalToStringValue(n);
    }
  }
}
