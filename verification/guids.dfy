/**
 * `Guid.NewGuid()` and its two string forms. A fresh GUID is an input of the
 * operations that draw one; the model keeps its 32 hexadecimal digits in the
 * order the string forms print them.
 */
module Guids {
  import opened Text

  /** One hexadecimal digit. */
  type Nibble = x: int | 0 <= x < 16

  /** The 128 bits of a GUID as 32 hexadecimal digits. */
  type Guid = s: seq<Nibble> | |s| == 32 witness seq(32, _ => 0 as Nibble)

  const LOWER_HEX: string := "0123456789abcdef"
  const UPPER_HEX: string := "0123456789ABCDEF"

  /** `guid.ToString("N")`: 32 lower-case hexadecimal digits. */
  function FormatN(g: Guid): (s: string)
    ensures |s| == 32
    ensures forall k :: 0 <= k < 32 ==> s[k] in LOWER_HEX
  {
    seq(32, k requires 0 <= k < 32 => LOWER_HEX[g[k]])
  }

  /** Where digit `k` of a GUID stands in its hyphenated form. */
  function DigitPosition(k: nat): nat {
    k + (if k >= 8 then 1 else 0) + (if k >= 12 then 1 else 0) + (if k >= 16 then 1 else 0) + (if k >= 20 then 1 else 0)
  }

  /** `guid.ToString()`: the digits grouped 8-4-4-4-12, separated by hyphens. */
  function FormatD(g: Guid): (s: string)
    ensures |s| == 36
    ensures forall k :: 0 <= k < 36 ==> s[k] != '/' && s[k] != '.'
    ensures forall k :: 0 <= k < 32 ==> DigitPosition(k) < 36 && s[DigitPosition(k)] == LOWER_HEX[g[k]]
  {
    var n := FormatN(g);
    var s := n[..8] + "-" + n[8..12] + "-" + n[12..16] + "-" + n[16..20] + "-" + n[20..];
    assert forall k :: 0 <= k < 32 ==> s[DigitPosition(k)] == n[k] by {
      forall k | 0 <= k < 32 ensures s[DigitPosition(k)] == n[k] {
        if k < 8 {
        } else if k < 12 {
        } else if k < 16 {
        } else if k < 20 {
        } else {
          assert s[DigitPosition(k)] == n[20..][k - 20];
        }
      }
    }
    assert forall k :: 0 <= k < 36 ==> s[k] == '-' || s[k] in LOWER_HEX by {
      forall k | 0 <= k < 36 ensures s[k] == '-' || s[k] in LOWER_HEX {
        if k < 8 {
        } else if k < 9 {
        } else if k < 13 {
          assert s[k] == n[k - 1];
        } else if k < 14 {
        } else if k < 18 {
          assert s[k] == n[k - 2];
        } else if k < 19 {
        } else if k < 23 {
          assert s[k] == n[k - 3];
        } else if k < 24 {
        } else {
          assert s[k] == n[k - 4];
        }
      }
    }
    s
  }

  /** Different GUIDs print differently. */
  lemma FormatDInjective(g: Guid, h: Guid)
    requires g != h
    ensures FormatD(g) != FormatD(h)
  {
    var k :| 0 <= k < 32 && g[k] != h[k];
    assert FormatD(g)[DigitPosition(k)] == LOWER_HEX[g[k]];
    assert FormatD(h)[DigitPosition(k)] == LOWER_HEX[h[k]];
  }

  /** Upper-casing a lower-case hexadecimal digit gives the upper-case digit of the same value. */
  lemma UpperHexDigit(k: nat)
    requires k < 16
    ensures UpperAscii(LOWER_HEX[k]) == UPPER_HEX[k]
  {
  }
}
