/** `Guid.NewGuid().ToString()`: 32 random hexadecimal digits written in
    the default "D" format, lower case, grouped 8-4-4-4-12 by hyphens. The
    random digits are supplied by the caller. */
module Guids {
  import opened Text

  type Nibble = x: int | 0 <= x < 16

  type Guid = s: seq<Nibble> | |s| == 32 witness seq(32, _ => 0)

  const LowerHexDigits: string := "0123456789abcdef"

  predicate IsUpperHexDigit(c: char) {
    '0' <= c <= '9' || 'A' <= c <= 'F'
  }

  function HexDigit(n: Nibble): (c: char)
    ensures '0' <= c <= '9' || 'a' <= c <= 'f'
  {
    LowerHexDigits[n]
  }

  function Hex(digits: seq<Nibble>): (s: string)
    ensures |s| == |digits|
    ensures forall i :: 0 <= i < |digits| ==> s[i] == HexDigit(digits[i])
  {
    seq(|digits|, i requires 0 <= i < |digits| => HexDigit(digits[i]))
  }

  /** The "D" format of a Guid. */
  function GuidText(g: Guid): (s: string)
    ensures |s| == 36
    ensures s[8] == '-' && s[13] == '-' && s[18] == '-' && s[23] == '-'
    ensures s[..6] == Hex(g[..6])
  {
    var s := Hex(g[..8]) + "-" + Hex(g[8..12]) + "-" + Hex(g[12..16]) + "-"
      + Hex(g[16..20]) + "-" + Hex(g[20..]);
    assert s[..6] == Hex(g[..6]) by {
      forall i | 0 <= i < 6 ensures s[i] == Hex(g[..6])[i] {
        assert s[i] == Hex(g[..8])[i];
      }
    }
    s
  }

  /** A join code: `Guid.NewGuid().ToString().Substring(0, 6).ToUpper()`. */
  function JoinCode(g: Guid): (code: string)
    ensures |code| == 6
    ensures forall i :: 0 <= i < 6 ==> IsUpperHexDigit(code[i])
    ensures forall i :: 0 <= i < 6 ==> !IsAsciiLower(code[i])
  {
    var code := ToUpper(GuidText(g)[..6]);
    assert forall i :: 0 <= i < 6 ==> code[i] == UpperChar(HexDigit(g[i]));
    code
  }

  /** Two draws whose first six digits agree give the same join code, the
      only way two draws can collide. */
  lemma {:induction false} JoinCodeInjectiveOnPrefix(g: Guid, h: Guid)
    ensures JoinCode(g) == JoinCode(h) <==> g[..6] == h[..6]
  {
    if g[..6] == h[..6] {
      forall i | 0 <= i < 6 ensures JoinCode(g)[i] == JoinCode(h)[i] {
        assert g[i] == g[..6][i] && h[i] == h[..6][i];
      }
    }
    if JoinCode(g) == JoinCode(h) {
      forall i | 0 <= i < 6 ensures g[i] == h[i] {
        assert UpperChar(HexDigit(g[i])) == JoinCode(g)[i];
        assert UpperChar(HexDigit(h[i])) == JoinCode(h)[i];
      }
      assert g[..6] == h[..6];
    }
  }
}
