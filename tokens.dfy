/**
 * Browser tokens. A token is a 128-bit UUID; the system keys its live-session
 * registry and names profile directories by `str(token)`, the canonical
 * lower-case 8-4-4-4-12 hexadecimal form, and turns that text back into a
 * token with `uuid.UUID(text)`.
 */
module Tokens {
  import opened Wrappers
  import opened Text

  type Token = t: nat | t < 0x1_0000_0000_0000_0000_0000_0000_0000_0000

  function Pow16(w: nat): (p: nat)
    ensures p >= 1
  {
    if w == 0 then 1 else 16 * Pow16(w - 1)
  }

  lemma {:induction false} Pow16Add(a: nat, b: nat)
    ensures Pow16(a + b) == Pow16(a) * Pow16(b)
  {
    if a > 0 {
      Pow16Add(a - 1, b);
    }
  }

  lemma Pow16Is128Bits()
    ensures Pow16(32) == 0x1_0000_0000_0000_0000_0000_0000_0000_0000
  {
    assert Pow16(4) == 0x1_0000;
    Pow16Add(4, 4);
    Pow16Add(8, 8);
    Pow16Add(16, 16);
  }

  predicate IsHexDigit(c: char) {
    ('0' <= c <= '9') || ('a' <= c <= 'f') || ('A' <= c <= 'F')
  }

  predicate AllHex(s: string) {
    forall i :: 0 <= i < |s| ==> IsHexDigit(s[i])
  }

  function HexChar(d: nat): (c: char)
    requires d < 16
    ensures IsHexDigit(c) && c != '-'
  {
    "0123456789abcdef"[d]
  }

  function HexDigitValue(c: char): (d: nat)
    requires IsHexDigit(c)
    ensures d < 16
  {
    if '0' <= c <= '9' then (c as int - '0' as int) as nat
    else if 'a' <= c <= 'f' then (c as int - 'a' as int + 10) as nat
    else (c as int - 'A' as int + 10) as nat
  }

  lemma HexCharValue(d: nat)
    requires d < 16
    ensures HexDigitValue(HexChar(d)) == d
  {
  }

  lemma DivBelowPow(n: nat, w: nat)
    requires w > 0 && n < Pow16(w)
    ensures n / 16 < Pow16(w - 1)
  {
  }

  /** `n` written as exactly `w` lower-case hex digits, most significant first. */
  function Hex(n: nat, w: nat): (r: string)
    requires n < Pow16(w)
    ensures |r| == w && AllHex(r)
    ensures forall i :: 0 <= i < |r| ==> r[i] != '-'
  {
    if w == 0 then [] else DivBelowPow(n, w); Hex(n / 16, w - 1) + [HexChar(n % 16)]
  }

  /** `int(s, 16)` for a string of hex digits of either case. */
  function HexValue(s: string): nat
    requires AllHex(s)
  {
    if s == [] then 0 else HexValue(s[..|s| - 1]) * 16 + HexDigitValue(s[|s| - 1])
  }

  lemma {:induction false} HexValueBound(s: string)
    requires AllHex(s)
    ensures HexValue(s) < Pow16(|s|)
  {
    if s != [] {
      HexValueBound(s[..|s| - 1]);
    }
  }

  /** Reading back `w` hex digits of `n` gives `n`. */
  lemma {:induction false} HexRoundTrip(n: nat, w: nat)
    requires n < Pow16(w)
    ensures HexValue(Hex(n, w)) == n
  {
    if w > 0 {
      DivBelowPow(n, w);
      var r := Hex(n, w);
      assert r[..|r| - 1] == Hex(n / 16, w - 1);
      HexRoundTrip(n / 16, w - 1);
      HexCharValue(n % 16);
    }
  }

  /** `str(token)`: 32 hex digits grouped 8-4-4-4-12 and joined by `-`. */
  function TokenString(t: Token): (r: string)
    ensures |r| == 36
  {
    Pow16Is128Bits();
    var h := Hex(t, 32);
    h[..8] + "-" + h[8..12] + "-" + h[12..16] + "-" + h[16..20] + "-" + h[20..]
  }

  /** `uuid.UUID(s)`: drop the hyphens, then exactly 32 hex digits are required. */
  function ParseToken(s: string): (r: Option<Token>)
    ensures r.Some? <==> (|RemoveChar(s, '-')| == 32 && AllHex(RemoveChar(s, '-')))
  {
    var hex := RemoveChar(s, '-');
    if |hex| == 32 && AllHex(hex) then
      HexValueBound(hex);
      Pow16Is128Bits();
      Some(HexValue(hex))
    else None
  }

  /** The text of a token holds only hex digits and hyphens, so it has no `.` and no `:`. */
  lemma TokenStringAlphabet(t: Token)
    ensures forall i :: 0 <= i < 36 ==> IsHexDigit(TokenString(t)[i]) || TokenString(t)[i] == '-'
    ensures '.' !in TokenString(t) && ':' !in TokenString(t)
  {
    Pow16Is128Bits();
    var h := Hex(t, 32);
    var r := TokenString(t);
    assert r == h[..8] + "-" + h[8..12] + "-" + h[12..16] + "-" + h[16..20] + "-" + h[20..];
    forall i | 0 <= i < 36
      ensures IsHexDigit(r[i]) || r[i] == '-'
    {
      if i < 8 { assert r[i] == h[i]; }
      else if i == 8 || i == 13 || i == 18 || i == 23 { }
      else if i < 13 { assert r[i] == h[i - 1]; }
      else if i < 18 { assert r[i] == h[i - 2]; }
      else if i < 23 { assert r[i] == h[i - 3]; }
      else { assert r[i] == h[i - 4]; }
    }
  }

  lemma RemoveDash()
    ensures RemoveChar("-", '-') == []
  {
  }

  lemma JoinStep(x: string, b: string)
    requires '-' !in b
    ensures RemoveChar(x + "-" + b, '-') == RemoveChar(x, '-') + b
  {
    var u := x + "-";
    RemoveCharConcat(u, b, '-');
    RemoveCharConcat(x, "-", '-');
    RemoveDash();
    assert RemoveChar(u, '-') == RemoveChar(x, '-');
    RemoveCharAbsent(b, '-');
  }

  /** `uuid.UUID(str(token)) == token`. */
  lemma ParseTokenString(t: Token)
    ensures ParseToken(TokenString(t)) == Some(t)
  {
    Pow16Is128Bits();
    var h := Hex(t, 32);
    var p0, p1, p2, p3, p4 := h[..8], h[8..12], h[12..16], h[16..20], h[20..];
    assert h == p0 + p1 + p2 + p3 + p4;
    RemoveCharAbsent(p0, '-');
    JoinStep(p0, p1);
    JoinStep(p0 + "-" + p1, p2);
    JoinStep(p0 + "-" + p1 + "-" + p2, p3);
    JoinStep(p0 + "-" + p1 + "-" + p2 + "-" + p3, p4);
    assert RemoveChar(TokenString(t), '-') == h;
    HexRoundTrip(t, 32);
  }

  /** Distinct tokens have distinct texts, so `str(token)` is a faithful registry key. */
  lemma TokenStringInjective(t: Token, u: Token)
    requires TokenString(t) == TokenString(u)
    ensures t == u
  {
    ParseTokenString(t);
    ParseTokenString(u);
  }
}
