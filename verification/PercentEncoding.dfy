/**
  Percent encoding of metric keys and run identifiers, for partition directories
  and lock file names (sections 2.1 and 2.3 of RFC 3986).
 */
module PercentEncoding {
  import opened Values

  type Byte = x: int | 0 <= x < 256

  /** Letters, digits and `. _ ~ -`. */
  predicate IsUnreserved(b: Byte) {
    0x41 <= b <= 0x5A || 0x61 <= b <= 0x7A || 0x30 <= b <= 0x39 || b == 0x2E || b == 0x5F || b == 0x7E || b == 0x2D
  }

  function UpperHex(digit: nat): char
    requires digit < 16
  {
    (if digit < 10 then 0x30 + digit else 0x41 + digit - 10) as char
  }

  function EncodedByte(b: Byte): string {
    if IsUnreserved(b) then [b as char] else ['%', UpperHex(b / 16), UpperHex(b % 16)]
  }

  function Encoded(bytes: seq<Byte>): string {
    if bytes == [] then [] else EncodedByte(bytes[0]) + Encoded(bytes[1..])
  }

  lemma {:induction false} EncodedAppends(a: seq<Byte>, b: seq<Byte>)
    ensures Encoded(a + b) == Encoded(a) + Encoded(b)
  {
    if a == [] {
      assert a + b == b;
    } else {
      assert (a + b)[1..] == a[1..] + b;
      EncodedAppends(a[1..], b);
    }
  }

  method PercentEncode(bytes: seq<Byte>) returns (encoded: string)
    ensures encoded == Encoded(bytes)
  {
    encoded := [];
    for i := 0 to |bytes|
      invariant encoded == Encoded(bytes[..i])
    {
      var b := bytes[i];
      EncodedAppends(bytes[..i], [b]);
      assert bytes[..i] + [b] == bytes[..i + 1] && [b][1..] == [];
      if IsUnreserved(b) {
        encoded := encoded + [b as char];
      } else {
        encoded := encoded + ['%', UpperHex(b / 16), UpperHex(b % 16)];
      }
    }
    assert bytes[..|bytes|] == bytes;
  }

  // ------------------------------------------------------------ decoding

  function HexValue(c: char): Option<nat> {
    if '0' <= c <= '9' then Some(c as int - 0x30)
    else if 'A' <= c <= 'F' then Some(c as int - 0x41 + 10)
    else if 'a' <= c <= 'f' then Some(c as int - 0x61 + 10)
    else None
  }

  /** A decoder in the sense of the RFC: it also takes lower-case digits and plain reserved characters. */
  function Decoded(s: string): Option<seq<Byte>> {
    if s == [] then Some([])
    else if s[0] == '%' then
      if |s| < 3 || HexValue(s[1]).None? || HexValue(s[2]).None? then None
      else match Decoded(s[3..])
        case None => None
        case Some(rest) => Some([HexValue(s[1]).value * 16 + HexValue(s[2]).value] + rest)
    else if s[0] as int >= 256 then None
    else match Decoded(s[1..])
      case None => None
      case Some(rest) => Some([s[0] as int] + rest)
  }

  lemma HexDigits(b: Byte)
    ensures HexValue(UpperHex(b / 16)) == Some(b / 16) && HexValue(UpperHex(b % 16)) == Some(b % 16)
  {
  }

  /** Decoding undoes encoding. */
  lemma {:induction false} DecodesBack(bytes: seq<Byte>)
    ensures Decoded(Encoded(bytes)) == Some(bytes)
  {
    if bytes != [] {
      var b, rest := bytes[0], Encoded(bytes[1..]);
      DecodesBack(bytes[1..]);
      HexDigits(b);
      var s := EncodedByte(b) + rest;
      if IsUnreserved(b) {
        assert s[0] == b as char && s[1..] == rest;
      } else {
        assert s[0] == '%' && s[1] == UpperHex(b / 16) && s[2] == UpperHex(b % 16) && s[3..] == rest;
      }
      assert [b] + bytes[1..] == bytes;
    }
  }

  /** Different keys get different partitions, and different runs different lock files. */
  lemma EncodingIsInjective(a: seq<Byte>, b: seq<Byte>, suffix: string)
    requires Encoded(a) + suffix == Encoded(b) + suffix
    ensures a == b
  {
    var whole := Encoded(a) + suffix;
    assert |Encoded(a)| == |Encoded(b)|;
    assert Encoded(a) == whole[..|Encoded(a)|] && Encoded(b) == whole[..|Encoded(b)|];
    DecodesBack(a);
    DecodesBack(b);
  }

  // ------------------------------------------------------------ the alphabet

  predicate IsUpperHex(c: char) {
    '0' <= c <= '9' || 'A' <= c <= 'F'
  }

  /** A sequence of unreserved characters and of `%` with two upper-case digits, the latter never for an unreserved byte. */
  predicate IsNormalForm(s: string) {
    if s == [] then true
    else if s[0] == '%' then
      |s| >= 3 && IsUpperHex(s[1]) && IsUpperHex(s[2])
      && !IsUnreserved(HexValue(s[1]).value * 16 + HexValue(s[2]).value) && IsNormalForm(s[3..])
    else s[0] as int < 256 && IsUnreserved(s[0] as int) && IsNormalForm(s[1..])
  }

  /** Letters, digits, `-`, `.`, `_` and `~` stay; every other byte becomes `%` and its two upper-case digits. */
  lemma BytesEncode(b: Byte)
    ensures var c := b as char;
            if 'A' <= c <= 'Z' || 'a' <= c <= 'z' || '0' <= c <= '9' || c == '-' || c == '.' || c == '_' || c == '~' then EncodedByte(b) == [c]
            else && |EncodedByte(b)| == 3 && EncodedByte(b)[0] == '%'
                 && EncodedByte(b)[1] == "0123456789ABCDEF"[b / 16] && EncodedByte(b)[2] == "0123456789ABCDEF"[b % 16]
  {
    HexDigit(b / 16);
    HexDigit(b % 16);
  }

  lemma HexDigit(digit: nat)
    requires digit < 16
    ensures UpperHex(digit) == "0123456789ABCDEF"[digit]
  {
  }

  lemma {:induction false} EncodesToNormalForm(bytes: seq<Byte>)
    ensures IsNormalForm(Encoded(bytes))
  {
    if bytes != [] {
      var b, rest := bytes[0], Encoded(bytes[1..]);
      EncodesToNormalForm(bytes[1..]);
      HexDigits(b);
      var s := EncodedByte(b) + rest;
      if IsUnreserved(b) {
        assert s[0] == b as char && s[1..] == rest;
      } else {
        assert s[0] == '%' && s[1] == UpperHex(b / 16) && s[2] == UpperHex(b % 16) && s[3..] == rest;
        assert b / 16 * 16 + b % 16 == b;
      }
    }
  }

  /** The normal forms are exactly the encodings: encoding undoes decoding on them. */
  lemma {:induction false} NormalFormsAreEncodings(s: string)
    requires IsNormalForm(s)
    ensures Decoded(s).Some? && Encoded(Decoded(s).value) == s
  {
    if s != [] {
      var n := if s[0] == '%' then 3 else 1;
      NormalFormsAreEncodings(s[n..]);
      var rest := Decoded(s[n..]).value;
      var b: Byte := if n == 3 then HexValue(s[1]).value * 16 + HexValue(s[2]).value else s[0] as int;
      FirstByte(s, n, b);
      hide HexValue, IsUnreserved, EncodedByte, IsNormalForm, IsUpperHex;
      assert Decoded(s).value == [b] + rest;
      assert ([b] + rest)[0] == b && ([b] + rest)[1..] == rest;
      assert s == s[..n] + s[n..];
    }
  }

  /** The first characters of a normal form are the encoding of one byte. */
  lemma FirstByte(s: string, n: nat, b: Byte)
    requires s != [] && IsNormalForm(s) && n == (if s[0] == '%' then 3 else 1)
    requires b as int == if n == 3 then HexValue(s[1]).value * 16 + HexValue(s[2]).value else s[0] as int
    ensures EncodedByte(b) == s[..n]
    ensures n == 3 ==> HexValue(s[1]).Some? && HexValue(s[2]).Some?
    ensures n == 1 ==> (s[0] as int) < 256
  {
    if n == 3 {
      assert s[..3] == [s[0], s[1], s[2]];
      EscapedByte(s[1], s[2], b);
    } else {
      assert s[..1] == [s[0]];
    }
    hide HexValue, IsUpperHex, UpperHex, EncodedByte, IsUnreserved;
  }

  lemma EscapedByte(c: char, d: char, b: Byte)
    requires IsUpperHex(c) && IsUpperHex(d) && b == HexValue(c).value * 16 + HexValue(d).value && !IsUnreserved(b)
    ensures HexValue(c).Some? && HexValue(d).Some? && EncodedByte(b) == ['%', c, d]
  {
    HexDigitBack(c);
    HexDigitBack(d);
    hide HexValue, IsUpperHex, UpperHex, IsUnreserved;
  }

  lemma HexDigitBack(c: char)
    requires IsUpperHex(c)
    ensures HexValue(c).Some? && HexValue(c).value < 16 && UpperHex(HexValue(c).value) == c
  {
  }
}
