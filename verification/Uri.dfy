/** Percent-encoding for request signatures, as sections 2.1 and 2.3 of RFC 3986
    have it, in upper case. */
module Uri {
  import opened Base
  import opened Utf8

  predicate Unreserved(b: int) {
    || 0x41 <= b <= 0x5A || 0x61 <= b <= 0x7A || 0x30 <= b <= 0x39
    || b == 0x2D || b == 0x5F || b == 0x2E || b == 0x7E
  }

  function Hex(d: int): char
    requires 0 <= d < 16
  {
    if d < 10 then '0' + d as char else 'A' + (d - 10) as char
  }

  function EncodeByte(b: Byte, encodeSlash: bool): string {
    if Unreserved(b) || (b == 0x2F && !encodeSlash) then [b as char]
    else ['%', Hex(b / 16), Hex(b % 16)]
  }

  function Encoded(s: seq<Byte>, encodeSlash: bool): string {
    if s == [] then "" else Encoded(s[..|s| - 1], encodeSlash) + EncodeByte(s[|s| - 1], encodeSlash)
  }

  method Encode(s: seq<Byte>, encodeSlash: bool) returns (out: string)
    ensures out == Encoded(s, encodeSlash)
  {
    out := "";
    for i := 0 to |s|
      invariant out == Encoded(s[..i], encodeSlash)
    {
      assert s[..i + 1][..i] == s[..i];
      if Unreserved(s[i]) || (s[i] == 0x2F && !encodeSlash) {
        out := out + [s[i] as char];
      } else {
        out := out + ['%', Hex(s[i] / 16), Hex(s[i] % 16)];
      }
    }
    assert s[..|s|] == s;
  }

  // ---- the reader any server has ------------------------------------------------------

  function HexValue(c: char): Option<int> {
    if '0' <= c <= '9' then Some(c as int - '0' as int)
    else if 'A' <= c <= 'F' then Some(c as int - 'A' as int + 10)
    else if 'a' <= c <= 'f' then Some(c as int - 'a' as int + 10)
    else None
  }

  /** Percent-decoding; `None` for a `%` without its two digits, or a character
      that is no byte. */
  function Decode(s: string): Option<seq<Byte>> {
    if s == "" then Some([])
    else if s[0] == '%' then
      if |s| < 3 then None
      else
        match (HexValue(s[1]), HexValue(s[2]), Decode(s[3..]))
        case (Some(hi), Some(lo), Some(rest)) => Some([hi * 16 + lo] + rest)
        case _ => None
    else if s[0] as int >= 0x100 then None
    else
      match Decode(s[1..])
      case Some(rest) => Some([s[0] as int] + rest)
      case None => None
  }

  lemma DecodeFirst(b: Byte, encodeSlash: bool, rest: string)
    ensures Decode(EncodeByte(b, encodeSlash) + rest)
         == (if Decode(rest).Some? then Some([b] + Decode(rest).value) else None)
  {
    var e := EncodeByte(b, encodeSlash);
    var s := e + rest;
    if Unreserved(b) || (b == 0x2F && !encodeSlash) {
      assert s[1..] == rest;
    } else {
      HexReadsBack(b / 16);
      HexReadsBack(b % 16);
      assert s[3..] == rest;
    }
  }

  lemma HexReadsBack(d: int)
    requires 0 <= d < 16
    ensures HexValue(Hex(d)) == Some(d)
  {
  }

  lemma {:induction false} EncodedTwice(s: seq<Byte>, encodeSlash: bool, rest: string)
    ensures Decode(Encoded(s, encodeSlash) + rest)
         == (if Decode(rest).Some? then Some(s + Decode(rest).value) else None)
  {
    hide EncodeByte, Decode;
    if s == [] {
      assert Encoded(s, encodeSlash) + rest == rest;
      assert Decode(rest).Some? ==> s + Decode(rest).value == Decode(rest).value;
    } else {
      var front, last := s[..|s| - 1], s[|s| - 1];
      var e := EncodeByte(last, encodeSlash);
      Assoc(Encoded(front, encodeSlash), e, rest);
      EncodedTwice(front, encodeSlash, e + rest);
      DecodeFirst(last, encodeSlash, rest);
      if Decode(rest).Some? {
        assert front + ([last] + Decode(rest).value) == s + Decode(rest).value;
      }
    }
  }

  /** Decoding what was encoded gives it back, slashes encoded or not. */
  lemma DecodesBack(s: seq<Byte>, encodeSlash: bool)
    ensures Decode(Encoded(s, encodeSlash)) == Some(s)
  {
    hide Encoded, EncodeByte;
    EncodedTwice(s, encodeSlash, "");
    assert Encoded(s, encodeSlash) + "" == Encoded(s, encodeSlash);
    assert s + [] == s;
  }

  predicate Safe(c: char, encodeSlash: bool) {
    Unreserved(c as int) || c == '%' || (c == '/' && !encodeSlash)
  }

  /** Nothing reserved is left bare, save the separator of a path. */
  lemma {:induction false} OnlySafe(s: seq<Byte>, encodeSlash: bool)
    ensures forall k :: 0 <= k < |Encoded(s, encodeSlash)| ==> Safe(Encoded(s, encodeSlash)[k], encodeSlash)
  {
    if s != [] {
      OnlySafe(s[..|s| - 1], encodeSlash);
    }
  }
}
