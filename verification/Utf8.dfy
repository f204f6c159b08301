/** Well-formed UTF-8, as section 3 and section 4 of RFC 3629 have it. */
module Utf8 {

  type Byte = b: int | 0 <= b < 0x100

  predicate Tail(s: seq<Byte>, k: nat, lo: int, hi: int) {
    k < |s| && lo <= s[k] <= hi
  }

  /** How many bytes the character at the front of `s` takes; 0 when no
      well-formed character starts there. */
  function Lead(s: seq<Byte>): (n: nat)
    ensures n <= 4 && n <= |s|
  {
    if s == [] then 0
    else if s[0] <= 0x7F then 1
    else if 0xC2 <= s[0] <= 0xDF then
      if Tail(s, 1, 0x80, 0xBF) then 2 else 0
    else if 0xE0 <= s[0] <= 0xEF then
      var lo := if s[0] == 0xE0 then 0xA0 else 0x80;
      var hi := if s[0] == 0xED then 0x9F else 0xBF;
      if Tail(s, 1, lo, hi) && Tail(s, 2, 0x80, 0xBF) then 3 else 0
    else if 0xF0 <= s[0] <= 0xF4 then
      var lo := if s[0] == 0xF0 then 0x90 else 0x80;
      var hi := if s[0] == 0xF4 then 0x8F else 0xBF;
      if Tail(s, 1, lo, hi) && Tail(s, 2, 0x80, 0xBF) && Tail(s, 3, 0x80, 0xBF) then 4 else 0
    else 0
  }

  predicate WellFormed(s: seq<Byte>)
    decreases |s|
  {
    s == [] || (Lead(s) > 0 && WellFormed(s[Lead(s)..]))
  }

  /** A character that fits before an ASCII byte is read the same with it behind. */
  lemma LeadBefore(a: seq<Byte>, b: seq<Byte>)
    requires a != [] && (b == [] || b[0] <= 0x7F)
    ensures Lead(a + b) == Lead(a)
  {
    var s := a + b;
    assert forall k :: 0 <= k < |a| ==> s[k] == a[k];
    assert |a| < |s| ==> s[|a|] == b[0];
    assert s[0] == a[0];
    forall k: nat, lo, hi | 1 <= k <= 3 && 0x80 <= lo && Tail(s, k, lo, hi) && k <= |a| ensures k < |a| {
    }
  }

  /** Text cut before an ASCII byte is text on both sides, and only then. */
  lemma {:induction false} CutBeforeAscii(a: seq<Byte>, b: seq<Byte>)
    requires b == [] || b[0] <= 0x7F
    ensures WellFormed(a + b) <==> WellFormed(a) && WellFormed(b)
    decreases |a|
  {
    if a == [] {
      assert a + b == b;
    } else {
      LeadBefore(a, b);
      var n := Lead(a);
      if n > 0 {
        assert (a + b)[n..] == a[n..] + b;
        CutBeforeAscii(a[n..], b);
      }
    }
  }

  lemma AsciiFirst(c: Byte, s: seq<Byte>)
    requires c <= 0x7F
    ensures WellFormed([c] + s) <==> WellFormed(s)
  {
    assert ([c] + s)[1..] == s;
  }
}
