/** Well-formed UTF-8, section 4 of RFC 3629. */
module Utf8 {
  import opened Common

  predicate Continues(s: Bytes, i: nat, low: byte, high: byte) { i < |s| && low <= s[i] <= high }

  /** Width of the character at the start; 0 when there is none. */
  function Width(s: Bytes): (w: nat)
    ensures w <= |s|
    ensures s != [] && s[0] < 0x80 ==> w == 1
  {
    if s == [] then 0
    else if s[0] < 0x80 then 1
    else if 0xC2 <= s[0] <= 0xDF then if Continues(s, 1, 0x80, 0xBF) then 2 else 0
    else if 0xE0 <= s[0] <= 0xEF then
      var low: byte := if s[0] == 0xE0 then 0xA0 else 0x80;
      var high: byte := if s[0] == 0xED then 0x9F else 0xBF;
      if Continues(s, 1, low, high) && Continues(s, 2, 0x80, 0xBF) then 3 else 0
    else if 0xF0 <= s[0] <= 0xF4 then
      var low: byte := if s[0] == 0xF0 then 0x90 else 0x80;
      var high: byte := if s[0] == 0xF4 then 0x8F else 0xBF;
      if Continues(s, 1, low, high) && Continues(s, 2, 0x80, 0xBF) && Continues(s, 3, 0x80, 0xBF) then 4 else 0
    else 0
  }

  predicate Valid(s: Bytes) {
    s == [] || (Width(s) > 0 && Valid(s[Width(s)..]))
  }

  /** ASCII text in front changes nothing. */
  lemma {:induction false} AsciiPrefix(a: Bytes, s: Bytes)
    requires forall i :: 0 <= i < |a| ==> a[i] < 0x80
    ensures Valid(a + s) <==> Valid(s)
    decreases |a|
  {
    if a == [] {
      assert a + s == s;
    } else {
      AsciiPrefix(a[1..], s);
      assert (a + s)[1..] == a[1..] + s;
    }
  }

  lemma {:induction false} AsciiIsValid(a: Bytes)
    requires forall i :: 0 <= i < |a| ==> a[i] < 0x80
    ensures Valid(a)
  {
    AsciiPrefix(a, []);
    assert a + [] == a;
  }

  // ----- Well-formed text is encoded characters -----

  /** A character: every code point except the surrogates. */
  predicate Scalar(c: int) { 0 <= c < 0xD800 || 0xE000 <= c < 0x11_0000 }

  /** The table of section 3 of RFC 3629. */
  function EncodeScalar(c: int): (r: Bytes)
    requires Scalar(c)
    ensures 1 <= |r| <= 4
  {
    if c < 0x80 then [c as byte]
    else if c < 0x800 then [(0xC0 + c / 0x40) as byte, (0x80 + c % 0x40) as byte]
    else if c < 0x1_0000 then [(0xE0 + c / 0x1000) as byte, (0x80 + c / 0x40 % 0x40) as byte, (0x80 + c % 0x40) as byte]
    else [(0xF0 + c / 0x4_0000) as byte, (0x80 + c / 0x1000 % 0x40) as byte, (0x80 + c / 0x40 % 0x40) as byte, (0x80 + c % 0x40) as byte]
  }

  predicate Scalars(cs: seq<int>) { forall i :: 0 <= i < |cs| ==> Scalar(cs[i]) }

  function Encode(cs: seq<int>): Bytes
    requires Scalars(cs)
  {
    if cs == [] then [] else EncodeScalar(cs[0]) + Encode(cs[1..])
  }

  /** The digits of a character in groups of six bits. */
  lemma Groups(c: int)
    requires 0 <= c
    ensures c == c / 0x1000 * 0x1000 + c / 0x40 % 0x40 * 0x40 + c % 0x40
    ensures c / 0x1000 == c / 0x4_0000 * 0x40 + c / 0x1000 % 0x40
  {
    assert c / 0x40 / 0x40 == c / 0x1000 && c / 0x1000 / 0x40 == c / 0x4_0000;
  }

  lemma EncodedWidth(c: int, rest: Bytes)
    requires Scalar(c)
    ensures Width(EncodeScalar(c) + rest) == |EncodeScalar(c)|
  {
    var e := EncodeScalar(c);
    assert forall i :: 0 <= i < |e| ==> (e + rest)[i] == e[i];
    if 0x1_0000 <= c {
      LongLead(c);
    } else if 0x800 <= c {
      MiddleLead(c);
    }
  }

  lemma MiddleLead(c: int)
    requires Scalar(c) && 0x800 <= c < 0x1_0000
    ensures 0 <= c / 0x1000 < 0x10 && (c / 0x1000 == 0 ==> 0x20 <= c / 0x40 % 0x40) && (c / 0x1000 == 0xD ==> c / 0x40 % 0x40 < 0x20)
  {
    Groups(c);
  }

  lemma LongLead(c: int)
    requires Scalar(c) && 0x1_0000 <= c
    ensures 0 <= c / 0x4_0000 <= 4
    ensures (c / 0x4_0000 == 0 ==> 0x10 <= c / 0x1000 % 0x40) && (c / 0x4_0000 == 4 ==> c / 0x1000 % 0x40 < 0x10)
  {
    Groups(c);
  }

  /** Three groups put together and taken apart again. */
  lemma Regrouped(a: nat, b: nat, d: nat)
    requires b < 0x40 && d < 0x40
    ensures var c := a * 0x1000 + b * 0x40 + d; c / 0x1000 == a && c / 0x40 % 0x40 == b && c % 0x40 == d
  {
    assert (a * 0x1000 + b * 0x40 + d) / 0x40 == a * 0x40 + b;
  }

  lemma MiddleEncodes(s: Bytes) returns (c: int)
    requires Width(s) == 3
    ensures Scalar(c) && EncodeScalar(c) == s[..3]
  {
    var a, b, d := s[0] as int - 0xE0, s[1] as int - 0x80, s[2] as int - 0x80;
    Regrouped(a, b, d);
    c := a * 0x1000 + b * 0x40 + d;
  }

  lemma LongEncodes(s: Bytes) returns (c: int)
    requires Width(s) == 4
    ensures Scalar(c) && EncodeScalar(c) == s[..4]
  {
    var a, b, d, e := s[0] as int - 0xF0, s[1] as int - 0x80, s[2] as int - 0x80, s[3] as int - 0x80;
    Regrouped(a * 0x40 + b, d, e);
    c := (a * 0x40 + b) * 0x1000 + d * 0x40 + e;
    Groups(c);
  }

  lemma WidthEncodes(s: Bytes) returns (c: int)
    requires Width(s) > 0
    ensures Scalar(c) && EncodeScalar(c) == s[..Width(s)]
  {
    var w := Width(s);
    if w == 3 {
      c := MiddleEncodes(s);
    } else if w == 4 {
      c := LongEncodes(s);
    } else {
      c := if w == 1 then s[0] as int else (s[0] as int - 0xC0) * 0x40 + s[1] as int - 0x80;
    }
  }

  lemma {:induction false} EncodedIsValid(cs: seq<int>)
    requires Scalars(cs)
    ensures Valid(Encode(cs))
    decreases |cs|
  {
    if cs != [] {
      var e, rest := EncodeScalar(cs[0]), Encode(cs[1..]);
      EncodedIsValid(cs[1..]);
      EncodedWidth(cs[0], rest);
      hide Width, EncodeScalar;
      assert (e + rest)[|e|..] == rest;
    }
  }

  lemma EncodeMore(c: int, cs: seq<int>)
    requires Scalar(c) && Scalars(cs)
    ensures Scalars([c] + cs) && Encode([c] + cs) == EncodeScalar(c) + Encode(cs)
  {
    assert ([c] + cs)[1..] == cs;
  }

  lemma {:induction false} ValidIsEncoded(s: Bytes) returns (cs: seq<int>)
    requires Valid(s)
    ensures Scalars(cs) && Encode(cs) == s
    decreases |s|
  {
    if s == [] {
      cs := [];
    } else {
      var w := Width(s);
      assert w > 0 && Valid(s[w..]);
      assert s == s[..w] + s[w..];
      hide *;
      var rest := ValidIsEncoded(s[w..]);
      var c := WidthEncodes(s);
      cs := [c] + rest;
      EncodeMore(c, rest);
    }
  }

  /** Well-formed text is exactly the encoding of some characters. */
  lemma ValidExactly(s: Bytes)
    ensures Valid(s) <==> exists cs :: Scalars(cs) && Encode(cs) == s
  {
    hide Valid, Encode;
    if Valid(s) {
      var cs := ValidIsEncoded(s);
    }
    if exists cs :: Scalars(cs) && Encode(cs) == s {
      var cs :| Scalars(cs) && Encode(cs) == s;
      EncodedIsValid(cs);
    }
  }
}
