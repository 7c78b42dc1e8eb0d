/** PKCE material: base64url without padding, and the S256 challenge (RFC 7636). */
module Pkce {
  import opened Common

  /** The alphabet of section 5 of RFC 4648. */
  const UPPER: string := "ABCDEFGHIJKLMNOPQRSTUVWXYZ"
  const LOWER: string := "abcdefghijklmnopqrstuvwxyz"
  const TABLE: string := UPPER + LOWER + "0123456789-_"

  const VERIFIER_BYTES: nat := 32
  const STATE_BYTES: nat := 16

  type Sextet = n: nat | n < 64

  function Symbol(n: Sextet): char { TABLE[n] }

  predicate InAlphabet(c: char) { 'A' <= c <= 'Z' || 'a' <= c <= 'z' || '0' <= c <= '9' || c == '-' || c == '_' }

  /** Position in the alphabet. */
  function SextetOf(c: char): Sextet
    requires InAlphabet(c)
  {
    if 'A' <= c <= 'Z' then c as int - 'A' as int
    else if 'a' <= c <= 'z' then c as int - 'a' as int + 26
    else if '0' <= c <= '9' then c as int - '0' as int + 52
    else if c == '-' then 62
    else 63
  }

  lemma UpperValues(n: nat)
    requires n < 26
    ensures UPPER[n] as int == 'A' as int + n
  {
    assert UPPER == "ABCDEFGHIJKLM" + "NOPQRSTUVWXYZ";
    if n < 13 {
      assert UPPER[n] == "ABCDEFGHIJKLM"[n];
    } else {
      assert UPPER[n] == "NOPQRSTUVWXYZ"[n - 13];
    }
  }

  lemma LowerValues(n: nat)
    requires n < 26
    ensures LOWER[n] as int == 'a' as int + n
  {
    assert LOWER == "abcdefghijklm" + "nopqrstuvwxyz";
    if n < 13 {
      assert LOWER[n] == "abcdefghijklm"[n];
    } else {
      assert LOWER[n] == "nopqrstuvwxyz"[n - 13];
    }
  }

  lemma ConcatAt(u: string, l: string, d: string, n: nat)
    requires |u| == |l| == 26 && |d| == 12 && n < 64
    ensures (u + l + d)[n] == if n < 26 then u[n] else if n < 52 then l[n - 26] else d[n - 52]
  {
  }

  lemma TableAt(n: Sextet)
    ensures Symbol(n) == if n < 26 then UPPER[n] else if n < 52 then LOWER[n - 26] else "0123456789-_"[n - 52]
  {
    ConcatAt(UPPER, LOWER, "0123456789-_", n);
  }

  /** Character code of a symbol. */
  function Code(n: Sextet): nat {
    if n < 26 then 'A' as int + n
    else if n < 52 then 'a' as int + n - 26
    else if n < 62 then '0' as int + n - 52
    else if n == 62 then '-' as int
    else '_' as int
  }

  lemma UpperCode(n: Sextet)
    requires n < 26
    ensures Symbol(n) as int == Code(n)
  {
    TableAt(n);
    hide Symbol;
    UpperValues(n);
  }

  lemma LowerCode(n: Sextet)
    requires 26 <= n < 52
    ensures Symbol(n) as int == Code(n)
  {
    TableAt(n);
    hide Symbol;
    LowerValues(n - 26);
  }

  lemma LastCode(n: Sextet)
    requires 52 <= n
    ensures Symbol(n) as int == Code(n)
  {
    TableAt(n);
    hide Symbol;
  }

  lemma SymbolRoundTrip(n: Sextet)
    ensures InAlphabet(Symbol(n)) && SextetOf(Symbol(n)) == n
  {
    hide Symbol;
    if n < 26 {
      UpperCode(n);
    } else if n < 52 {
      LowerCode(n);
    } else {
      LastCode(n);
    }
  }

  /** Three bytes as one number, as the encoder shifts them together. */
  function Group(a: byte, b: byte, c: byte): nat { a as int * 65536 + b as int * 256 + c as int }

  /** Six bits of `n`, from the place whose weight is `scale`. */
  function Digit(n: nat, scale: nat): Sextet
    requires scale > 0
  {
    n / scale % 64
  }

  function Encode(bytes: Bytes): string {
    if |bytes| >= 3 then
      var n := Group(bytes[0], bytes[1], bytes[2]);
      [Symbol(Digit(n, 262144)), Symbol(Digit(n, 4096)), Symbol(Digit(n, 64)), Symbol(Digit(n, 1))] + Encode(bytes[3..])
    else if |bytes| == 2 then
      var n := Group(bytes[0], bytes[1], 0);
      [Symbol(Digit(n, 262144)), Symbol(Digit(n, 4096)), Symbol(Digit(n, 64))]
    else if |bytes| == 1 then
      var n := Group(bytes[0], 0, 0);
      [Symbol(Digit(n, 262144)), Symbol(Digit(n, 4096))]
    else ""
  }

  method Base64UrlNoPad(bytes: Bytes) returns (out: string)
    ensures out == Encode(bytes)
  {
    hide Symbol, Digit, Group;
    out := "";
    var index := 0;
    while index + 3 <= |bytes|
      invariant 0 <= index <= |bytes|
      invariant out + Encode(bytes[index..]) == Encode(bytes)
    {
      var n := Group(bytes[index], bytes[index + 1], bytes[index + 2]);
      assert bytes[index..][3..] == bytes[index + 3..];
      out := out + [Symbol(Digit(n, 262144)), Symbol(Digit(n, 4096)), Symbol(Digit(n, 64)), Symbol(Digit(n, 1))];
      index := index + 3;
    }
    if |bytes| - index == 1 {
      var n := Group(bytes[index], 0, 0);
      out := out + [Symbol(Digit(n, 262144)), Symbol(Digit(n, 4096))];
    } else if |bytes| - index == 2 {
      var n := Group(bytes[index], bytes[index + 1], 0);
      out := out + [Symbol(Digit(n, 262144)), Symbol(Digit(n, 4096)), Symbol(Digit(n, 64))];
    }
  }

  // ----- Decoding, the partner -----

  function Byte(n: int): byte { (n % 256) as byte }

  function Join(a: nat, b: nat, c: nat, d: nat): nat { a * 262144 + b * 4096 + c * 64 + d }

  function Decode(s: string): Option<Bytes> {
    if exists i :: 0 <= i < |s| && !InAlphabet(s[i]) then None
    else if |s| >= 4 then
      var n := Join(SextetOf(s[0]), SextetOf(s[1]), SextetOf(s[2]), SextetOf(s[3]));
      var rest :- Decode(s[4..]);
      Some([Byte(n / 65536), Byte(n / 256), Byte(n)] + rest)
    else if |s| == 3 then
      var n := Join(SextetOf(s[0]), SextetOf(s[1]), SextetOf(s[2]), 0);
      Some([Byte(n / 65536), Byte(n / 256)])
    else if |s| == 2 then
      var n := Join(SextetOf(s[0]), SextetOf(s[1]), 0, 0);
      Some([Byte(n / 65536)])
    else if |s| == 0 then Some([])
    else None
  }

  /** Four sextets are the digits of their joined value. */
  lemma JoinDigits(w: Sextet, x: Sextet, y: Sextet, z: Sextet)
    ensures var n := Join(w, x, y, z);
            Digit(n, 262144) == w && Digit(n, 4096) == x && Digit(n, 64) == y && Digit(n, 1) == z
  {
    var n := Join(w, x, y, z);
    assert n / 262144 == w;
    assert n / 4096 == w * 64 + x && (w * 64 + x) % 64 == x;
    assert n / 64 == w * 4096 + x * 64 + y;
  }

  lemma GroupSplits(a: byte, b: byte, c: byte)
    ensures var n := Group(a, b, c);
            && Join(Digit(n, 262144), Digit(n, 4096), Digit(n, 64), Digit(n, 1)) == n
            && Byte(n / 65536) == a && Byte(n / 256) == b && Byte(n) == c
            && (c == 0 ==> Digit(n, 1) == 0) && (b == 0 && c == 0 ==> Digit(n, 64) == 0)
  {
    hide Byte, Digit;
    GroupBytes(a, b, c);
    GroupSextets(a as int / 4, a as int % 4, b as int / 16, b as int % 16, c as int / 64, c as int % 64);
  }

  /** The bits of three bytes, cut at the sextets. */
  lemma GroupSextets(a1: nat, a0: nat, b1: nat, b0: nat, c1: nat, c0: nat)
    requires a1 < 64 && a0 < 4 && b1 < 16 && b0 < 16 && c1 < 4 && c0 < 64
    ensures var n := (a1 * 4 + a0) * 65536 + (b1 * 16 + b0) * 256 + c1 * 64 + c0;
            && Join(Digit(n, 262144), Digit(n, 4096), Digit(n, 64), Digit(n, 1)) == n
            && Digit(n, 1) == c0 && Digit(n, 64) == b0 * 4 + c1
  {
    hide Digit;
    JoinDigits(a1, a0 * 16 + b1, b0 * 4 + c1, c0);
  }

  lemma GroupBytes(a: byte, b: byte, c: byte)
    ensures var n := Group(a, b, c); Byte(n / 65536) == a && Byte(n / 256) == b && Byte(n) == c
  {
    var n := Group(a, b, c);
    assert n / 65536 == a as int;
    assert n / 256 == a as int * 256 + b as int;
  }

  lemma {:induction false} EncodeShape(bytes: Bytes)
    ensures |Encode(bytes)| == (4 * |bytes| + 2) / 3
    ensures forall i :: 0 <= i < |Encode(bytes)| ==> InAlphabet(Encode(bytes)[i])
    decreases |bytes|
  {
    hide InAlphabet;
    if |bytes| >= 3 {
      EncodeShape(bytes[3..]);
    }
    forall n: Sextet
      ensures InAlphabet(Symbol(n))
    {
      SymbolRoundTrip(n);
    }
    hide Symbol, Digit, Group;
  }

  predicate Clean(s: string) { forall i :: 0 <= i < |s| ==> InAlphabet(s[i]) }

  lemma DecodeOne(a: byte)
    ensures Decode(Encode([a])) == Some([a])
  {
    var n := Group(a, 0, 0);
    SymbolRoundTrip(Digit(n, 262144));
    SymbolRoundTrip(Digit(n, 4096));
    GroupSplits(a, 0, 0);
    hide Symbol, InAlphabet, SextetOf, Digit, Group, Byte;
    assert Encode([a]) == [Symbol(Digit(n, 262144)), Symbol(Digit(n, 4096))];
  }

  lemma DecodeThree(p: char, q: char, r: char)
    requires InAlphabet(p) && InAlphabet(q) && InAlphabet(r)
    ensures var n := Join(SextetOf(p), SextetOf(q), SextetOf(r), 0);
            Decode([p, q, r]) == Some([Byte(n / 65536), Byte(n / 256)])
  {
    hide InAlphabet, SextetOf, Byte, Join;
  }

  lemma DecodeTwo(a: byte, b: byte)
    ensures Decode(Encode([a, b])) == Some([a, b])
  {
    var n := Group(a, b, 0);
    assert Encode([a, b]) == [Symbol(Digit(n, 262144)), Symbol(Digit(n, 4096)), Symbol(Digit(n, 64))] by {
      hide Symbol, Digit, Group;
    }
    hide Symbol, InAlphabet, SextetOf, Digit, Group, Byte, Join, Decode, Encode;
    GroupSplits(a, b, 0);
    SymbolRoundTrip(Digit(n, 262144));
    SymbolRoundTrip(Digit(n, 4096));
    SymbolRoundTrip(Digit(n, 64));
    DecodeThree(Symbol(Digit(n, 262144)), Symbol(Digit(n, 4096)), Symbol(Digit(n, 64)));
  }

  lemma DecodeFour(p: char, q: char, r: char, t: char, rest: string)
    requires InAlphabet(p) && InAlphabet(q) && InAlphabet(r) && InAlphabet(t) && Clean(rest) && Decode(rest).Some?
    ensures var n := Join(SextetOf(p), SextetOf(q), SextetOf(r), SextetOf(t));
            Decode([p, q, r, t] + rest) == Some([Byte(n / 65536), Byte(n / 256), Byte(n)] + Decode(rest).value)
  {
    hide InAlphabet, SextetOf, Byte, Join;
    var s := [p, q, r, t] + rest;
    assert s[4..] == rest;
    assert forall i :: 4 <= i < |s| ==> s[i] == rest[i - 4];
    assert Clean(s);
  }

  lemma DecodeGroup(a: byte, b: byte, c: byte, rest: string)
    requires Clean(rest) && Decode(rest).Some?
    ensures var n := Group(a, b, c);
            Decode([Symbol(Digit(n, 262144)), Symbol(Digit(n, 4096)), Symbol(Digit(n, 64)), Symbol(Digit(n, 1))] + rest)
            == Some([a, b, c] + Decode(rest).value)
  {
    var n := Group(a, b, c);
    GroupSplits(a, b, c);
    hide Symbol, InAlphabet, SextetOf, Digit, Group, Byte, Join, Decode, Clean;
    SymbolRoundTrip(Digit(n, 262144));
    SymbolRoundTrip(Digit(n, 4096));
    SymbolRoundTrip(Digit(n, 64));
    SymbolRoundTrip(Digit(n, 1));
    DecodeFour(Symbol(Digit(n, 262144)), Symbol(Digit(n, 4096)), Symbol(Digit(n, 64)), Symbol(Digit(n, 1)), rest);
  }

  /** Decoding undoes encoding, for every byte string. */
  lemma {:induction false} DecodeEncode(bytes: Bytes)
    ensures Decode(Encode(bytes)) == Some(bytes)
    decreases |bytes|
  {
    if |bytes| >= 3 {
      DecodeEncode(bytes[3..]);
      EncodeShape(bytes[3..]);
      DecodeGroup(bytes[0], bytes[1], bytes[2], Encode(bytes[3..]));
      hide Symbol, InAlphabet, Decode, Digit, Group;
      assert bytes == [bytes[0], bytes[1], bytes[2]] + bytes[3..];
    } else if |bytes| == 2 {
      DecodeTwo(bytes[0], bytes[1]);
      assert bytes == [bytes[0], bytes[1]];
    } else if |bytes| == 1 {
      DecodeOne(bytes[0]);
      assert bytes == [bytes[0]];
    } else {
      assert bytes == [];
    }
  }

  lemma EncodeInjective(a: Bytes, b: Bytes)
    requires Encode(a) == Encode(b)
    ensures a == b
  {
    DecodeEncode(a);
    DecodeEncode(b);
  }

  // ----- Challenge -----

  predicate Unreserved(s: string) {
    s != "" && forall i :: 0 <= i < |s| ==> InAlphabet(s[i]) || s[i] == '.' || s[i] == '~'
  }

  /** A code verifier of section 4.1 of RFC 7636: 43 to 128 letters, digits and four marks. */
  predicate IsVerifier(s: string) {
    43 <= |s| <= 128 && forall c :: c in s ==> 'A' <= c <= 'Z' || 'a' <= c <= 'z' || '0' <= c <= '9' || c in "-._~"
  }

  /** `digest` is the SHA-256 function on the verifier's text. */
  function S256Challenge(verifier: string, digest: string -> Bytes): Option<string> {
    if |verifier| < 43 || |verifier| > 128 || !Unreserved(verifier) then None else Some(Encode(digest(verifier)))
  }

  lemma ChallengeExactly(verifier: string, digest: string -> Bytes)
    ensures S256Challenge(verifier, digest) == if IsVerifier(verifier) then Some(Encode(digest(verifier))) else None
  {
    if Unreserved(verifier) {
      forall c | c in verifier
        ensures 'A' <= c <= 'Z' || 'a' <= c <= 'z' || '0' <= c <= '9' || c in "-._~"
      {
        var i :| 0 <= i < |verifier| && verifier[i] == c;
        assert InAlphabet(verifier[i]) || verifier[i] == '.' || verifier[i] == '~';
        assert "-._~"[0] == '-' && "-._~"[1] == '.' && "-._~"[2] == '_' && "-._~"[3] == '~';
      }
    } else if IsVerifier(verifier) {
      forall i | 0 <= i < |verifier|
        ensures InAlphabet(verifier[i]) || verifier[i] == '.' || verifier[i] == '~'
      {
        assert verifier[i] in verifier;
      }
      assert false;
    }
  }

  datatype Material = Material(challenge: string, verifier: string, state: string)

  datatype PkceError = EntropyUnavailable | InvalidVerifier

  /** `fill` is what the random source delivers, unless it fails. */
  method RandomBase64Url(fill: Option<Bytes>) returns (r: Result<string, PkceError>)
    ensures r.Ok? <==> fill.Some?
    ensures r.Ok? ==> r.value == Encode(fill.value)
    ensures r.Err? ==> r.error == EntropyUnavailable
  {
    if fill.None? {
      return Err(EntropyUnavailable);
    }
    var text := Base64UrlNoPad(fill.value);
    return Ok(text);
  }

  predicate Fills(fill: Option<Bytes>, n: nat) { fill.Some? ==> |fill.value| == n }

  /** The source fills the whole buffer or fails. */
  method Generate(verifierFill: Option<Bytes>, stateFill: Option<Bytes>, digest: string -> Bytes)
    returns (r: Result<Material, PkceError>)
    requires Fills(verifierFill, VERIFIER_BYTES) && Fills(stateFill, STATE_BYTES)
    ensures r.Ok? <==> verifierFill.Some? && stateFill.Some?
    ensures r.Err? ==> r.error == EntropyUnavailable
    ensures r.Ok? ==> IsVerifier(r.value.verifier) && |r.value.verifier| == 43 && |r.value.state| == 22
    ensures r.Ok? ==> Decode(r.value.verifier) == verifierFill && Decode(r.value.state) == stateFill
    ensures r.Ok? ==> r.value.challenge == Encode(digest(r.value.verifier))
  {
    hide Encode, Decode;
    var verifier :- RandomBase64Url(verifierFill);
    var state :- RandomBase64Url(stateFill);
    EncodeShape(verifierFill.value);
    EncodeShape(stateFill.value);
    DecodeEncode(verifierFill.value);
    DecodeEncode(stateFill.value);
    var challenge := S256Challenge(verifier, digest);
    ChallengeExactly(verifier, digest);
    if challenge.None? {
      return Err(InvalidVerifier);
    }
    return Ok(Material(challenge.value, verifier, state));
  }
}
