/** What the functions of section 4.1.2 of FIPS 180-4 select, and that the printed digest spells its words. */
module Sha256Standard {
  import opened Common
  import opened Sha256

  /** The choice is `y` where `x` has ones, and `z` where it has zeros. */
  lemma ChoiceSelects(x: Word, y: Word, z: Word)
    ensures x & Choice(x, y, z) == x & y && !x & Choice(x, y, z) == !x & z
  {
  }

  /** The majority is what two words agree on, and the third word where they differ. */
  lemma MajorityAgrees(x: Word, y: Word, z: Word)
    ensures !(x ^ y) & Majority(x, y, z) == !(x ^ y) & x && (x ^ y) & Majority(x, y, z) == (x ^ y) & z
  {
  }

  /** The number that lower-case hexadecimal digits spell. */
  function HexValue(s: string): int {
    if s == "" then 0 else 16 * HexValue(s[..|s| - 1]) + IndexOf("0123456789abcdef", s[|s| - 1])
  }

  lemma DigitIndex(d: int)
    requires 0 <= d < 16
    ensures IndexOf("0123456789abcdef", HEX[d]) == d
  {
    var h := "0123456789abcdef";
    assert h[0] == '0' && h[1] == '1' && h[2] == '2' && h[3] == '3' && h[4] == '4' && h[5] == '5' && h[6] == '6' && h[7] == '7';
    assert h[8] == '8' && h[9] == '9' && h[10] == 'a' && h[11] == 'b' && h[12] == 'c' && h[13] == 'd' && h[14] == 'e' && h[15] == 'f';
    assert forall i, j :: 0 <= i < j < 16 ==> h[i] != h[j];
    hide IndexOf;
  }

  lemma HexMore(s: string, d: int)
    requires 0 <= d < 16
    ensures HexValue(s + [HEX[d]]) == 16 * HexValue(s) + d
  {
    DigitIndex(d);
    assert (s + [HEX[d]])[..|s|] == s;
  }

  lemma {:induction false} HexPrefix(n: nat, k: nat)
    requires k <= 8 && n < 0x1_0000_0000
    ensures HexValue(HexText(n, k)) == n / Power16(8 - k)
    decreases k
  {
    if k > 0 {
      HexPrefix(n, k - 1);
      HexMore(HexText(n, k - 1), n / Power16(8 - k) % 16);
      PowerStep(n, k);
    }
  }

  function Power16(k: nat): (p: nat)
    requires k <= 8
    ensures p > 0
  {
    [1, 0x10, 0x100, 0x1000, 0x1_0000, 0x10_0000, 0x100_0000, 0x1000_0000, 0x1_0000_0000][k]
  }

  /** The first `k` digits of a word. */
  function HexText(n: nat, k: nat): string
    requires k <= 8
  {
    if k == 0 then "" else HexText(n, k - 1) + [HEX[n / Power16(8 - k) % 16]]
  }

  lemma PowerStep(n: nat, k: nat)
    requires 1 <= k <= 8
    ensures n / Power16(8 - k) == 16 * (n / Power16(9 - k)) + n / Power16(8 - k) % 16
  {
  }

  lemma EightChars(a: char, b: char, c: char, d: char, e: char, f: char, g: char, h: char)
    ensures [a] + [b] + [c] + [d] + [e] + [f] + [g] + [h] == [a, b, c, d, e, f, g, h]
  {
  }

  lemma TextStep(n: nat, k: nat, p: nat, c: char)
    requires 1 <= k <= 8 && p == Power16(8 - k) && c == HEX[n / p % 16]
    ensures HexText(n, k) == HexText(n, k - 1) + [c]
    ensures k == 1 ==> HexText(n, k) == [c]
  {
    assert "" + [c] == [c];
  }

  lemma HexTextIs(n: nat, a: char, b: char, c: char, d: char, e: char, f: char, g: char, h: char)
    requires a == HEX[n / 0x1000_0000 % 16] && b == HEX[n / 0x100_0000 % 16] && c == HEX[n / 0x10_0000 % 16]
    requires d == HEX[n / 0x1_0000 % 16] && e == HEX[n / 0x1000 % 16] && f == HEX[n / 0x100 % 16]
    requires g == HEX[n / 0x10 % 16] && h == HEX[n % 16]
    ensures HexText(n, 8) == [a, b, c, d, e, f, g, h]
  {
    hide HexText;
    TextStep(n, 1, 0x1000_0000, a);
    TextStep(n, 2, 0x100_0000, b);
    TextStep(n, 3, 0x10_0000, c);
    TextStep(n, 4, 0x1_0000, d);
    TextStep(n, 5, 0x1000, e);
    TextStep(n, 6, 0x100, f);
    TextStep(n, 7, 0x10, g);
    TextStep(n, 8, 1, h);
    EightChars(a, b, c, d, e, f, g, h);
  }

  lemma HexWordIs(w: Word)
    ensures HexText(w as int, 8) == HexWord(w)
  {
    hide HexText;
    var t := HexWord(w);
    HexTextIs(w as int, t[0], t[1], t[2], t[3], t[4], t[5], t[6], t[7]);
    hide HexWord;
    assert t == [t[0], t[1], t[2], t[3], t[4], t[5], t[6], t[7]];
  }

  /** The eight digits of a word spell its value. */
  lemma HexSpells(w: Word)
    ensures HexValue(HexWord(w)) == w as int
  {
    hide HexWord, HexValue, HexText;
    HexWordIs(w);
    HexPrefix(w as int, 8);
    assert Power16(0) == 1;
  }

  /** The digest has the digits of all words, in order. */
  lemma {:induction false} HexOfWords(ws: seq<Word>, i: nat)
    requires i < |ws|
    ensures |Hex(ws)| == 8 * |ws| && Hex(ws)[8 * i..8 * i + 8] == HexWord(ws[i])
    decreases |ws|
  {
    hide HexWord;
    var init := ws[..|ws| - 1];
    HexLength(init);
    if i < |init| {
      HexOfWords(init, i);
      assert Hex(ws)[8 * i..8 * i + 8] == Hex(init)[8 * i..8 * i + 8];
    }
  }

  lemma {:induction false} HexLength(ws: seq<Word>)
    ensures |Hex(ws)| == 8 * |ws|
    decreases |ws|
  {
    if ws != [] {
      HexLength(ws[..|ws| - 1]);
    }
  }
}
