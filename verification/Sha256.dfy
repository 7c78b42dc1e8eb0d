/**
  SHA-256 as the registry computes it, against FIPS 180-4.

  The program hashes whole 64-byte chunks, then builds the one or two last blocks in a
  128-byte buffer.  The reference pads the message (section 5.1.1) and folds the
  compression function (section 6.2.2) over the padded blocks.
 */
module Sha256 {
  import opened Common
  import opened Sha256Padding

  type Word = bv32

  // ----- Compression, section 6.2.2 -----

  const INITIAL: seq<Word> := [
    0x6a09_e667, 0xbb67_ae85, 0x3c6e_f372, 0xa54f_f53a, 0x510e_527f, 0x9b05_688c, 0x1f83_d9ab, 0x5be0_cd19]

  const ROUND: seq<Word> :=
    [0x428a_2f98, 0x7137_4491, 0xb5c0_fbcf, 0xe9b5_dba5, 0x3956_c25b, 0x59f1_11f1, 0x923f_82a4, 0xab1c_5ed5]
    + [0xd807_aa98, 0x1283_5b01, 0x2431_85be, 0x550c_7dc3, 0x72be_5d74, 0x80de_b1fe, 0x9bdc_06a7, 0xc19b_f174]
    + [0xe49b_69c1, 0xefbe_4786, 0x0fc1_9dc6, 0x240c_a1cc, 0x2de9_2c6f, 0x4a74_84aa, 0x5cb0_a9dc, 0x76f9_88da]
    + [0x983e_5152, 0xa831_c66d, 0xb003_27c8, 0xbf59_7fc7, 0xc6e0_0bf3, 0xd5a7_9147, 0x06ca_6351, 0x1429_2967]
    + [0x27b7_0a85, 0x2e1b_2138, 0x4d2c_6dfc, 0x5338_0d13, 0x650a_7354, 0x766a_0abb, 0x81c2_c92e, 0x9272_2c85]
    + [0xa2bf_e8a1, 0xa81a_664b, 0xc24b_8b70, 0xc76c_51a3, 0xd192_e819, 0xd699_0624, 0xf40e_3585, 0x106a_a070]
    + [0x19a4_c116, 0x1e37_6c08, 0x2748_774c, 0x34b0_bcb5, 0x391c_0cb3, 0x4ed8_aa4a, 0x5b9c_ca4f, 0x682e_6ff3]
    + [0x748f_82ee, 0x78a5_636f, 0x84c8_7814, 0x8cc7_0208, 0x90be_fffa, 0xa450_6ceb, 0xbef9_a3f7, 0xc671_78f2]

  /** Addition modulo 2^32. */
  function Plus(x: Word, y: Word): Word { x + y }

  function Sum4(a: Word, b: Word, c: Word, d: Word): Word { a + b + c + d }

  function SmallSigma0(x: Word): Word { x.RotateRight(7) ^ x.RotateRight(18) ^ (x >> 3) }

  function SmallSigma1(x: Word): Word { x.RotateRight(17) ^ x.RotateRight(19) ^ (x >> 10) }

  function BigSigma0(x: Word): Word { x.RotateRight(2) ^ x.RotateRight(13) ^ x.RotateRight(22) }

  function BigSigma1(x: Word): Word { x.RotateRight(6) ^ x.RotateRight(11) ^ x.RotateRight(25) }

  function Choice(x: Word, y: Word, z: Word): Word { (x & y) ^ (!x & z) }

  function Majority(x: Word, y: Word, z: Word): Word { (x & y) ^ (x & z) ^ (y & z) }

  function BigEndian(a: byte, b: byte, c: byte, d: byte): Word {
    (((a as int * 256 + b as int) * 256 + c as int) * 256 + d as int) as bv32
  }

  /** The message schedule as the standard's recurrence. */
  function Schedule(block: Bytes, t: nat): Word
    requires |block| == 64
  {
    if t < 16 then BigEndian(block[4 * t], block[4 * t + 1], block[4 * t + 2], block[4 * t + 3])
    else Sum4(SmallSigma1(Schedule(block, t - 2)), Schedule(block, t - 7),
              SmallSigma0(Schedule(block, t - 15)), Schedule(block, t - 16))
  }

  datatype Vars = Vars(a: Word, b: Word, c: Word, d: Word, e: Word, f: Word, g: Word, h: Word)

  function Round(v: Vars, k: Word, w: Word): Vars {
    var t1 := Plus(Plus(Plus(Plus(v.h, BigSigma1(v.e)), Choice(v.e, v.f, v.g)), k), w);
    var t2 := Plus(BigSigma0(v.a), Majority(v.a, v.b, v.c));
    Vars(Plus(t1, t2), v.a, v.b, v.c, Plus(v.d, t1), v.e, v.f, v.g)
  }

  function Rounds(v: Vars, block: Bytes, t: nat): Vars
    requires |block| == 64 && t <= 64
  {
    if t == 0 then v else Round(Rounds(v, block, t - 1), ROUND[t - 1], Schedule(block, t - 1))
  }

  function Load(s: seq<Word>): Vars
    requires |s| == 8
  {
    Vars(s[0], s[1], s[2], s[3], s[4], s[5], s[6], s[7])
  }

  function Compress(s: seq<Word>, block: Bytes): (r: seq<Word>)
    requires |s| == 8 && |block| == 64
    ensures |r| == 8
  {
    Added(s, Rounds(Load(s), block, 64))
  }

  function Added(s: seq<Word>, v: Vars): (r: seq<Word>)
    requires |s| == 8
    ensures |r| == 8
  {
    [Plus(s[0], v.a), Plus(s[1], v.b), Plus(s[2], v.c), Plus(s[3], v.d),
     Plus(s[4], v.e), Plus(s[5], v.f), Plus(s[6], v.g), Plus(s[7], v.h)]
  }

  /** The compression function folded over whole blocks. */
  function Fold(s: seq<Word>, bytes: Bytes): (r: seq<Word>)
    requires |s| == 8 && |bytes| % 64 == 0
    ensures |r| == 8
  {
    if bytes == [] then s else Compress(Fold(s, bytes[..|bytes| - 64]), bytes[|bytes| - 64..])
  }

  method CompressBlock(state: array<Word>, block: Bytes)
    requires state.Length == 8 && |block| == 64
    modifies state
    ensures state[..] == Compress(old(state[..]), block)
  {
    hide Round, Schedule, Plus;
    var schedule := BuildSchedule(block);
    var v := Load(state[..]);
    ghost var start := v;
    for t := 0 to 64
      invariant v == Rounds(start, block, t)
      invariant state[..] == old(state[..])
      invariant forall i :: 0 <= i < 64 ==> schedule[i] == Schedule(block, i)
    {
      v := Round(v, ROUND[t], schedule[t]);
    }
    hide Rounds;
    AddInto(state, v);
  }

  /** Add the working variables to the state, word by word. */
  method AddInto(state: array<Word>, v: Vars)
    requires state.Length == 8
    modifies state
    ensures state[..] == Added(old(state[..]), v)
  {
    hide Plus;
    state[0], state[1], state[2], state[3], state[4], state[5], state[6], state[7] :=
      Plus(state[0], v.a), Plus(state[1], v.b), Plus(state[2], v.c), Plus(state[3], v.d),
      Plus(state[4], v.e), Plus(state[5], v.f), Plus(state[6], v.g), Plus(state[7], v.h);
  }

  /** The schedule filled in place, each word from the words before it. */
  method BuildSchedule(block: Bytes) returns (schedule: array<Word>)
    requires |block| == 64
    ensures fresh(schedule) && schedule.Length == 64
    ensures forall t :: 0 <= t < 64 ==> schedule[t] == Schedule(block, t)
  {
    hide SmallSigma0, SmallSigma1, BigEndian, Sum4;
    schedule := new Word[64];
    for t := 0 to 16
      invariant forall i :: 0 <= i < t ==> schedule[i] == Schedule(block, i)
    {
      schedule[t] := BigEndian(block[4 * t], block[4 * t + 1], block[4 * t + 2], block[4 * t + 3]);
    }
    for t := 16 to 64
      invariant forall i :: 0 <= i < t ==> schedule[i] == Schedule(block, i)
    {
      var s0 := SmallSigma0(schedule[t - 15]);
      var s1 := SmallSigma1(schedule[t - 2]);
      SumOrder(schedule[t - 16], s0, schedule[t - 7], s1);
      schedule[t] := Sum4(schedule[t - 16], s0, schedule[t - 7], s1);
    }
  }

  /** The program adds the four terms in another order than the standard. */
  lemma SumOrder(a: Word, b: Word, c: Word, d: Word)
    ensures Sum4(a, b, c, d) == Sum4(d, c, b, a)
  {
  }

  // ----- The whole digest -----

  lemma FoldSnoc(s: seq<Word>, bytes: Bytes, block: Bytes)
    requires |s| == 8 && |bytes| % 64 == 0 && |block| == 64
    ensures Fold(s, bytes + block) == Compress(Fold(s, bytes), block)
  {
    hide Compress;
    assert (bytes + block)[..|bytes|] == bytes && (bytes + block)[|bytes|..] == block;
  }

  /** Hash the whole blocks of `bytes` into `state`. */
  method CompressAll(state: array<Word>, bytes: Bytes)
    requires state.Length == 8 && |bytes| % 64 == 0
    modifies state
    ensures state[..] == Fold(old(state[..]), bytes)
  {
    ghost var was := state[..];
    assert Fold(was, bytes[..0]) == was;
    hide Compress, Fold;
    for k := 0 to |bytes| / 64
      invariant state[..] == Fold(was, bytes[..64 * k])
    {
      FoldBlock(was, bytes, k);
      CompressBlock(state, bytes[64 * k..64 * k + 64]);
    }
    assert bytes[..64 * (|bytes| / 64)] == bytes;
  }

  lemma FoldBlock(s: seq<Word>, bytes: Bytes, k: nat)
    requires |s| == 8 && 64 * k + 64 <= |bytes|
    ensures Fold(s, bytes[..64 * (k + 1)]) == Compress(Fold(s, bytes[..64 * k]), bytes[64 * k..64 * k + 64])
  {
    hide Compress, Fold;
    assert bytes[..64 * (k + 1)] == bytes[..64 * k] + bytes[64 * k..64 * k + 64];
    FoldSnoc(s, bytes[..64 * k], bytes[64 * k..64 * k + 64]);
  }

  /** The last one or two blocks: remainder, 0x80, zeros, length. */
  method TailBlocks(rest: Bytes, length: nat) returns (tail: Bytes)
    requires |rest| == length % 64
    ensures tail == rest + [0x80] + Zeros(ZeroBytes(length)) + LengthField(length)
    ensures |tail| == 64 || |tail| == 128
  {
    var end := if |rest| < 56 then 64 else 128;
    assert ZeroBytes(length) == end - 9 - |rest|;
    hide LengthField, ZeroBytes;
    var buffer := new byte[128](_ => 0);
    for i := 0 to |rest|
      invariant buffer[..i] == rest[..i]
      invariant forall k :: i <= k < 128 ==> buffer[k] == 0
    {
      buffer[i] := rest[i];
    }
    buffer[|rest|] := 0x80;
    ghost var head := buffer[..end - 8];
    assert head == rest + [0x80] + Zeros(ZeroBytes(length));
    WriteAt(buffer, end - 8, LengthField(length));
    tail := buffer[..end];
    assert tail == head + LengthField(length);
  }

  /** Copy `field` into the buffer from `start` on. */
  method WriteAt(buffer: array<byte>, start: nat, field: Bytes)
    requires start + |field| <= buffer.Length
    modifies buffer
    ensures buffer[..start] == old(buffer[..start]) && buffer[start..start + |field|] == field
  {
    for i := 0 to |field|
      invariant buffer[..start] == old(buffer[..start])
      invariant buffer[start..start + i] == field[..i]
    {
      buffer[start + i] := field[i];
    }
  }

  lemma {:induction false} FoldConcat(s: seq<Word>, a: Bytes, b: Bytes)
    requires |s| == 8 && |a| % 64 == 0 && |b| % 64 == 0
    ensures Fold(s, a + b) == Fold(Fold(s, a), b)
    decreases |b|
  {
    hide Compress;
    if b == [] {
      assert a + b == a;
    } else {
      var init, last := b[..|b| - 64], b[|b| - 64..];
      FoldConcat(s, a, init);
      FoldSnoc(s, a + init, last);
      FoldSnoc(Fold(s, a), init, last);
      assert a + b == a + init + last && b == init + last;
      hide Fold;
    }
  }

  /** For every message the digest state is the fold over the padded message. */
  method HashState(message: Bytes) returns (state: array<Word>)
    ensures fresh(state) && state[..] == Fold(INITIAL, Padded(message))
  {
    hide Fold, LengthField, ZeroBytes;
    state := new Word[8](i requires 0 <= i < 8 => INITIAL[i]);
    assert state[..] == INITIAL;
    var whole := |message| - |message| % 64;
    var tail := TailBlocks(message[whole..], |message|);
    CompressAll(state, message[..whole]);
    FoldConcat(INITIAL, message[..whole], tail);
    assert Padded(message) == message[..whole] + tail;
    CompressAll(state, tail);
  }

  const HEX := "0123456789abcdef"

  /** Eight lower-case hexadecimal digits. */
  function HexWord(w: Word): (s: string)
    ensures |s| == 8
  {
    var n := w as int;
    [HEX[n / 0x1000_0000 % 16], HEX[n / 0x100_0000 % 16], HEX[n / 0x10_0000 % 16], HEX[n / 0x1_0000 % 16],
     HEX[n / 0x1000 % 16], HEX[n / 0x100 % 16], HEX[n / 0x10 % 16], HEX[n % 16]]
  }

  function Hex(ws: seq<Word>): string {
    if ws == [] then "" else Hex(ws[..|ws| - 1]) + HexWord(ws[|ws| - 1])
  }

  method Sha256Hex(message: Bytes) returns (digest: string)
    ensures digest == Hex(Fold(INITIAL, Padded(message)))
    ensures |digest| == 64
  {
    hide Fold, Padded, HexWord;
    var state := HashState(message);
    digest := "";
    for i := 0 to 8
      invariant digest == Hex(state[..i]) && |digest| == 8 * i
    {
      assert state[..i + 1][..i] == state[..i];
      digest := digest + HexWord(state[i]);
    }
    assert state[..8] == state[..];
  }
}
