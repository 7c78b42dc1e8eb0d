/** A known digest: that of the three bytes "abc", as the standard's examples give it. */
module Sha256Example {
  import opened Common
  import opened Sha256Padding
  import opened Sha256

  const BLOCK: Bytes := [0x61, 0x62, 0x63, 0x80] + Zeros(59) + [0x18]

  function W(t: nat): Word { Schedule(BLOCK, t) }

  lemma BigEndianIs(a: byte, b: byte, c: byte, d: byte, w: Word)
    requires w as int == ((a as int * 256 + b as int) * 256 + c as int) * 256 + d as int
    ensures BigEndian(a, b, c, d) == w
  {
  }

  lemma WordIs(t: nat, w: Word)
    requires t < 16
    requires w as int == ((BLOCK[4 * t] as int * 256 + BLOCK[4 * t + 1] as int) * 256 + BLOCK[4 * t + 2] as int) * 256 + BLOCK[4 * t + 3] as int
    ensures W(t) == w
  {
    BigEndianIs(BLOCK[4 * t], BLOCK[4 * t + 1], BLOCK[4 * t + 2], BLOCK[4 * t + 3], w);
    hide BigEndian;
  }

  lemma FirstWords()
    ensures W(0) == 0x6162_6380 && W(1) == 0 && W(2) == 0 && W(3) == 0 && W(4) == 0 && W(5) == 0 && W(6) == 0 && W(7) == 0
    ensures W(8) == 0 && W(9) == 0 && W(10) == 0 && W(11) == 0 && W(12) == 0 && W(13) == 0 && W(14) == 0 && W(15) == 0x18
  {
    hide W;
    var first: Word, last: Word := 0x6162_6380, 0x18;
    assert first as int == 0x6162_6380 && last as int == 0x18;
    assert BLOCK[0] == 0x61 && BLOCK[1] == 0x62 && BLOCK[2] == 0x63 && BLOCK[3] == 0x80;
    assert BLOCK[60] == 0 && BLOCK[61] == 0 && BLOCK[62] == 0 && BLOCK[63] == 0x18;
    WordIs(0, first);
    forall t | 1 <= t < 15
      ensures W(t) == 0
    {
      ZeroWord(t);
    }
    WordIs(15, last);
  }

  lemma ZeroWord(t: nat)
    requires 1 <= t < 15
    ensures W(t) == 0
  {
    assert forall i :: 4 <= i < 60 ==> BLOCK[i] == 0;
    hide W;
    WordIs(t, 0);
  }

  lemma Words16()
    ensures W(16) == 0x6162_6380 && W(17) == 0x000f_0000 && W(18) == 0x7da8_6405 && W(19) == 0x6000_03c6
    ensures W(20) == 0x3e9d_7b78 && W(21) == 0x0183_fc00 && W(22) == 0x12dc_bfdb && W(23) == 0xe2e2_c38e
  {
    FirstWords();
  }

  lemma Words24()
    ensures W(24) == 0xc821_5c1a && W(25) == 0xb736_79a2 && W(26) == 0xe5bc_3909 && W(27) == 0x3266_3c5b
    ensures W(28) == 0x9d20_9d67 && W(29) == 0xec87_26cb && W(30) == 0x7021_38a4 && W(31) == 0xd3b7_973b
  {
    FirstWords();
    Words16();
  }

  lemma Words32()
    ensures W(32) == 0x93f5_997f && W(33) == 0x3b68_ba73 && W(34) == 0xaff4_ffc1 && W(35) == 0xf10a_5c62
    ensures W(36) == 0x0a8b_3996 && W(37) == 0x72af_830a && W(38) == 0x9409_e33e && W(39) == 0x2464_1522
  {
    Words16();
    Words24();
  }

  lemma Words40()
    ensures W(40) == 0x9f47_bf94 && W(41) == 0xf0a6_4f5a && W(42) == 0x3e24_6a79 && W(43) == 0x2733_3ba3
    ensures W(44) == 0x0c47_63f2 && W(45) == 0x840a_bf27 && W(46) == 0x7a29_0d5d && W(47) == 0x065c_43da
  {
    Words24();
    Words32();
  }

  lemma Words48()
    ensures W(48) == 0xfb3e_89cb && W(49) == 0xcc76_17db && W(50) == 0xb9e6_6c34 && W(51) == 0xa999_3667
    ensures W(52) == 0x84ba_dedd && W(53) == 0xc214_62bc && W(54) == 0x1487_472c && W(55) == 0xb20f_7a99
  {
    Words32();
    Words40();
  }

  lemma Words56()
    ensures W(56) == 0xef57_b9cd && W(57) == 0xebe6_b238 && W(58) == 0x9fe3_095e && W(59) == 0x78bc_8d4b
    ensures W(60) == 0xa43f_cf15 && W(61) == 0x668b_2ff8 && W(62) == 0xeeab_a2cc && W(63) == 0x12b1_edeb
  {
    Words40();
    Words48();
  }

  // ----- The rounds -----

  function R(t: nat): Vars
    requires t <= 64
  {
    Rounds(Load(INITIAL), BLOCK, t)
  }

  function K(t: nat): Word
    requires t < 64
  {
    ROUND[t]
  }

  lemma NextRound(t: nat)
    requires t < 64
    ensures R(t + 1) == Round(R(t), K(t), W(t))
  {
    hide Schedule, Round;
  }

  lemma Constants0()
    ensures K(0) == 0x428a_2f98 && K(1) == 0x7137_4491 && K(2) == 0xb5c0_fbcf && K(3) == 0xe9b5_dba5
    ensures K(4) == 0x3956_c25b && K(5) == 0x59f1_11f1 && K(6) == 0x923f_82a4 && K(7) == 0xab1c_5ed5
  {
  }

  lemma Constants8()
    ensures K(8) == 0xd807_aa98 && K(9) == 0x1283_5b01 && K(10) == 0x2431_85be && K(11) == 0x550c_7dc3
    ensures K(12) == 0x72be_5d74 && K(13) == 0x80de_b1fe && K(14) == 0x9bdc_06a7 && K(15) == 0xc19b_f174
  {
  }

  lemma Constants16()
    ensures K(16) == 0xe49b_69c1 && K(17) == 0xefbe_4786 && K(18) == 0x0fc1_9dc6 && K(19) == 0x240c_a1cc
    ensures K(20) == 0x2de9_2c6f && K(21) == 0x4a74_84aa && K(22) == 0x5cb0_a9dc && K(23) == 0x76f9_88da
  {
  }

  lemma Constants24()
    ensures K(24) == 0x983e_5152 && K(25) == 0xa831_c66d && K(26) == 0xb003_27c8 && K(27) == 0xbf59_7fc7
    ensures K(28) == 0xc6e0_0bf3 && K(29) == 0xd5a7_9147 && K(30) == 0x06ca_6351 && K(31) == 0x1429_2967
  {
  }

  lemma Constants32()
    ensures K(32) == 0x27b7_0a85 && K(33) == 0x2e1b_2138 && K(34) == 0x4d2c_6dfc && K(35) == 0x5338_0d13
    ensures K(36) == 0x650a_7354 && K(37) == 0x766a_0abb && K(38) == 0x81c2_c92e && K(39) == 0x9272_2c85
  {
  }

  lemma Constants40()
    ensures K(40) == 0xa2bf_e8a1 && K(41) == 0xa81a_664b && K(42) == 0xc24b_8b70 && K(43) == 0xc76c_51a3
    ensures K(44) == 0xd192_e819 && K(45) == 0xd699_0624 && K(46) == 0xf40e_3585 && K(47) == 0x106a_a070
  {
  }

  lemma Constants48()
    ensures K(48) == 0x19a4_c116 && K(49) == 0x1e37_6c08 && K(50) == 0x2748_774c && K(51) == 0x34b0_bcb5
    ensures K(52) == 0x391c_0cb3 && K(53) == 0x4ed8_aa4a && K(54) == 0x5b9c_ca4f && K(55) == 0x682e_6ff3
  {
  }

  lemma Constants56()
    ensures K(56) == 0x748f_82ee && K(57) == 0x78a5_636f && K(58) == 0x84c8_7814 && K(59) == 0x8cc7_0208
    ensures K(60) == 0x90be_fffa && K(61) == 0xa450_6ceb && K(62) == 0xbef9_a3f7 && K(63) == 0xc671_78f2
  {
  }

  lemma Rounds8()
    ensures R(8) == Vars(0x85a0_7b5f, 0xe503_0380, 0x2b42_09f5, 0x0440_9a6a, 0x0c65_7a79, 0x9b27_a401, 0x7142_60ad, 0x43ad_a245)
  {
    assert R(0) == Load(INITIAL);
    FirstWords();
    Constants0();
    hide W, R, K;
    NextRound(0);
    NextRound(1);
    NextRound(2);
    NextRound(3);
    NextRound(4);
    NextRound(5);
    NextRound(6);
    NextRound(7);
  }

  lemma Rounds16()
    ensures R(16) == Vars(0xb0fa_238e, 0xc064_5fde, 0xd932_eb16, 0x8791_2990, 0x0759_0dcd, 0x0b92_f20c, 0x745a_48de, 0x1e57_8218)
  {
    Rounds8();
    FirstWords();
    Constants8();
    hide W, R, K;
    NextRound(8);
    NextRound(9);
    NextRound(10);
    NextRound(11);
    NextRound(12);
    NextRound(13);
    NextRound(14);
    NextRound(15);
  }

  lemma Rounds24()
    ensures R(24) == Vars(0xc5d5_3d8d, 0xa7a3_623f, 0xc260_6d6d, 0x9dc6_8b63, 0xaa47_c347, 0x49f5_114a, 0xe125_7970, 0x8ada_8930)
  {
    Rounds16();
    Words16();
    Constants16();
    hide W, R, K;
    NextRound(16);
    NextRound(17);
    NextRound(18);
    NextRound(19);
    NextRound(20);
    NextRound(21);
    NextRound(22);
    NextRound(23);
  }

  lemma Rounds32()
    ensures R(32) == Vars(0x73b3_3bf5, 0xea99_2a22, 0xa006_0b30, 0x3634_82c9, 0xba59_1112, 0x0109_ab3a, 0xade7_9437, 0x6112_a3b7)
  {
    Rounds24();
    Words24();
    Constants24();
    hide W, R, K;
    NextRound(24);
    NextRound(25);
    NextRound(26);
    NextRound(27);
    NextRound(28);
    NextRound(29);
    NextRound(30);
    NextRound(31);
  }

  lemma Rounds40()
    ensures R(40) == Vars(0x79ea_687a, 0x6dc5_7a8a, 0x34df_1604, 0x41a6_5cb1, 0x1efb_c0a0, 0xf078_1bc8, 0xa507_a53d, 0x0772_a26b)
  {
    Rounds32();
    Words32();
    Constants32();
    hide W, R, K;
    NextRound(32);
    NextRound(33);
    NextRound(34);
    NextRound(35);
    NextRound(36);
    NextRound(37);
    NextRound(38);
    NextRound(39);
  }

  lemma Rounds48()
    ensures R(48) == Vars(0x4172_328d, 0xa14c_14b0, 0x72ab_4b91, 0x2662_8815, 0xfecf_0bc6, 0xd57b_94a9, 0xb775_5da1, 0xa80f_11f0)
  {
    Rounds40();
    Words40();
    Constants40();
    hide W, R, K;
    NextRound(40);
    NextRound(41);
    NextRound(42);
    NextRound(43);
    NextRound(44);
    NextRound(45);
    NextRound(46);
    NextRound(47);
  }

  lemma Rounds56()
    ensures R(56) == Vars(0x38cc_9913, 0x3ec4_5cdb, 0xf570_2fdb, 0x101f_d28f, 0x54cb_266b, 0xe50e_1b4f, 0x9f47_87c3, 0x529e_7d00)
  {
    Rounds48();
    Words48();
    Constants48();
    hide W, R, K;
    NextRound(48);
    NextRound(49);
    NextRound(50);
    NextRound(51);
    NextRound(52);
    NextRound(53);
    NextRound(54);
    NextRound(55);
  }

  lemma Rounds64()
    ensures R(64) == Vars(0x506e_3058, 0xd39a_2165, 0x04d2_4d6c, 0xb85e_2ce9, 0x5ef5_0f24, 0xfb12_1210, 0x948d_25b6, 0x961f_4894)
  {
    Rounds56();
    Words56();
    Constants56();
    hide W, R, K;
    NextRound(56);
    NextRound(57);
    NextRound(58);
    NextRound(59);
    NextRound(60);
    NextRound(61);
    NextRound(62);
    NextRound(63);
  }

  // ----- The digest -----

  lemma Padding()
    ensures Padded(Ascii("abc")) == BLOCK
  {
    var m := Ascii("abc");
    assert m == [0x61, 0x62, 0x63] && ZeroBytes(3) == 52;
    assert LengthField(3) == [0, 0, 0, 0, 0, 0, 0, 0x18];
    assert Zeros(52) + [0, 0, 0, 0, 0, 0, 0, 0x18] == Zeros(59) + [0x18];
    hide LengthField, ZeroBytes;
    assert m + [0x80] + Zeros(52) + [0, 0, 0, 0, 0, 0, 0, 0x18] == m + [0x80] + (Zeros(52) + [0, 0, 0, 0, 0, 0, 0, 0x18]);
    assert m + [0x80] + (Zeros(59) + [0x18]) == [0x61, 0x62, 0x63, 0x80] + Zeros(59) + [0x18];
  }

  const DIGEST: seq<Word> := [0xba78_16bf, 0x8f01_cfea, 0x4141_40de, 0x5dae_2223, 0xb003_61a3, 0x9617_7a9c, 0xb410_ff61, 0xf200_15ad]

  lemma FoldedBlock()
    ensures Fold(INITIAL, BLOCK) == DIGEST
  {
    assert BLOCK[..0] == [] && BLOCK[0..] == BLOCK;
    assert Fold(INITIAL, BLOCK[..0]) == INITIAL;
    assert Fold(INITIAL, BLOCK) == Compress(INITIAL, BLOCK) by {
      hide Compress;
    }
    assert Compress(INITIAL, BLOCK) == Added(INITIAL, R(64)) by {
      hide Rounds;
    }
    hide R, Fold, Compress;
    Rounds64();
  }

  /** The published digest of "abc": ba7816bf 8f01cfea 414140de 5dae2223 b00361a3 96177a9c b410ff61 f20015ad. */
  lemma AbcDigest()
    ensures Fold(INITIAL, Padded(Ascii("abc"))) == DIGEST
  {
    hide Fold, Padded;
    Padding();
    FoldedBlock();
  }
}
