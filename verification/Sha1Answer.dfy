/**
 A known answer: the three-byte message "abc", hashed step by step as FIPS 180-4 says, has the
 digest that the standard's examples give for it.
 */
module Sha1Answer {
  import opened Sha1

  const ABC: seq<Byte> := [0x61, 0x62, 0x63]

  /** The one block of the padded message. */
  const BLOCK: seq<Word> := [0x61626380, 0, 0, 0, 0, 0, 0, 0, 0, 0, 0, 0, 0, 0, 0, 0x18]

  /** Word t of the schedule. */
  ghost predicate WordIs(block: seq<Word>, t: nat, w: Word) {
    |block| == 16 && Schedule(block, t) == w
  }

  /** Eight words of the schedule. */
  ghost predicate Words(block: seq<Word>, t: nat, w0: Word, w1: Word, w2: Word, w3: Word,
                        w4: Word, w5: Word, w6: Word, w7: Word)
  {
    && WordIs(block, t, w0) && WordIs(block, t + 1, w1) && WordIs(block, t + 2, w2) && WordIs(block, t + 3, w3)
    && WordIs(block, t + 4, w4) && WordIs(block, t + 5, w5) && WordIs(block, t + 6, w6) && WordIs(block, t + 7, w7)
  }

  /** The working variables after t rounds. */
  ghost predicate StateIs(block: seq<Word>, t: nat, h: Chain) {
    |block| == 16 && Rounds(block, INITIAL, t) == h
  }

  lemma FirstWord(block: seq<Word>, t: nat)
    requires block == BLOCK && t < 16
    ensures WordIs(block, t, if t == 0 then 0x61626380 else if t == 15 then 0x18 else 0)
  {
    WordOfAbc(t);
  }

  lemma NextWord(block: seq<Word>, t: nat, w3: Word, w8: Word, w14: Word, w16: Word)
    requires t >= 16 && WordIs(block, t - 3, w3) && WordIs(block, t - 8, w8)
    requires WordIs(block, t - 14, w14) && WordIs(block, t - 16, w16)
    ensures WordIs(block, t, Mix(w3, w8, w14, w16))
  {
    hide Mix;
  }

  lemma NextRound(block: seq<Word>, t: nat, h: Chain, w: Word)
    requires StateIs(block, t, h) && WordIs(block, t, w)
    ensures StateIs(block, t + 1, Round(t, h, w))
  {
    hide Round, Schedule;
  }

  lemma Words0(block: seq<Word>)
    requires block == BLOCK
    ensures Words(block, 0, 0x61626380, 0x00000000, 0x00000000, 0x00000000,
                       0x00000000, 0x00000000, 0x00000000, 0x00000000)
    ensures Words(block, 8, 0x00000000, 0x00000000, 0x00000000, 0x00000000,
                       0x00000000, 0x00000000, 0x00000000, 0x00000018)
  {
    hide WordIs;
    FirstWord(block, 0);
    FirstWord(block, 1);
    FirstWord(block, 2);
    FirstWord(block, 3);
    FirstWord(block, 4);
    FirstWord(block, 5);
    FirstWord(block, 6);
    FirstWord(block, 7);
    FirstWord(block, 8);
    FirstWord(block, 9);
    FirstWord(block, 10);
    FirstWord(block, 11);
    FirstWord(block, 12);
    FirstWord(block, 13);
    FirstWord(block, 14);
    FirstWord(block, 15);
  }

  lemma Words1(block: seq<Word>)
    requires block == BLOCK
    ensures Words(block, 16, 0xc2c4c700, 0x00000000, 0x00000030, 0x85898e01,
                       0x00000000, 0x00000060, 0x0b131c03, 0x00000030)
  {
    hide WordIs;
    Words0(block);
    NextWord(block, 16, 0x00000000, 0x00000000, 0x00000000, 0x61626380);
    NextWord(block, 17, 0x00000000, 0x00000000, 0x00000000, 0x00000000);
    NextWord(block, 18, 0x00000018, 0x00000000, 0x00000000, 0x00000000);
    NextWord(block, 19, 0xc2c4c700, 0x00000000, 0x00000000, 0x00000000);
    NextWord(block, 20, 0x00000000, 0x00000000, 0x00000000, 0x00000000);
    NextWord(block, 21, 0x00000030, 0x00000000, 0x00000000, 0x00000000);
    NextWord(block, 22, 0x85898e01, 0x00000000, 0x00000000, 0x00000000);
    NextWord(block, 23, 0x00000000, 0x00000018, 0x00000000, 0x00000000);
  }

  lemma Words2(block: seq<Word>)
    requires block == BLOCK
    ensures Words(block, 24, 0x85898ec1, 0x16263806, 0x00000000, 0x00000180,
                       0x2c4c700c, 0x000000f0, 0x93afb507, 0x5898e048)
  {
    hide WordIs;
    Words0(block);
    Words1(block);
    NextWord(block, 24, 0x00000060, 0xc2c4c700, 0x00000000, 0x00000000);
    NextWord(block, 25, 0x0b131c03, 0x00000000, 0x00000000, 0x00000000);
    NextWord(block, 26, 0x00000030, 0x00000030, 0x00000000, 0x00000000);
    NextWord(block, 27, 0x85898ec1, 0x85898e01, 0x00000000, 0x00000000);
    NextWord(block, 28, 0x16263806, 0x00000000, 0x00000000, 0x00000000);
    NextWord(block, 29, 0x00000000, 0x00000060, 0x00000018, 0x00000000);
    NextWord(block, 30, 0x00000180, 0x0b131c03, 0xc2c4c700, 0x00000000);
    NextWord(block, 31, 0x2c4c700c, 0x00000030, 0x00000000, 0x00000018);
  }

  lemma Words3(block: seq<Word>)
    requires block == BLOCK
    ensures Words(block, 32, 0x8e9a9202, 0x00000600, 0xb131c0f0, 0x16263bc6,
                       0x4ebed41e, 0x626380a1, 0x16263806, 0x000018c0)
  {
    hide WordIs;
    Words1(block);
    Words2(block);
    NextWord(block, 32, 0x000000f0, 0x85898ec1, 0x00000030, 0xc2c4c700);
    NextWord(block, 33, 0x93afb507, 0x16263806, 0x85898e01, 0x00000000);
    NextWord(block, 34, 0x5898e048, 0x00000000, 0x00000000, 0x00000030);
    NextWord(block, 35, 0x8e9a9202, 0x00000180, 0x00000060, 0x85898e01);
    NextWord(block, 36, 0x00000600, 0x2c4c700c, 0x0b131c03, 0x00000000);
    NextWord(block, 37, 0xb131c0f0, 0x000000f0, 0x00000030, 0x00000060);
    NextWord(block, 38, 0x16263bc6, 0x93afb507, 0x85898ec1, 0x0b131c03);
    NextWord(block, 39, 0x4ebed41e, 0x5898e048, 0x16263806, 0x00000030);
  }

  lemma Words4(block: seq<Word>)
    requires block == BLOCK
    ensures Words(block, 40, 0xd2e138c4, 0x00000f00, 0x3afb5079, 0x898e04e5,
                       0xe2ba3c2b, 0x000060c0, 0x053a37cd, 0x74458547)
  {
    hide WordIs;
    Words2(block);
    Words3(block);
    NextWord(block, 40, 0x626380a1, 0x8e9a9202, 0x00000000, 0x85898ec1);
    NextWord(block, 41, 0x16263806, 0x00000600, 0x00000180, 0x16263806);
    NextWord(block, 42, 0x000018c0, 0xb131c0f0, 0x2c4c700c, 0x00000000);
    NextWord(block, 43, 0xd2e138c4, 0x16263bc6, 0x000000f0, 0x00000180);
    NextWord(block, 44, 0x00000f00, 0x4ebed41e, 0x93afb507, 0x2c4c700c);
    NextWord(block, 45, 0x3afb5079, 0x626380a1, 0x5898e048, 0x000000f0);
    NextWord(block, 46, 0x898e04e5, 0x16263806, 0x8e9a9202, 0x93afb507);
    NextWord(block, 47, 0xe2ba3c2b, 0x000018c0, 0x00000600, 0x5898e048);
  }

  lemma Words5(block: seq<Word>)
    requires block == BLOCK
    ensures Words(block, 48, 0xda9415ed, 0x26380a16, 0x626383a1, 0x4ebf54de,
                       0x3835b44b, 0x0000f600, 0x1e84c7a3, 0x98e04d98)
  {
    hide WordIs;
    Words3(block);
    Words4(block);
    NextWord(block, 48, 0x000060c0, 0xd2e138c4, 0xb131c0f0, 0x8e9a9202);
    NextWord(block, 49, 0x053a37cd, 0x00000f00, 0x16263bc6, 0x00000600);
    NextWord(block, 50, 0x74458547, 0x3afb5079, 0x4ebed41e, 0xb131c0f0);
    NextWord(block, 51, 0xda9415ed, 0x898e04e5, 0x626380a1, 0x16263bc6);
    NextWord(block, 52, 0x26380a16, 0xe2ba3c2b, 0x16263806, 0x4ebed41e);
    NextWord(block, 53, 0x626383a1, 0x000060c0, 0x000018c0, 0x626380a1);
    NextWord(block, 54, 0x4ebf54de, 0x053a37cd, 0xd2e138c4, 0x16263806);
    NextWord(block, 55, 0x3835b44b, 0x74458547, 0x00000f00, 0x000018c0);
  }

  lemma Words6(block: seq<Word>)
    requires block == BLOCK
    ensures Words(block, 56, 0x651d16a0, 0x62658ca1, 0x458544d6, 0x44584cb7,
                       0x7ba06619, 0x6380aea2, 0x0ae55269, 0x627b49a1)
  {
    hide WordIs;
    Words4(block);
    Words5(block);
    NextWord(block, 56, 0x0000f600, 0xda9415ed, 0x3afb5079, 0xd2e138c4);
    NextWord(block, 57, 0x1e84c7a3, 0x26380a16, 0x898e04e5, 0x00000f00);
    NextWord(block, 58, 0x98e04d98, 0x626383a1, 0xe2ba3c2b, 0x3afb5079);
    NextWord(block, 59, 0x651d16a0, 0x4ebf54de, 0x000060c0, 0x898e04e5);
    NextWord(block, 60, 0x62658ca1, 0x3835b44b, 0x053a37cd, 0xe2ba3c2b);
    NextWord(block, 61, 0x458544d6, 0x0000f600, 0x74458547, 0x000060c0);
    NextWord(block, 62, 0x44584cb7, 0x1e84c7a3, 0xda9415ed, 0x053a37cd);
    NextWord(block, 63, 0x7ba06619, 0x98e04d98, 0x26380a16, 0x74458547);
  }

  lemma Words7(block: seq<Word>)
    requires block == BLOCK
    ensures Words(block, 64, 0x7cd45c9d, 0x000f0000, 0xfb50753a, 0xec6765e8,
                       0xba3c2be2, 0x0060c000, 0x3a37cd05, 0x458546f4)
  {
    hide WordIs;
    Words5(block);
    Words6(block);
    NextWord(block, 64, 0x6380aea2, 0x651d16a0, 0x626383a1, 0xda9415ed);
    NextWord(block, 65, 0x0ae55269, 0x62658ca1, 0x4ebf54de, 0x26380a16);
    NextWord(block, 66, 0x627b49a1, 0x458544d6, 0x3835b44b, 0x626383a1);
    NextWord(block, 67, 0x7cd45c9d, 0x44584cb7, 0x0000f600, 0x4ebf54de);
    NextWord(block, 68, 0x000f0000, 0x7ba06619, 0x1e84c7a3, 0x3835b44b);
    NextWord(block, 69, 0xfb50753a, 0x6380aea2, 0x98e04d98, 0x0000f600);
    NextWord(block, 70, 0xec6765e8, 0x0ae55269, 0x651d16a0, 0x1e84c7a3);
    NextWord(block, 71, 0xba3c2be2, 0x627b49a1, 0x62658ca1, 0x98e04d98);
  }

  lemma Words8(block: seq<Word>)
    requires block == BLOCK
    ensures Words(block, 72, 0xb8599dd6, 0x380a1a26, 0x01e02203, 0xe7cc3456,
                       0xe6e60b69, 0x00f60a00, 0x5795ef4f, 0x822e0879)
  {
    hide WordIs;
    Words6(block);
    Words7(block);
    NextWord(block, 72, 0x0060c000, 0x7cd45c9d, 0x458544d6, 0x651d16a0);
    NextWord(block, 73, 0x3a37cd05, 0x000f0000, 0x44584cb7, 0x62658ca1);
    NextWord(block, 74, 0x458546f4, 0xfb50753a, 0x7ba06619, 0x458544d6);
    NextWord(block, 75, 0xb8599dd6, 0xec6765e8, 0x6380aea2, 0x44584cb7);
    NextWord(block, 76, 0x380a1a26, 0xba3c2be2, 0x0ae55269, 0x7ba06619);
    NextWord(block, 77, 0x01e02203, 0x0060c000, 0x627b49a1, 0x6380aea2);
    NextWord(block, 78, 0xe7cc3456, 0x3a37cd05, 0x7cd45c9d, 0x0ae55269);
    NextWord(block, 79, 0xe6e60b69, 0x458546f4, 0x000f0000, 0x627b49a1);
  }

  lemma Rounds1(block: seq<Word>)
    requires block == BLOCK
    ensures StateIs(block, 8, Chain(0x9e8c07d4, 0x993e30c1, 0x0ff1f290, 0xb3f52677, 0xf3763846))
  {
    hide WordIs, StateIs;
    NoRounds(block);
    Words0(block);
    NextRound(block, 0, Chain(0x67452301, 0xefcdab89, 0x98badcfe, 0x10325476, 0xc3d2e1f0),
              0x61626380);
    NextRound(block, 1, Chain(0x0116fc33, 0x67452301, 0x7bf36ae2, 0x98badcfe, 0x10325476),
              0x00000000);
    NextRound(block, 2, Chain(0x8990536d, 0x0116fc33, 0x59d148c0, 0x7bf36ae2, 0x98badcfe),
              0x00000000);
    NextRound(block, 3, Chain(0xa1390f08, 0x8990536d, 0xc045bf0c, 0x59d148c0, 0x7bf36ae2),
              0x00000000);
    NextRound(block, 4, Chain(0xcdd8e11b, 0xa1390f08, 0x626414db, 0xc045bf0c, 0x59d148c0),
              0x00000000);
    NextRound(block, 5, Chain(0xcfd499de, 0xcdd8e11b, 0x284e43c2, 0x626414db, 0xc045bf0c),
              0x00000000);
    NextRound(block, 6, Chain(0x3fc7ca40, 0xcfd499de, 0xf3763846, 0x284e43c2, 0x626414db),
              0x00000000);
    NextRound(block, 7, Chain(0x993e30c1, 0x3fc7ca40, 0xb3f52677, 0xf3763846, 0x284e43c2),
              0x00000000);
  }

  lemma Rounds2(block: seq<Word>)
    requires block == BLOCK
    ensures StateIs(block, 16, Chain(0x20bdd62f, 0x196bee77, 0x644a3da5, 0x1181ed99, 0x18c623f9))
  {
    hide WordIs, StateIs;
    Rounds1(block);
    Words0(block);
    NextRound(block, 8, Chain(0x9e8c07d4, 0x993e30c1, 0x0ff1f290, 0xb3f52677, 0xf3763846),
              0x00000000);
    NextRound(block, 9, Chain(0x4b6ae328, 0x9e8c07d4, 0x664f8c30, 0x0ff1f290, 0xb3f52677),
              0x00000000);
    NextRound(block, 10, Chain(0x8351f929, 0x4b6ae328, 0x27a301f5, 0x664f8c30, 0x0ff1f290),
              0x00000000);
    NextRound(block, 11, Chain(0xfbda9e89, 0x8351f929, 0x12dab8ca, 0x27a301f5, 0x664f8c30),
              0x00000000);
    NextRound(block, 12, Chain(0x63188fe4, 0xfbda9e89, 0x60d47e4a, 0x12dab8ca, 0x27a301f5),
              0x00000000);
    NextRound(block, 13, Chain(0x4607b664, 0x63188fe4, 0x7ef6a7a2, 0x60d47e4a, 0x12dab8ca),
              0x00000000);
    NextRound(block, 14, Chain(0x9128f695, 0x4607b664, 0x18c623f9, 0x7ef6a7a2, 0x60d47e4a),
              0x00000000);
    NextRound(block, 15, Chain(0x196bee77, 0x9128f695, 0x1181ed99, 0x18c623f9, 0x7ef6a7a2),
              0x00000018);
  }

  lemma Rounds3(block: seq<Word>)
    requires block == BLOCK
    ensures StateIs(block, 24, Chain(0xd541f12d, 0x21283486, 0x0ce88eff, 0x868dec32, 0x7f67875f))
  {
    hide WordIs, StateIs;
    Rounds2(block);
    Words1(block);
    NextRound(block, 16, Chain(0x20bdd62f, 0x196bee77, 0x644a3da5, 0x1181ed99, 0x18c623f9),
              0xc2c4c700);
    NextRound(block, 17, Chain(0x4e925823, 0x20bdd62f, 0xc65afb9d, 0x644a3da5, 0x1181ed99),
              0x00000000);
    NextRound(block, 18, Chain(0x82aa6728, 0x4e925823, 0xc82f758b, 0xc65afb9d, 0x644a3da5),
              0x00000030);
    NextRound(block, 19, Chain(0xdc64901d, 0x82aa6728, 0xd3a49608, 0xc82f758b, 0xc65afb9d),
              0x85898e01);
    NextRound(block, 20, Chain(0xfd9e1d7d, 0xdc64901d, 0x20aa99ca, 0xd3a49608, 0xc82f758b),
              0x00000000);
    NextRound(block, 21, Chain(0x1a37b0ca, 0xfd9e1d7d, 0x77192407, 0x20aa99ca, 0xd3a49608),
              0x00000060);
    NextRound(block, 22, Chain(0x33a23bfc, 0x1a37b0ca, 0x7f67875f, 0x77192407, 0x20aa99ca),
              0x0b131c03);
    NextRound(block, 23, Chain(0x21283486, 0x33a23bfc, 0x868dec32, 0x7f67875f, 0x77192407),
              0x00000030);
  }

  lemma Rounds4(block: seq<Word>)
    requires block == BLOCK
    ensures StateIs(block, 32, Chain(0x3b845d33, 0x1267b407, 0x717eebd7, 0xa0dc2d4b, 0xd2aa1365))
  {
    hide WordIs, StateIs;
    Rounds3(block);
    Words2(block);
    NextRound(block, 24, Chain(0xd541f12d, 0x21283486, 0x0ce88eff, 0x868dec32, 0x7f67875f),
              0x85898ec1);
    NextRound(block, 25, Chain(0xc7567dc6, 0xd541f12d, 0x884a0d21, 0x0ce88eff, 0x868dec32),
              0x16263806);
    NextRound(block, 26, Chain(0x48413ba4, 0xc7567dc6, 0x75507c4b, 0x884a0d21, 0x0ce88eff),
              0x00000000);
    NextRound(block, 27, Chain(0xbe35fbd5, 0x48413ba4, 0xb1d59f71, 0x75507c4b, 0x884a0d21),
              0x00000180);
    NextRound(block, 28, Chain(0x4aa84d97, 0xbe35fbd5, 0x12104ee9, 0xb1d59f71, 0x75507c4b),
              0x2c4c700c);
    NextRound(block, 29, Chain(0x8370b52e, 0x4aa84d97, 0x6f8d7ef5, 0x12104ee9, 0xb1d59f71),
              0x000000f0);
    NextRound(block, 30, Chain(0xc5fbaf5d, 0x8370b52e, 0xd2aa1365, 0x6f8d7ef5, 0x12104ee9),
              0x93afb507);
    NextRound(block, 31, Chain(0x1267b407, 0xc5fbaf5d, 0xa0dc2d4b, 0xd2aa1365, 0x6f8d7ef5),
              0x5898e048);
  }

  lemma Rounds5(block: seq<Word>)
    requires block == BLOCK
    ensures StateIs(block, 40, Chain(0x32de1cba, 0x4c986405, 0xf718e5cf, 0x03d447f6, 0xf72eec32))
  {
    hide WordIs, StateIs;
    Rounds4(block);
    Words3(block);
    NextRound(block, 32, Chain(0x3b845d33, 0x1267b407, 0x717eebd7, 0xa0dc2d4b, 0xd2aa1365),
              0x8e9a9202);
    NextRound(block, 33, Chain(0x046faa0a, 0x3b845d33, 0xc499ed01, 0x717eebd7, 0xa0dc2d4b),
              0x00000600);
    NextRound(block, 34, Chain(0x2c0ebc11, 0x046faa0a, 0xcee1174c, 0xc499ed01, 0x717eebd7),
              0xb131c0f0);
    NextRound(block, 35, Chain(0x21796ad4, 0x2c0ebc11, 0x811bea82, 0xcee1174c, 0xc499ed01),
              0x16263bc6);
    NextRound(block, 36, Chain(0xdcbbb0cb, 0x21796ad4, 0x4b03af04, 0x811bea82, 0xcee1174c),
              0x4ebed41e);
    NextRound(block, 37, Chain(0x0f511fd8, 0xdcbbb0cb, 0x085e5ab5, 0x4b03af04, 0x811bea82),
              0x626380a1);
    NextRound(block, 38, Chain(0xdc63973f, 0x0f511fd8, 0xf72eec32, 0x085e5ab5, 0x4b03af04),
              0x16263806);
    NextRound(block, 39, Chain(0x4c986405, 0xdc63973f, 0x03d447f6, 0xf72eec32, 0x085e5ab5),
              0x000018c0);
  }

  lemma Rounds6(block: seq<Word>)
    requires block == BLOCK
    ensures StateIs(block, 48, Chain(0xbead02ca, 0xa01b846c, 0x8714787c, 0x503ca382, 0xfb86c6ab))
  {
    hide WordIs, StateIs;
    Rounds5(block);
    Words4(block);
    NextRound(block, 40, Chain(0x32de1cba, 0x4c986405, 0xf718e5cf, 0x03d447f6, 0xf72eec32),
              0xd2e138c4);
    NextRound(block, 41, Chain(0xfc87dedf, 0x32de1cba, 0x53261901, 0xf718e5cf, 0x03d447f6),
              0x00000f00);
    NextRound(block, 42, Chain(0x970a0d5c, 0xfc87dedf, 0x8cb7872e, 0x53261901, 0xf718e5cf),
              0x3afb5079);
    NextRound(block, 43, Chain(0x7f193dc5, 0x970a0d5c, 0xff21f7b7, 0x8cb7872e, 0x53261901),
              0x898e04e5);
    NextRound(block, 44, Chain(0xee1b1aaf, 0x7f193dc5, 0x25c28357, 0xff21f7b7, 0x8cb7872e),
              0xe2ba3c2b);
    NextRound(block, 45, Chain(0x40f28e09, 0xee1b1aaf, 0x5fc64f71, 0x25c28357, 0xff21f7b7),
              0x000060c0);
    NextRound(block, 46, Chain(0x1c51e1f2, 0x40f28e09, 0xfb86c6ab, 0x5fc64f71, 0x25c28357),
              0x053a37cd);
    NextRound(block, 47, Chain(0xa01b846c, 0x1c51e1f2, 0x503ca382, 0xfb86c6ab, 0x5fc64f71),
              0x74458547);
  }

  lemma Rounds7(block: seq<Word>)
    requires block == BLOCK
    ensures StateIs(block, 56, Chain(0x5e6456af, 0x7b71f76d, 0x09fa7c76, 0x792410db, 0x8e11eb59))
  {
    hide WordIs, StateIs;
    Rounds6(block);
    Words5(block);
    NextRound(block, 48, Chain(0xbead02ca, 0xa01b846c, 0x8714787c, 0x503ca382, 0xfb86c6ab),
              0xda9415ed);
    NextRound(block, 49, Chain(0xbaf39337, 0xbead02ca, 0x2806e11b, 0x8714787c, 0x503ca382),
              0x26380a16);
    NextRound(block, 50, Chain(0x120731c5, 0xbaf39337, 0xafab40b2, 0x2806e11b, 0x8714787c),
              0x626383a1);
    NextRound(block, 51, Chain(0x641db2ce, 0x120731c5, 0xeebce4cd, 0xafab40b2, 0x2806e11b),
              0x4ebf54de);
    NextRound(block, 52, Chain(0x3847ad66, 0x641db2ce, 0x4481cc71, 0xeebce4cd, 0xafab40b2),
              0x3835b44b);
    NextRound(block, 53, Chain(0xe490436d, 0x3847ad66, 0x99076cb3, 0x4481cc71, 0xeebce4cd),
              0x0000f600);
    NextRound(block, 54, Chain(0x27e9f1d8, 0xe490436d, 0x8e11eb59, 0x99076cb3, 0x4481cc71),
              0x1e84c7a3);
    NextRound(block, 55, Chain(0x7b71f76d, 0x27e9f1d8, 0x792410db, 0x8e11eb59, 0x99076cb3),
              0x98e04d98);
  }

  lemma Rounds8(block: seq<Word>)
    requires block == BLOCK
    ensures StateIs(block, 64, Chain(0x6b61c9e1, 0xb66c020b, 0x9523272c, 0xf5d5b051, 0x8fd4b796))
  {
    hide WordIs, StateIs;
    Rounds7(block);
    Words6(block);
    NextRound(block, 56, Chain(0x5e6456af, 0x7b71f76d, 0x09fa7c76, 0x792410db, 0x8e11eb59),
              0x651d16a0);
    NextRound(block, 57, Chain(0xc846093f, 0x5e6456af, 0x5edc7ddb, 0x09fa7c76, 0x792410db),
              0x62658ca1);
    NextRound(block, 58, Chain(0xd262ff50, 0xc846093f, 0xd79915ab, 0x5edc7ddb, 0x09fa7c76),
              0x458544d6);
    NextRound(block, 59, Chain(0x09d785fd, 0xd262ff50, 0xf211824f, 0xd79915ab, 0x5edc7ddb),
              0x44584cb7);
    NextRound(block, 60, Chain(0x3f52de5a, 0x09d785fd, 0x3498bfd4, 0xf211824f, 0xd79915ab),
              0x7ba06619);
    NextRound(block, 61, Chain(0xd756c147, 0x3f52de5a, 0x4275e17f, 0x3498bfd4, 0xf211824f),
              0x6380aea2);
    NextRound(block, 62, Chain(0x548c9cb2, 0xd756c147, 0x8fd4b796, 0x4275e17f, 0x3498bfd4),
              0x0ae55269);
    NextRound(block, 63, Chain(0xb66c020b, 0x548c9cb2, 0xf5d5b051, 0x8fd4b796, 0x4275e17f),
              0x627b49a1);
  }

  lemma Rounds9(block: seq<Word>)
    requires block == BLOCK
    ensures StateIs(block, 72, Chain(0x39859de7, 0xc199f8c7, 0x8fc96230, 0x125c24f0, 0xde37534a))
  {
    hide WordIs, StateIs;
    Rounds8(block);
    Words7(block);
    NextRound(block, 64, Chain(0x6b61c9e1, 0xb66c020b, 0x9523272c, 0xf5d5b051, 0x8fd4b796),
              0x7cd45c9d);
    NextRound(block, 65, Chain(0x19dfa7ac, 0x6b61c9e1, 0xed9b0082, 0x9523272c, 0xf5d5b051),
              0x000f0000);
    NextRound(block, 66, Chain(0x101655f9, 0x19dfa7ac, 0x5ad87278, 0xed9b0082, 0x9523272c),
              0xfb50753a);
    NextRound(block, 67, Chain(0x0c3df2b4, 0x101655f9, 0x0677e9eb, 0x5ad87278, 0xed9b0082),
              0xec6765e8);
    NextRound(block, 68, Chain(0x78dd4d2b, 0x0c3df2b4, 0x4405957e, 0x0677e9eb, 0x5ad87278),
              0xba3c2be2);
    NextRound(block, 69, Chain(0x497093c0, 0x78dd4d2b, 0x030f7cad, 0x4405957e, 0x0677e9eb),
              0x0060c000);
    NextRound(block, 70, Chain(0x3f2588c2, 0x497093c0, 0xde37534a, 0x030f7cad, 0x4405957e),
              0x3a37cd05);
    NextRound(block, 71, Chain(0xc199f8c7, 0x3f2588c2, 0x125c24f0, 0xde37534a, 0x030f7cad),
              0x458546f4);
  }

  lemma Rounds10(block: seq<Word>)
    requires block == BLOCK
    ensures StateIs(block, 80, Chain(0x42541b35, 0x5738d5e1, 0x21834873, 0x681e6df6, 0xd8fdf6ad))
  {
    hide WordIs, StateIs;
    Rounds9(block);
    Words8(block);
    NextRound(block, 72, Chain(0x39859de7, 0xc199f8c7, 0x8fc96230, 0x125c24f0, 0xde37534a),
              0xb8599dd6);
    NextRound(block, 73, Chain(0xedb42de4, 0x39859de7, 0xf0667e31, 0x8fc96230, 0x125c24f0),
              0x380a1a26);
    NextRound(block, 74, Chain(0x11793f6f, 0xedb42de4, 0xce616779, 0xf0667e31, 0x8fc96230),
              0x01e02203);
    NextRound(block, 75, Chain(0x5ee76897, 0x11793f6f, 0x3b6d0b79, 0xce616779, 0xf0667e31),
              0xe7cc3456);
    NextRound(block, 76, Chain(0x63f7dab7, 0x5ee76897, 0xc45e4fdb, 0x3b6d0b79, 0xce616779),
              0xe6e60b69);
    NextRound(block, 77, Chain(0xa079b7d9, 0x63f7dab7, 0xd7b9da25, 0xc45e4fdb, 0x3b6d0b79),
              0x00f60a00);
    NextRound(block, 78, Chain(0x860d21cc, 0xa079b7d9, 0xd8fdf6ad, 0xd7b9da25, 0xc45e4fdb),
              0x5795ef4f);
    NextRound(block, 79, Chain(0x5738d5e1, 0x860d21cc, 0x681e6df6, 0xd8fdf6ad, 0xd7b9da25),
              0x822e0879);
  }

  lemma NoRounds(block: seq<Word>)
    requires block == BLOCK
    ensures StateIs(block, 0, Chain(0x67452301, 0xefcdab89, 0x98badcfe, 0x10325476, 0xc3d2e1f0))
  {
  }

  /** The one block compressed. */
  lemma Compressed(block: seq<Word>)
    requires block == BLOCK
    ensures Compress(INITIAL, block) == Chain(0xa9993e36, 0x4706816a, 0xba3e2571, 0x7850c26c, 0x9cd0d89d)
  {
    hide Rounds, Schedule;
    Rounds10(block);
  }

  // ---------- The message in blocks ----------

  /** The padded message. */
  const BYTES: seq<Byte> := [0x61, 0x62, 0x63, 0x80] + Zeros(59) + [0x18]

  lemma PaddedAbc()
    ensures ABC + Padding(3) == BYTES
  {
    hide LengthBytes;
    assert ZeroCount(3) == 52;
    LengthOfAbc();
    assert Zeros(52) + [0, 0, 0, 0, 0, 0, 0] == Zeros(59);
  }

  lemma LengthOfAbc()
    ensures LengthBytes(3) == [0, 0, 0, 0, 0, 0, 0, 0x18]
  {
    hide LengthBytes;
    var digits: seq<nat> := [0, 0, 0, 0, 0, 0, 0, 24];
    EightDigits(digits);
    LengthIsBigEndian(3, digits);
    assert LowByte(0) == 0 && LowByte(24) == 0x18;
  }

  lemma EightDigits(digits: seq<nat>)
    requires digits == [0, 0, 0, 0, 0, 0, 0, 24]
    ensures BigEndian(digits) == 24
  {
    NoDigits(digits, 7);
    assert digits[..8] == digits && digits[..8][..7] == digits[..7];
  }

  lemma {:induction false} NoDigits(digits: seq<nat>, k: nat)
    requires |digits| == 8 && k < 8 && forall i :: 0 <= i < 7 ==> digits[i] == 0
    ensures BigEndian(digits[..k]) == 0
  {
    if k > 0 {
      NoDigits(digits, k - 1);
      assert digits[..k][..k - 1] == digits[..k - 1];
    }
  }

  lemma BlockOfAbc(bytes: seq<Byte>)
    requires bytes == BYTES
    ensures BlockWords(bytes) == BLOCK
  {
    hide WordOf;
    WordsOfAbc();
    var words := BlockWords(bytes);
    forall i: nat | i < 16 ensures words[i] == BLOCK[i] {
      assert words[i] == WordOf(bytes[4 * i], bytes[4 * i + 1], bytes[4 * i + 2], bytes[4 * i + 3]);
      ByteOfAbc(4 * i);
      ByteOfAbc(4 * i + 1);
      ByteOfAbc(4 * i + 2);
      ByteOfAbc(4 * i + 3);
      WordOfAbc(i);
    }
  }

  lemma ByteOfAbc(k: nat)
    requires k < 64
    ensures BYTES[k] == if k == 0 then 0x61 else if k == 1 then 0x62 else if k == 2 then 0x63
                        else if k == 3 then 0x80 else if k == 63 then 0x18 else 0
  {
  }

  lemma WordOfAbc(i: nat)
    requires i < 16
    ensures BLOCK[i] == if i == 0 then 0x61626380 else if i == 15 then 0x18 else 0
  {
  }

  lemma WordsOfAbc()
    ensures WordOf(0x61, 0x62, 0x63, 0x80) == 0x61626380 && WordOf(0, 0, 0, 0) == 0 && WordOf(0, 0, 0, 0x18) == 0x18
  {
  }

  lemma OneBlock(bytes: seq<Byte>)
    requires |bytes| == 64
    ensures HashBlocks(INITIAL, bytes) == Compress(INITIAL, BlockWords(bytes))
  {
    hide Compress, BlockWords;
    var none := bytes[..|bytes| - 64];
    assert none == [] && bytes[|bytes| - 64..] == bytes;
    assert HashBlocks(INITIAL, none) == INITIAL;
  }

  /** The first example of the standard: the digest of "abc". */
  lemma KnownAnswer()
    ensures Hash(ABC) == [0xa9, 0x99, 0x3e, 0x36, 0x47, 0x06, 0x81, 0x6a, 0xba, 0x3e,
                          0x25, 0x71, 0x78, 0x50, 0xc2, 0x6c, 0x9c, 0xd0, 0xd8, 0x9d]
  {
    hide Compress, BlockWords, HashBlocks, Padding;
    PaddedAbc();
    BlockOfAbc(BYTES);
    OneBlock(BYTES);
    Compressed(BlockWords(BYTES));
  }
}
