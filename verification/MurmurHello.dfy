/** The hash of "hello", worked out number by number. It exercises one block and a tail byte. */
module MurmurHello {
  import opened Words
  import opened WordNumbers
  import opened MurmurNumbers
  import opened BlockHash
  import opened Murmur32

  lemma WholeXor(a: nat, b: nat, c: nat, n: nat)
    requires |ZERO| == n + 32 && XorDigits(a, b, n + 8 + 8 + 8 + 8) == c
    ensures XorNumber(a, b) == c
  {
  }

  // The five exclusive ors, eight binary digits at a time from the top.

  lemma TailXor1(n: nat)
    requires XorDigits(0, 0, n) == 0
    ensures XorDigits(0xef, 0x73, n + 8) == 0x9c
  {
    assert XorDigits(0x1, 0x0, n + 1) == 0x1;
    assert XorDigits(0x3, 0x1, n + 2) == 0x2;
    assert XorDigits(0x7, 0x3, n + 3) == 0x4;
    assert XorDigits(0xe, 0x7, n + 4) == 0x9;
    assert XorDigits(0x1d, 0xe, n + 5) == 0x13;
    assert XorDigits(0x3b, 0x1c, n + 6) == 0x27;
    assert XorDigits(0x77, 0x39, n + 7) == 0x4e;
  }

  lemma TailXor2(n: nat)
    requires XorDigits(0xef, 0x73, n) == 0x9c
    ensures XorDigits(0xef13, 0x73bc, n + 8) == 0x9caf
  {
    assert XorDigits(0x1de, 0xe7, n + 1) == 0x139;
    assert XorDigits(0x3bc, 0x1ce, n + 2) == 0x272;
    assert XorDigits(0x778, 0x39d, n + 3) == 0x4e5;
    assert XorDigits(0xef1, 0x73b, n + 4) == 0x9ca;
    assert XorDigits(0x1de2, 0xe77, n + 5) == 0x1395;
    assert XorDigits(0x3bc4, 0x1cef, n + 6) == 0x272b;
    assert XorDigits(0x7789, 0x39de, n + 7) == 0x4e57;
  }

  lemma TailXor3(n: nat)
    requires XorDigits(0xef13, 0x73bc, n) == 0x9caf
    ensures XorDigits(0xef13ef, 0x73bcd0, n + 8) == 0x9caf3f
  {
    assert XorDigits(0x1de27, 0xe779, n + 1) == 0x1395e;
    assert XorDigits(0x3bc4f, 0x1cef3, n + 2) == 0x272bc;
    assert XorDigits(0x7789f, 0x39de6, n + 3) == 0x4e579;
    assert XorDigits(0xef13e, 0x73bcd, n + 4) == 0x9caf3;
    assert XorDigits(0x1de27d, 0xe779a, n + 5) == 0x1395e7;
    assert XorDigits(0x3bc4fb, 0x1cef34, n + 6) == 0x272bcf;
    assert XorDigits(0x7789f7, 0x39de68, n + 7) == 0x4e579f;
  }

  lemma TailXor4(n: nat)
    requires XorDigits(0xef13ef, 0x73bcd0, n) == 0x9caf3f
    ensures XorDigits(0xef13efcd, 0x73bcd07e, n + 8) == 0x9caf3fb3
  {
    assert XorDigits(0x1de27df, 0xe779a0, n + 1) == 0x1395e7f;
    assert XorDigits(0x3bc4fbf, 0x1cef341, n + 2) == 0x272bcfe;
    assert XorDigits(0x7789f7e, 0x39de683, n + 3) == 0x4e579fd;
    assert XorDigits(0xef13efc, 0x73bcd07, n + 4) == 0x9caf3fb;
    assert XorDigits(0x1de27df9, 0xe779a0f, n + 5) == 0x1395e7f6;
    assert XorDigits(0x3bc4fbf3, 0x1cef341f, n + 6) == 0x272bcfec;
    assert XorDigits(0x7789f7e6, 0x39de683f, n + 7) == 0x4e579fd9;
  }

  lemma TailXor()
    ensures XorNumber(0xef13efcd, 0x73bcd07e) == 0x9caf3fb3
  {
    var n: nat := |ZERO| - 32;
    TailXor1(n);
    TailXor2(n + 8);
    TailXor3(n + 8 + 8);
    TailXor4(n + 8 + 8 + 8);
    WholeXor(0xef13efcd, 0x73bcd07e, 0x9caf3fb3, n);
  }

  lemma LengthXor1(n: nat)
    requires XorDigits(0, 0, n) == 0
    ensures XorDigits(0x9c, 0x0, n + 8) == 0x9c
  {
    assert XorDigits(0x1, 0x0, n + 1) == 0x1;
    assert XorDigits(0x2, 0x0, n + 2) == 0x2;
    assert XorDigits(0x4, 0x0, n + 3) == 0x4;
    assert XorDigits(0x9, 0x0, n + 4) == 0x9;
    assert XorDigits(0x13, 0x0, n + 5) == 0x13;
    assert XorDigits(0x27, 0x0, n + 6) == 0x27;
    assert XorDigits(0x4e, 0x0, n + 7) == 0x4e;
  }

  lemma LengthXor2(n: nat)
    requires XorDigits(0x9c, 0x0, n) == 0x9c
    ensures XorDigits(0x9caf, 0x0, n + 8) == 0x9caf
  {
    assert XorDigits(0x139, 0x0, n + 1) == 0x139;
    assert XorDigits(0x272, 0x0, n + 2) == 0x272;
    assert XorDigits(0x4e5, 0x0, n + 3) == 0x4e5;
    assert XorDigits(0x9ca, 0x0, n + 4) == 0x9ca;
    assert XorDigits(0x1395, 0x0, n + 5) == 0x1395;
    assert XorDigits(0x272b, 0x0, n + 6) == 0x272b;
    assert XorDigits(0x4e57, 0x0, n + 7) == 0x4e57;
  }

  lemma LengthXor3(n: nat)
    requires XorDigits(0x9caf, 0x0, n) == 0x9caf
    ensures XorDigits(0x9caf3f, 0x0, n + 8) == 0x9caf3f
  {
    assert XorDigits(0x1395e, 0x0, n + 1) == 0x1395e;
    assert XorDigits(0x272bc, 0x0, n + 2) == 0x272bc;
    assert XorDigits(0x4e579, 0x0, n + 3) == 0x4e579;
    assert XorDigits(0x9caf3, 0x0, n + 4) == 0x9caf3;
    assert XorDigits(0x1395e7, 0x0, n + 5) == 0x1395e7;
    assert XorDigits(0x272bcf, 0x0, n + 6) == 0x272bcf;
    assert XorDigits(0x4e579f, 0x0, n + 7) == 0x4e579f;
  }

  lemma LengthXor4(n: nat)
    requires XorDigits(0x9caf3f, 0x0, n) == 0x9caf3f
    ensures XorDigits(0x9caf3fb3, 0x5, n + 8) == 0x9caf3fb6
  {
    assert XorDigits(0x1395e7f, 0x0, n + 1) == 0x1395e7f;
    assert XorDigits(0x272bcfe, 0x0, n + 2) == 0x272bcfe;
    assert XorDigits(0x4e579fd, 0x0, n + 3) == 0x4e579fd;
    assert XorDigits(0x9caf3fb, 0x0, n + 4) == 0x9caf3fb;
    assert XorDigits(0x1395e7f6, 0x0, n + 5) == 0x1395e7f6;
    assert XorDigits(0x272bcfec, 0x1, n + 6) == 0x272bcfed;
    assert XorDigits(0x4e579fd9, 0x2, n + 7) == 0x4e579fdb;
  }

  lemma LengthXor()
    ensures XorNumber(0x9caf3fb3, 0x5) == 0x9caf3fb6
  {
    var n: nat := |ZERO| - 32;
    LengthXor1(n);
    LengthXor2(n + 8);
    LengthXor3(n + 8 + 8);
    LengthXor4(n + 8 + 8 + 8);
    WholeXor(0x9caf3fb3, 0x5, 0x9caf3fb6, n);
  }

  lemma FirstFold1(n: nat)
    requires XorDigits(0, 0, n) == 0
    ensures XorDigits(0x9c, 0x0, n + 8) == 0x9c
  {
    assert XorDigits(0x1, 0x0, n + 1) == 0x1;
    assert XorDigits(0x2, 0x0, n + 2) == 0x2;
    assert XorDigits(0x4, 0x0, n + 3) == 0x4;
    assert XorDigits(0x9, 0x0, n + 4) == 0x9;
    assert XorDigits(0x13, 0x0, n + 5) == 0x13;
    assert XorDigits(0x27, 0x0, n + 6) == 0x27;
    assert XorDigits(0x4e, 0x0, n + 7) == 0x4e;
  }

  lemma FirstFold2(n: nat)
    requires XorDigits(0x9c, 0x0, n) == 0x9c
    ensures XorDigits(0x9caf, 0x0, n + 8) == 0x9caf
  {
    assert XorDigits(0x139, 0x0, n + 1) == 0x139;
    assert XorDigits(0x272, 0x0, n + 2) == 0x272;
    assert XorDigits(0x4e5, 0x0, n + 3) == 0x4e5;
    assert XorDigits(0x9ca, 0x0, n + 4) == 0x9ca;
    assert XorDigits(0x1395, 0x0, n + 5) == 0x1395;
    assert XorDigits(0x272b, 0x0, n + 6) == 0x272b;
    assert XorDigits(0x4e57, 0x0, n + 7) == 0x4e57;
  }

  lemma FirstFold3(n: nat)
    requires XorDigits(0x9caf, 0x0, n) == 0x9caf
    ensures XorDigits(0x9caf3f, 0x9c, n + 8) == 0x9cafa3
  {
    assert XorDigits(0x1395e, 0x1, n + 1) == 0x1395f;
    assert XorDigits(0x272bc, 0x2, n + 2) == 0x272be;
    assert XorDigits(0x4e579, 0x4, n + 3) == 0x4e57d;
    assert XorDigits(0x9caf3, 0x9, n + 4) == 0x9cafa;
    assert XorDigits(0x1395e7, 0x13, n + 5) == 0x1395f4;
    assert XorDigits(0x272bcf, 0x27, n + 6) == 0x272be8;
    assert XorDigits(0x4e579f, 0x4e, n + 7) == 0x4e57d1;
  }

  lemma FirstFold4(n: nat)
    requires XorDigits(0x9caf3f, 0x9c, n) == 0x9cafa3
    ensures XorDigits(0x9caf3fb6, 0x9caf, n + 8) == 0x9cafa319
  {
    assert XorDigits(0x1395e7f, 0x139, n + 1) == 0x1395f46;
    assert XorDigits(0x272bcfe, 0x272, n + 2) == 0x272be8c;
    assert XorDigits(0x4e579fd, 0x4e5, n + 3) == 0x4e57d18;
    assert XorDigits(0x9caf3fb, 0x9ca, n + 4) == 0x9cafa31;
    assert XorDigits(0x1395e7f6, 0x1395, n + 5) == 0x1395f463;
    assert XorDigits(0x272bcfed, 0x272b, n + 6) == 0x272be8c6;
    assert XorDigits(0x4e579fdb, 0x4e57, n + 7) == 0x4e57d18c;
  }

  lemma FirstFold()
    ensures XorNumber(0x9caf3fb6, 0x9caf) == 0x9cafa319
  {
    var n: nat := |ZERO| - 32;
    FirstFold1(n);
    FirstFold2(n + 8);
    FirstFold3(n + 8 + 8);
    FirstFold4(n + 8 + 8 + 8);
    WholeXor(0x9caf3fb6, 0x9caf, 0x9cafa319, n);
  }

  lemma SecondFold1(n: nat)
    requires XorDigits(0, 0, n) == 0
    ensures XorDigits(0xc9, 0x0, n + 8) == 0xc9
  {
    assert XorDigits(0x1, 0x0, n + 1) == 0x1;
    assert XorDigits(0x3, 0x0, n + 2) == 0x3;
    assert XorDigits(0x6, 0x0, n + 3) == 0x6;
    assert XorDigits(0xc, 0x0, n + 4) == 0xc;
    assert XorDigits(0x19, 0x0, n + 5) == 0x19;
    assert XorDigits(0x32, 0x0, n + 6) == 0x32;
    assert XorDigits(0x64, 0x0, n + 7) == 0x64;
  }

  lemma SecondFold2(n: nat)
    requires XorDigits(0xc9, 0x0, n) == 0xc9
    ensures XorDigits(0xc90d, 0x6, n + 8) == 0xc90b
  {
    assert XorDigits(0x192, 0x0, n + 1) == 0x192;
    assert XorDigits(0x324, 0x0, n + 2) == 0x324;
    assert XorDigits(0x648, 0x0, n + 3) == 0x648;
    assert XorDigits(0xc90, 0x0, n + 4) == 0xc90;
    assert XorDigits(0x1921, 0x0, n + 5) == 0x1921;
    assert XorDigits(0x3243, 0x1, n + 6) == 0x3242;
    assert XorDigits(0x6486, 0x3, n + 7) == 0x6485;
  }

  lemma SecondFold3(n: nat)
    requires XorDigits(0xc90d, 0x6, n) == 0xc90b
    ensures XorDigits(0xc90de5, 0x648, n + 8) == 0xc90bad
  {
    assert XorDigits(0x1921b, 0xc, n + 1) == 0x19217;
    assert XorDigits(0x32437, 0x19, n + 2) == 0x3242e;
    assert XorDigits(0x6486f, 0x32, n + 3) == 0x6485d;
    assert XorDigits(0xc90de, 0x64, n + 4) == 0xc90ba;
    assert XorDigits(0x1921bc, 0xc9, n + 5) == 0x192175;
    assert XorDigits(0x324379, 0x192, n + 6) == 0x3242eb;
    assert XorDigits(0x6486f2, 0x324, n + 7) == 0x6485d6;
  }

  lemma SecondFold4(n: nat)
    requires XorDigits(0xc90de5, 0x648, n) == 0xc90bad
    ensures XorDigits(0xc90de573, 0x6486f, n + 8) == 0xc90bad1c
  {
    assert XorDigits(0x1921bca, 0xc90, n + 1) == 0x192175a;
    assert XorDigits(0x3243795, 0x1921, n + 2) == 0x3242eb4;
    assert XorDigits(0x6486f2b, 0x3243, n + 3) == 0x6485d68;
    assert XorDigits(0xc90de57, 0x6486, n + 4) == 0xc90bad1;
    assert XorDigits(0x1921bcae, 0xc90d, n + 5) == 0x192175a3;
    assert XorDigits(0x3243795c, 0x1921b, n + 6) == 0x3242eb47;
    assert XorDigits(0x6486f2b9, 0x32437, n + 7) == 0x6485d68e;
  }

  lemma SecondFold()
    ensures XorNumber(0xc90de573, 0x6486f) == 0xc90bad1c
  {
    var n: nat := |ZERO| - 32;
    SecondFold1(n);
    SecondFold2(n + 8);
    SecondFold3(n + 8 + 8);
    SecondFold4(n + 8 + 8 + 8);
    WholeXor(0xc90de573, 0x6486f, 0xc90bad1c, n);
  }

  lemma LastFold1(n: nat)
    requires XorDigits(0, 0, n) == 0
    ensures XorDigits(0x24, 0x0, n + 8) == 0x24
  {
    assert XorDigits(0x0, 0x0, n + 1) == 0x0;
    assert XorDigits(0x0, 0x0, n + 2) == 0x0;
    assert XorDigits(0x1, 0x0, n + 3) == 0x1;
    assert XorDigits(0x2, 0x0, n + 4) == 0x2;
    assert XorDigits(0x4, 0x0, n + 5) == 0x4;
    assert XorDigits(0x9, 0x0, n + 6) == 0x9;
    assert XorDigits(0x12, 0x0, n + 7) == 0x12;
  }

  lemma LastFold2(n: nat)
    requires XorDigits(0x24, 0x0, n) == 0x24
    ensures XorDigits(0x248b, 0x0, n + 8) == 0x248b
  {
    assert XorDigits(0x49, 0x0, n + 1) == 0x49;
    assert XorDigits(0x92, 0x0, n + 2) == 0x92;
    assert XorDigits(0x124, 0x0, n + 3) == 0x124;
    assert XorDigits(0x248, 0x0, n + 4) == 0x248;
    assert XorDigits(0x491, 0x0, n + 5) == 0x491;
    assert XorDigits(0x922, 0x0, n + 6) == 0x922;
    assert XorDigits(0x1245, 0x0, n + 7) == 0x1245;
  }

  lemma LastFold3(n: nat)
    requires XorDigits(0x248b, 0x0, n) == 0x248b
    ensures XorDigits(0x248bde, 0x24, n + 8) == 0x248bfa
  {
    assert XorDigits(0x4917, 0x0, n + 1) == 0x4917;
    assert XorDigits(0x922f, 0x0, n + 2) == 0x922f;
    assert XorDigits(0x1245e, 0x1, n + 3) == 0x1245f;
    assert XorDigits(0x248bd, 0x2, n + 4) == 0x248bf;
    assert XorDigits(0x4917b, 0x4, n + 5) == 0x4917f;
    assert XorDigits(0x922f7, 0x9, n + 6) == 0x922fe;
    assert XorDigits(0x1245ef, 0x12, n + 7) == 0x1245fd;
  }

  lemma LastFold4(n: nat)
    requires XorDigits(0x248bde, 0x24, n) == 0x248bfa
    ensures XorDigits(0x248bdecc, 0x248b, n + 8) == 0x248bfa47
  {
    assert XorDigits(0x4917bd, 0x49, n + 1) == 0x4917f4;
    assert XorDigits(0x922f7b, 0x92, n + 2) == 0x922fe9;
    assert XorDigits(0x1245ef6, 0x124, n + 3) == 0x1245fd2;
    assert XorDigits(0x248bdec, 0x248, n + 4) == 0x248bfa4;
    assert XorDigits(0x4917bd9, 0x491, n + 5) == 0x4917f48;
    assert XorDigits(0x922f7b3, 0x922, n + 6) == 0x922fe91;
    assert XorDigits(0x1245ef66, 0x1245, n + 7) == 0x1245fd23;
  }

  lemma LastFold()
    ensures XorNumber(0x248bdecc, 0x248b) == 0x248bfa47
  {
    var n: nat := |ZERO| - 32;
    LastFold1(n);
    LastFold2(n + 8);
    LastFold3(n + 8 + 8);
    LastFold4(n + 8 + 8 + 8);
    WholeXor(0x248bdecc, 0x248b, 0x248bfa47, n);
  }

  // The products and turns.

  lemma ScrambleSteps(k: nat, a: nat, b: nat, c: nat)
    requires Times(k, 0xcc9e_2d51) == a && Rotated15(a) == b && Times(b, 0x1b87_3593) == c
    ensures Scrambled(k) == c
  {
  }

  lemma BlockProducts()
    ensures Times(0x6c6c_6568, 0xcc9e_2d51) == 0xd24f_5de8 && Times(0xaef4_6927, 0x1b87_3593) == 0xa0ae_7465
  {
  }

  lemma TailProducts()
    ensures Times(0x6f, 0xcc9e_2d51) == 0xb895_a61f && Times(0xd30f_dc4a, 0x1b87_3593) == 0x73bcd07e
  {
  }

  lemma TurnBy15(low: nat, high: nat)
    requires low < 0x2_0000 && high < 0x8000
    ensures Rotated15(low + 0x2_0000 * high) == 0x8000 * low + high
  {
    Turned15(low, high);
  }

  lemma HelloTurns()
    ensures Rotated15(0xd24f_5de8) == 0xaef4_6927 && Rotated15(0xb895_a61f) == 0xd30f_dc4a
  {
    TurnBy15(0x1_5de8, 0x6927);
    TurnBy15(0x1_a61f, 0x5c4a);
  }

  lemma BlockScrambled()
    ensures Scrambled(0x6c6c_6568) == 0xa0ae_7465
  {
    BlockProducts();
    HelloTurns();
    ScrambleSteps(0x6c6c_6568, 0xd24f_5de8, 0xaef4_6927, 0xa0ae_7465);
  }

  lemma TailScrambled()
    ensures Scrambled(0x6f) == 0x73bcd07e
  {
    TailProducts();
    HelloTurns();
    ScrambleSteps(0x6f, 0xb895_a61f, 0xd30f_dc4a, 0x73bcd07e);
  }

  lemma BlockStirred()
    ensures Stirred(0xa0ae_7465) == 0xef13efcd
  {
    Turned13(0x67465, 0x1415);
    assert Rotated13(0xa0ae_7465) == 0xce8c_b415;
  }

  lemma FirstFolded()
    ensures Folded16(0x9caf3fb6) == 0x9cafa319
  {
    FirstFold();
    assert 0x9caf3fb6 / 0x1_0000 == 0x9caf;
  }

  lemma SecondFolded()
    ensures Folded13(0xc90de573) == 0xc90bad1c
  {
    SecondFold();
    assert 0xc90de573 / 0x2000 == 0x6486f;
  }

  lemma LastFolded()
    ensures Folded16(0x248bdecc) == 0x248bfa47
  {
    LastFold();
    assert 0x248bdecc / 0x1_0000 == 0x248b;
  }

  lemma HelloProducts()
    ensures Times(0x9cafa319, 0x85eb_ca6b) == 0xc90de573
    ensures Times(0xc90bad1c, 0xc2b2_ae35) == 0x248bdecc
  {
  }

  lemma AvalancheSteps(h: nat, a: nat, b: nat, c: nat, d: nat, e: nat)
    requires Folded16(h) == a && Times(a, 0x85eb_ca6b) == b && Folded13(b) == c && Times(c, 0xc2b2_ae35) == d && Folded16(d) == e
    ensures Avalanched(h) == e
  {
  }

  lemma HelloAvalanched()
    ensures Avalanched(0x9caf3fb6) == 0x248b_fa47
  {
    FirstFolded();
    SecondFolded();
    LastFolded();
    HelloProducts();
    AvalancheSteps(0x9caf3fb6, 0x9cafa319, 0xc90de573, 0xc90bad1c, 0x248bdecc, 0x248b_fa47);
  }

  lemma ZeroXor(x: nat)
    requires x < M32
    ensures XorNumber(0, x) == x
  {
    NumberRoundTrip(x);
    ZerosAreZero(|ZERO|);
    XorIsNumber(ZERO, OfNat(x));
    XorCancel(OfNat(x), ZERO);
    assert Xor(ZERO, OfNat(x)) == OfNat(x);
  }

  lemma FourBytes(a: nat, b: nat, c: nat, d: nat)
    ensures LittleEndian([a, b, c, d]) == a + 256 * (b + 256 * (c + 256 * d))
  {
    assert [a, b, c, d][1..] == [b, c, d] && [b, c, d][1..] == [c, d] && [c, d][1..] == [d] && [d][1..] == [];
    assert LittleEndian([d]) == d;
    assert LittleEndian([c, d]) == c + 256 * d;
  }

  /** Five bytes are one block and a byte, whatever the stages: `k` and `t` scrambled, `h1` stirred. */
  lemma FiveBytes(scramble: Stage, stir: Stage, avalanche: Stage, h: nat, bytes: seq<nat>, block: nat, k: nat, x: nat,
                  h1: nat, tail: nat, t: nat, y: nat, z: nat, r: nat)
    requires |bytes| == 5 && LittleEndian(bytes[..4]) == block && LittleEndian(bytes[4..]) == tail
    requires scramble(block) == k && XorNumber(h, k) == x && stir(x) == h1
    requires scramble(tail) == t && XorNumber(h1, t) == y && XorNumber(y, 5) == z && avalanche(z) == r
    ensures HashedBy(scramble, stir, avalanche, h, bytes, |bytes|) == r
  {
    assert HashedBy(scramble, stir, avalanche, h, bytes, |bytes|)
        == HashedBy(scramble, stir, avalanche, h1, bytes[4..], |bytes|);
  }

  lemma HelloBytes(bytes: seq<nat>)
    requires bytes == [0x68, 0x65, 0x6c, 0x6c, 0x6f]
    ensures LittleEndian(bytes[..4]) == 0x6c6c_6568 && LittleEndian(bytes[4..]) == 0x6f
  {
    assert bytes[..4] == [0x68, 0x65, 0x6c, 0x6c] && bytes[4..] == [0x6f];
    FourBytes(0x68, 0x65, 0x6c, 0x6c);
    OneByte(0x6f);
  }

  /** The published hash of "hello" with seed zero. */
  lemma HelloHashed(bytes: seq<nat>)
    requires bytes == [0x68, 0x65, 0x6c, 0x6c, 0x6f]
    ensures Hashed(0, bytes) == 0x248b_fa47
  {
    HelloBytes(bytes);
    BlockScrambled();
    ZeroXor(0xa0ae_7465);
    BlockStirred();
    TailScrambled();
    TailXor();
    LengthXor();
    HelloAvalanched();
    FiveBytes(Scrambled, Stirred, Avalanched, 0, bytes, 0x6c6c_6568, 0xa0ae_7465, 0xa0ae_7465, 0xef13efcd,
              0x6f, 0x73bcd07e, 0x9caf3fb3, 0x9caf3fb6, 0x248b_fa47);
  }

  lemma OneByte(a: nat)
    ensures LittleEndian([a]) == a
  {
    assert [a][1..] == [];
  }

  /** And so of `matrixraft_murmur32`: any five bytes with those numbers hash to it. */
  lemma HelloValue(data: seq<Byte>)
    requires Numbers(data) == [0x68, 0x65, 0x6c, 0x6c, 0x6f]
    ensures ToNat(OneShotMurmur(data)) == 0x248b_fa47
  {
    ZerosAreZero(|ZERO|);
    MurmurIsPublished(data, ZERO);
    HelloHashed(Numbers(data));
  }
}
