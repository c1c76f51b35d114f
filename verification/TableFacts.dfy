/** Every entry of both twiddle tables, checked number by number.

    The entries at powers of two are written out by `Q1Powers` and `Q2Powers`.  Every other entry
    is at `n + m` with `n` a power of two and `0 < m < n`; it has to be centred and to be the
    Montgomery product of entries `n` and `m`, where `c` is entry `n`.  Sixteen to a lemma. */
module TableFacts {
  import opened Words
  import opened Tables

  ghost predicate StepQ1(n: nat, c: int, m: nat)
    requires n + m < 256
  {
    && -3840 <= ZetasQ1(n + m) <= 3840
    && (ZetasQ1(n + m) * 0x1_0000 - c * ZetasQ1(m)) % 7681 == 0
  }

  ghost predicate StepQ2(n: nat, c: int, m: nat)
    requires n + m < 256
  {
    && -5376 <= ZetasQ2(n + m) <= 5376
    && (ZetasQ2(n + m) * 0x1_0000 - c * ZetasQ2(m)) % 10753 == 0
  }

  lemma Q1Powers()
    ensures ZetasQ1(0) == -3593 && ZetasQ1(1) == 3777 && ZetasQ1(2) == -3182
    ensures ZetasQ1(4) == -3696 && ZetasQ1(8) == 121 && ZetasQ1(16) == 2816
    ensures ZetasQ1(32) == -3689 && ZetasQ1(64) == -1054 && ZetasQ1(128) == -17
  {
  }

  lemma Q1First()
    ensures forall m :: 0 < m < 2 ==> StepQ1(2, -3182, m)
    ensures forall m :: 0 < m < 4 ==> StepQ1(4, -3696, m)
    ensures forall m :: 0 < m < 8 ==> StepQ1(8, 121, m)
  {
    assert StepQ1(2, -3182, 1);
    assert StepQ1(4, -3696, 1); assert StepQ1(4, -3696, 2); assert StepQ1(4, -3696, 3);
    assert StepQ1(8, 121, 1); assert StepQ1(8, 121, 2); assert StepQ1(8, 121, 3); assert StepQ1(8, 121, 4);
    assert StepQ1(8, 121, 5); assert StepQ1(8, 121, 6); assert StepQ1(8, 121, 7);
    hide *;
  }

  lemma Q1_16_0()
    ensures forall m :: 0 < m < 16 ==> StepQ1(16, 2816, m)
  {
    assert StepQ1(16, 2816, 1); assert StepQ1(16, 2816, 2); assert StepQ1(16, 2816, 3); assert StepQ1(16, 2816, 4);
    assert StepQ1(16, 2816, 5); assert StepQ1(16, 2816, 6); assert StepQ1(16, 2816, 7); assert StepQ1(16, 2816, 8);
    assert StepQ1(16, 2816, 9); assert StepQ1(16, 2816, 10); assert StepQ1(16, 2816, 11); assert StepQ1(16, 2816, 12);
    assert StepQ1(16, 2816, 13); assert StepQ1(16, 2816, 14); assert StepQ1(16, 2816, 15);
    hide *;
  }

  lemma Q1_32_0()
    ensures forall m :: 0 < m < 16 ==> StepQ1(32, -3689, m)
  {
    assert StepQ1(32, -3689, 1); assert StepQ1(32, -3689, 2); assert StepQ1(32, -3689, 3); assert StepQ1(32, -3689, 4);
    assert StepQ1(32, -3689, 5); assert StepQ1(32, -3689, 6); assert StepQ1(32, -3689, 7); assert StepQ1(32, -3689, 8);
    assert StepQ1(32, -3689, 9); assert StepQ1(32, -3689, 10); assert StepQ1(32, -3689, 11); assert StepQ1(32, -3689, 12);
    assert StepQ1(32, -3689, 13); assert StepQ1(32, -3689, 14); assert StepQ1(32, -3689, 15);
    hide *;
  }

  lemma Q1_32_16()
    ensures forall m :: 16 <= m < 32 ==> StepQ1(32, -3689, m)
  {
    assert StepQ1(32, -3689, 16); assert StepQ1(32, -3689, 17); assert StepQ1(32, -3689, 18); assert StepQ1(32, -3689, 19);
    assert StepQ1(32, -3689, 20); assert StepQ1(32, -3689, 21); assert StepQ1(32, -3689, 22); assert StepQ1(32, -3689, 23);
    assert StepQ1(32, -3689, 24); assert StepQ1(32, -3689, 25); assert StepQ1(32, -3689, 26); assert StepQ1(32, -3689, 27);
    assert StepQ1(32, -3689, 28); assert StepQ1(32, -3689, 29); assert StepQ1(32, -3689, 30); assert StepQ1(32, -3689, 31);
    hide *;
  }

  lemma Q1_64_0()
    ensures forall m :: 0 < m < 16 ==> StepQ1(64, -1054, m)
  {
    assert StepQ1(64, -1054, 1); assert StepQ1(64, -1054, 2); assert StepQ1(64, -1054, 3); assert StepQ1(64, -1054, 4);
    assert StepQ1(64, -1054, 5); assert StepQ1(64, -1054, 6); assert StepQ1(64, -1054, 7); assert StepQ1(64, -1054, 8);
    assert StepQ1(64, -1054, 9); assert StepQ1(64, -1054, 10); assert StepQ1(64, -1054, 11); assert StepQ1(64, -1054, 12);
    assert StepQ1(64, -1054, 13); assert StepQ1(64, -1054, 14); assert StepQ1(64, -1054, 15);
    hide *;
  }

  lemma Q1_64_16()
    ensures forall m :: 16 <= m < 32 ==> StepQ1(64, -1054, m)
  {
    assert StepQ1(64, -1054, 16); assert StepQ1(64, -1054, 17); assert StepQ1(64, -1054, 18); assert StepQ1(64, -1054, 19);
    assert StepQ1(64, -1054, 20); assert StepQ1(64, -1054, 21); assert StepQ1(64, -1054, 22); assert StepQ1(64, -1054, 23);
    assert StepQ1(64, -1054, 24); assert StepQ1(64, -1054, 25); assert StepQ1(64, -1054, 26); assert StepQ1(64, -1054, 27);
    assert StepQ1(64, -1054, 28); assert StepQ1(64, -1054, 29); assert StepQ1(64, -1054, 30); assert StepQ1(64, -1054, 31);
    hide *;
  }

  lemma Q1_64_32()
    ensures forall m :: 32 <= m < 48 ==> StepQ1(64, -1054, m)
  {
    assert StepQ1(64, -1054, 32); assert StepQ1(64, -1054, 33); assert StepQ1(64, -1054, 34); assert StepQ1(64, -1054, 35);
    assert StepQ1(64, -1054, 36); assert StepQ1(64, -1054, 37); assert StepQ1(64, -1054, 38); assert StepQ1(64, -1054, 39);
    assert StepQ1(64, -1054, 40); assert StepQ1(64, -1054, 41); assert StepQ1(64, -1054, 42); assert StepQ1(64, -1054, 43);
    assert StepQ1(64, -1054, 44); assert StepQ1(64, -1054, 45); assert StepQ1(64, -1054, 46); assert StepQ1(64, -1054, 47);
    hide *;
  }

  lemma Q1_64_48()
    ensures forall m :: 48 <= m < 64 ==> StepQ1(64, -1054, m)
  {
    assert StepQ1(64, -1054, 48); assert StepQ1(64, -1054, 49); assert StepQ1(64, -1054, 50); assert StepQ1(64, -1054, 51);
    assert StepQ1(64, -1054, 52); assert StepQ1(64, -1054, 53); assert StepQ1(64, -1054, 54); assert StepQ1(64, -1054, 55);
    assert StepQ1(64, -1054, 56); assert StepQ1(64, -1054, 57); assert StepQ1(64, -1054, 58); assert StepQ1(64, -1054, 59);
    assert StepQ1(64, -1054, 60); assert StepQ1(64, -1054, 61); assert StepQ1(64, -1054, 62); assert StepQ1(64, -1054, 63);
    hide *;
  }

  lemma Q1_128_0()
    ensures forall m :: 0 < m < 16 ==> StepQ1(128, -17, m)
  {
    assert StepQ1(128, -17, 1); assert StepQ1(128, -17, 2); assert StepQ1(128, -17, 3); assert StepQ1(128, -17, 4);
    assert StepQ1(128, -17, 5); assert StepQ1(128, -17, 6); assert StepQ1(128, -17, 7); assert StepQ1(128, -17, 8);
    assert StepQ1(128, -17, 9); assert StepQ1(128, -17, 10); assert StepQ1(128, -17, 11); assert StepQ1(128, -17, 12);
    assert StepQ1(128, -17, 13); assert StepQ1(128, -17, 14); assert StepQ1(128, -17, 15);
    hide *;
  }

  lemma Q1_128_16()
    ensures forall m :: 16 <= m < 32 ==> StepQ1(128, -17, m)
  {
    assert StepQ1(128, -17, 16); assert StepQ1(128, -17, 17); assert StepQ1(128, -17, 18); assert StepQ1(128, -17, 19);
    assert StepQ1(128, -17, 20); assert StepQ1(128, -17, 21); assert StepQ1(128, -17, 22); assert StepQ1(128, -17, 23);
    assert StepQ1(128, -17, 24); assert StepQ1(128, -17, 25); assert StepQ1(128, -17, 26); assert StepQ1(128, -17, 27);
    assert StepQ1(128, -17, 28); assert StepQ1(128, -17, 29); assert StepQ1(128, -17, 30); assert StepQ1(128, -17, 31);
    hide *;
  }

  lemma Q1_128_32()
    ensures forall m :: 32 <= m < 48 ==> StepQ1(128, -17, m)
  {
    assert StepQ1(128, -17, 32); assert StepQ1(128, -17, 33); assert StepQ1(128, -17, 34); assert StepQ1(128, -17, 35);
    assert StepQ1(128, -17, 36); assert StepQ1(128, -17, 37); assert StepQ1(128, -17, 38); assert StepQ1(128, -17, 39);
    assert StepQ1(128, -17, 40); assert StepQ1(128, -17, 41); assert StepQ1(128, -17, 42); assert StepQ1(128, -17, 43);
    assert StepQ1(128, -17, 44); assert StepQ1(128, -17, 45); assert StepQ1(128, -17, 46); assert StepQ1(128, -17, 47);
    hide *;
  }

  lemma Q1_128_48()
    ensures forall m :: 48 <= m < 64 ==> StepQ1(128, -17, m)
  {
    assert StepQ1(128, -17, 48); assert StepQ1(128, -17, 49); assert StepQ1(128, -17, 50); assert StepQ1(128, -17, 51);
    assert StepQ1(128, -17, 52); assert StepQ1(128, -17, 53); assert StepQ1(128, -17, 54); assert StepQ1(128, -17, 55);
    assert StepQ1(128, -17, 56); assert StepQ1(128, -17, 57); assert StepQ1(128, -17, 58); assert StepQ1(128, -17, 59);
    assert StepQ1(128, -17, 60); assert StepQ1(128, -17, 61); assert StepQ1(128, -17, 62); assert StepQ1(128, -17, 63);
    hide *;
  }

  lemma Q1_128_64()
    ensures forall m :: 64 <= m < 80 ==> StepQ1(128, -17, m)
  {
    assert StepQ1(128, -17, 64); assert StepQ1(128, -17, 65); assert StepQ1(128, -17, 66); assert StepQ1(128, -17, 67);
    assert StepQ1(128, -17, 68); assert StepQ1(128, -17, 69); assert StepQ1(128, -17, 70); assert StepQ1(128, -17, 71);
    assert StepQ1(128, -17, 72); assert StepQ1(128, -17, 73); assert StepQ1(128, -17, 74); assert StepQ1(128, -17, 75);
    assert StepQ1(128, -17, 76); assert StepQ1(128, -17, 77); assert StepQ1(128, -17, 78); assert StepQ1(128, -17, 79);
    hide *;
  }

  lemma Q1_128_80()
    ensures forall m :: 80 <= m < 96 ==> StepQ1(128, -17, m)
  {
    assert StepQ1(128, -17, 80); assert StepQ1(128, -17, 81); assert StepQ1(128, -17, 82); assert StepQ1(128, -17, 83);
    assert StepQ1(128, -17, 84); assert StepQ1(128, -17, 85); assert StepQ1(128, -17, 86); assert StepQ1(128, -17, 87);
    assert StepQ1(128, -17, 88); assert StepQ1(128, -17, 89); assert StepQ1(128, -17, 90); assert StepQ1(128, -17, 91);
    assert StepQ1(128, -17, 92); assert StepQ1(128, -17, 93); assert StepQ1(128, -17, 94); assert StepQ1(128, -17, 95);
    hide *;
  }

  lemma Q1_128_96()
    ensures forall m :: 96 <= m < 112 ==> StepQ1(128, -17, m)
  {
    assert StepQ1(128, -17, 96); assert StepQ1(128, -17, 97); assert StepQ1(128, -17, 98); assert StepQ1(128, -17, 99);
    assert StepQ1(128, -17, 100); assert StepQ1(128, -17, 101); assert StepQ1(128, -17, 102); assert StepQ1(128, -17, 103);
    assert StepQ1(128, -17, 104); assert StepQ1(128, -17, 105); assert StepQ1(128, -17, 106); assert StepQ1(128, -17, 107);
    assert StepQ1(128, -17, 108); assert StepQ1(128, -17, 109); assert StepQ1(128, -17, 110); assert StepQ1(128, -17, 111);
    hide *;
  }

  lemma Q1_128_112()
    ensures forall m :: 112 <= m < 128 ==> StepQ1(128, -17, m)
  {
    assert StepQ1(128, -17, 112); assert StepQ1(128, -17, 113); assert StepQ1(128, -17, 114); assert StepQ1(128, -17, 115);
    assert StepQ1(128, -17, 116); assert StepQ1(128, -17, 117); assert StepQ1(128, -17, 118); assert StepQ1(128, -17, 119);
    assert StepQ1(128, -17, 120); assert StepQ1(128, -17, 121); assert StepQ1(128, -17, 122); assert StepQ1(128, -17, 123);
    assert StepQ1(128, -17, 124); assert StepQ1(128, -17, 125); assert StepQ1(128, -17, 126); assert StepQ1(128, -17, 127);
    hide *;
  }

  lemma Q2Powers()
    ensures ZetasQ2(0) == 1018 && ZetasQ2(1) == 223 && ZetasQ2(2) == 4188
    ensures ZetasQ2(4) == 2413 && ZetasQ2(8) == 2695 && ZetasQ2(16) == 4875
    ensures ZetasQ2(32) == -3091 && ZetasQ2(64) == 5023 && ZetasQ2(128) == -573
  {
  }

  lemma Q2First()
    ensures forall m :: 0 < m < 2 ==> StepQ2(2, 4188, m)
    ensures forall m :: 0 < m < 4 ==> StepQ2(4, 2413, m)
    ensures forall m :: 0 < m < 8 ==> StepQ2(8, 2695, m)
  {
    assert StepQ2(2, 4188, 1);
    assert StepQ2(4, 2413, 1); assert StepQ2(4, 2413, 2); assert StepQ2(4, 2413, 3);
    assert StepQ2(8, 2695, 1); assert StepQ2(8, 2695, 2); assert StepQ2(8, 2695, 3); assert StepQ2(8, 2695, 4);
    assert StepQ2(8, 2695, 5); assert StepQ2(8, 2695, 6); assert StepQ2(8, 2695, 7);
    hide *;
  }

  lemma Q2_16_0()
    ensures forall m :: 0 < m < 16 ==> StepQ2(16, 4875, m)
  {
    assert StepQ2(16, 4875, 1); assert StepQ2(16, 4875, 2); assert StepQ2(16, 4875, 3); assert StepQ2(16, 4875, 4);
    assert StepQ2(16, 4875, 5); assert StepQ2(16, 4875, 6); assert StepQ2(16, 4875, 7); assert StepQ2(16, 4875, 8);
    assert StepQ2(16, 4875, 9); assert StepQ2(16, 4875, 10); assert StepQ2(16, 4875, 11); assert StepQ2(16, 4875, 12);
    assert StepQ2(16, 4875, 13); assert StepQ2(16, 4875, 14); assert StepQ2(16, 4875, 15);
    hide *;
  }

  lemma Q2_32_0()
    ensures forall m :: 0 < m < 16 ==> StepQ2(32, -3091, m)
  {
    assert StepQ2(32, -3091, 1); assert StepQ2(32, -3091, 2); assert StepQ2(32, -3091, 3); assert StepQ2(32, -3091, 4);
    assert StepQ2(32, -3091, 5); assert StepQ2(32, -3091, 6); assert StepQ2(32, -3091, 7); assert StepQ2(32, -3091, 8);
    assert StepQ2(32, -3091, 9); assert StepQ2(32, -3091, 10); assert StepQ2(32, -3091, 11); assert StepQ2(32, -3091, 12);
    assert StepQ2(32, -3091, 13); assert StepQ2(32, -3091, 14); assert StepQ2(32, -3091, 15);
    hide *;
  }

  lemma Q2_32_16()
    ensures forall m :: 16 <= m < 32 ==> StepQ2(32, -3091, m)
  {
    assert StepQ2(32, -3091, 16); assert StepQ2(32, -3091, 17); assert StepQ2(32, -3091, 18); assert StepQ2(32, -3091, 19);
    assert StepQ2(32, -3091, 20); assert StepQ2(32, -3091, 21); assert StepQ2(32, -3091, 22); assert StepQ2(32, -3091, 23);
    assert StepQ2(32, -3091, 24); assert StepQ2(32, -3091, 25); assert StepQ2(32, -3091, 26); assert StepQ2(32, -3091, 27);
    assert StepQ2(32, -3091, 28); assert StepQ2(32, -3091, 29); assert StepQ2(32, -3091, 30); assert StepQ2(32, -3091, 31);
    hide *;
  }

  lemma Q2_64_0()
    ensures forall m :: 0 < m < 16 ==> StepQ2(64, 5023, m)
  {
    assert StepQ2(64, 5023, 1); assert StepQ2(64, 5023, 2); assert StepQ2(64, 5023, 3); assert StepQ2(64, 5023, 4);
    assert StepQ2(64, 5023, 5); assert StepQ2(64, 5023, 6); assert StepQ2(64, 5023, 7); assert StepQ2(64, 5023, 8);
    assert StepQ2(64, 5023, 9); assert StepQ2(64, 5023, 10); assert StepQ2(64, 5023, 11); assert StepQ2(64, 5023, 12);
    assert StepQ2(64, 5023, 13); assert StepQ2(64, 5023, 14); assert StepQ2(64, 5023, 15);
    hide *;
  }

  lemma Q2_64_16()
    ensures forall m :: 16 <= m < 32 ==> StepQ2(64, 5023, m)
  {
    assert StepQ2(64, 5023, 16); assert StepQ2(64, 5023, 17); assert StepQ2(64, 5023, 18); assert StepQ2(64, 5023, 19);
    assert StepQ2(64, 5023, 20); assert StepQ2(64, 5023, 21); assert StepQ2(64, 5023, 22); assert StepQ2(64, 5023, 23);
    assert StepQ2(64, 5023, 24); assert StepQ2(64, 5023, 25); assert StepQ2(64, 5023, 26); assert StepQ2(64, 5023, 27);
    assert StepQ2(64, 5023, 28); assert StepQ2(64, 5023, 29); assert StepQ2(64, 5023, 30); assert StepQ2(64, 5023, 31);
    hide *;
  }

  lemma Q2_64_32()
    ensures forall m :: 32 <= m < 48 ==> StepQ2(64, 5023, m)
  {
    assert StepQ2(64, 5023, 32); assert StepQ2(64, 5023, 33); assert StepQ2(64, 5023, 34); assert StepQ2(64, 5023, 35);
    assert StepQ2(64, 5023, 36); assert StepQ2(64, 5023, 37); assert StepQ2(64, 5023, 38); assert StepQ2(64, 5023, 39);
    assert StepQ2(64, 5023, 40); assert StepQ2(64, 5023, 41); assert StepQ2(64, 5023, 42); assert StepQ2(64, 5023, 43);
    assert StepQ2(64, 5023, 44); assert StepQ2(64, 5023, 45); assert StepQ2(64, 5023, 46); assert StepQ2(64, 5023, 47);
    hide *;
  }

  lemma Q2_64_48()
    ensures forall m :: 48 <= m < 64 ==> StepQ2(64, 5023, m)
  {
    assert StepQ2(64, 5023, 48); assert StepQ2(64, 5023, 49); assert StepQ2(64, 5023, 50); assert StepQ2(64, 5023, 51);
    assert StepQ2(64, 5023, 52); assert StepQ2(64, 5023, 53); assert StepQ2(64, 5023, 54); assert StepQ2(64, 5023, 55);
    assert StepQ2(64, 5023, 56); assert StepQ2(64, 5023, 57); assert StepQ2(64, 5023, 58); assert StepQ2(64, 5023, 59);
    assert StepQ2(64, 5023, 60); assert StepQ2(64, 5023, 61); assert StepQ2(64, 5023, 62); assert StepQ2(64, 5023, 63);
    hide *;
  }

  lemma Q2_128_0()
    ensures forall m :: 0 < m < 16 ==> StepQ2(128, -573, m)
  {
    assert StepQ2(128, -573, 1); assert StepQ2(128, -573, 2); assert StepQ2(128, -573, 3); assert StepQ2(128, -573, 4);
    assert StepQ2(128, -573, 5); assert StepQ2(128, -573, 6); assert StepQ2(128, -573, 7); assert StepQ2(128, -573, 8);
    assert StepQ2(128, -573, 9); assert StepQ2(128, -573, 10); assert StepQ2(128, -573, 11); assert StepQ2(128, -573, 12);
    assert StepQ2(128, -573, 13); assert StepQ2(128, -573, 14); assert StepQ2(128, -573, 15);
    hide *;
  }

  lemma Q2_128_16()
    ensures forall m :: 16 <= m < 32 ==> StepQ2(128, -573, m)
  {
    assert StepQ2(128, -573, 16); assert StepQ2(128, -573, 17); assert StepQ2(128, -573, 18); assert StepQ2(128, -573, 19);
    assert StepQ2(128, -573, 20); assert StepQ2(128, -573, 21); assert StepQ2(128, -573, 22); assert StepQ2(128, -573, 23);
    assert StepQ2(128, -573, 24); assert StepQ2(128, -573, 25); assert StepQ2(128, -573, 26); assert StepQ2(128, -573, 27);
    assert StepQ2(128, -573, 28); assert StepQ2(128, -573, 29); assert StepQ2(128, -573, 30); assert StepQ2(128, -573, 31);
    hide *;
  }

  lemma Q2_128_32()
    ensures forall m :: 32 <= m < 48 ==> StepQ2(128, -573, m)
  {
    assert StepQ2(128, -573, 32); assert StepQ2(128, -573, 33); assert StepQ2(128, -573, 34); assert StepQ2(128, -573, 35);
    assert StepQ2(128, -573, 36); assert StepQ2(128, -573, 37); assert StepQ2(128, -573, 38); assert StepQ2(128, -573, 39);
    assert StepQ2(128, -573, 40); assert StepQ2(128, -573, 41); assert StepQ2(128, -573, 42); assert StepQ2(128, -573, 43);
    assert StepQ2(128, -573, 44); assert StepQ2(128, -573, 45); assert StepQ2(128, -573, 46); assert StepQ2(128, -573, 47);
    hide *;
  }

  lemma Q2_128_48()
    ensures forall m :: 48 <= m < 64 ==> StepQ2(128, -573, m)
  {
    assert StepQ2(128, -573, 48); assert StepQ2(128, -573, 49); assert StepQ2(128, -573, 50); assert StepQ2(128, -573, 51);
    assert StepQ2(128, -573, 52); assert StepQ2(128, -573, 53); assert StepQ2(128, -573, 54); assert StepQ2(128, -573, 55);
    assert StepQ2(128, -573, 56); assert StepQ2(128, -573, 57); assert StepQ2(128, -573, 58); assert StepQ2(128, -573, 59);
    assert StepQ2(128, -573, 60); assert StepQ2(128, -573, 61); assert StepQ2(128, -573, 62); assert StepQ2(128, -573, 63);
    hide *;
  }

  lemma Q2_128_64()
    ensures forall m :: 64 <= m < 80 ==> StepQ2(128, -573, m)
  {
    assert StepQ2(128, -573, 64); assert StepQ2(128, -573, 65); assert StepQ2(128, -573, 66); assert StepQ2(128, -573, 67);
    assert StepQ2(128, -573, 68); assert StepQ2(128, -573, 69); assert StepQ2(128, -573, 70); assert StepQ2(128, -573, 71);
    assert StepQ2(128, -573, 72); assert StepQ2(128, -573, 73); assert StepQ2(128, -573, 74); assert StepQ2(128, -573, 75);
    assert StepQ2(128, -573, 76); assert StepQ2(128, -573, 77); assert StepQ2(128, -573, 78); assert StepQ2(128, -573, 79);
    hide *;
  }

  lemma Q2_128_80()
    ensures forall m :: 80 <= m < 96 ==> StepQ2(128, -573, m)
  {
    assert StepQ2(128, -573, 80); assert StepQ2(128, -573, 81); assert StepQ2(128, -573, 82); assert StepQ2(128, -573, 83);
    assert StepQ2(128, -573, 84); assert StepQ2(128, -573, 85); assert StepQ2(128, -573, 86); assert StepQ2(128, -573, 87);
    assert StepQ2(128, -573, 88); assert StepQ2(128, -573, 89); assert StepQ2(128, -573, 90); assert StepQ2(128, -573, 91);
    assert StepQ2(128, -573, 92); assert StepQ2(128, -573, 93); assert StepQ2(128, -573, 94); assert StepQ2(128, -573, 95);
    hide *;
  }

  lemma Q2_128_96()
    ensures forall m :: 96 <= m < 112 ==> StepQ2(128, -573, m)
  {
    assert StepQ2(128, -573, 96); assert StepQ2(128, -573, 97); assert StepQ2(128, -573, 98); assert StepQ2(128, -573, 99);
    assert StepQ2(128, -573, 100); assert StepQ2(128, -573, 101); assert StepQ2(128, -573, 102); assert StepQ2(128, -573, 103);
    assert StepQ2(128, -573, 104); assert StepQ2(128, -573, 105); assert StepQ2(128, -573, 106); assert StepQ2(128, -573, 107);
    assert StepQ2(128, -573, 108); assert StepQ2(128, -573, 109); assert StepQ2(128, -573, 110); assert StepQ2(128, -573, 111);
    hide *;
  }

  lemma Q2_128_112()
    ensures forall m :: 112 <= m < 128 ==> StepQ2(128, -573, m)
  {
    assert StepQ2(128, -573, 112); assert StepQ2(128, -573, 113); assert StepQ2(128, -573, 114); assert StepQ2(128, -573, 115);
    assert StepQ2(128, -573, 116); assert StepQ2(128, -573, 117); assert StepQ2(128, -573, 118); assert StepQ2(128, -573, 119);
    assert StepQ2(128, -573, 120); assert StepQ2(128, -573, 121); assert StepQ2(128, -573, 122); assert StepQ2(128, -573, 123);
    assert StepQ2(128, -573, 124); assert StepQ2(128, -573, 125); assert StepQ2(128, -573, 126); assert StepQ2(128, -573, 127);
    hide *;
  }
}
