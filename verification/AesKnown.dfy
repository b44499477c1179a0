/**
 Known answers: the key expansion and the cipher example of FIPS 197 (appendices A.1 and B), and the
 first two blocks of the CBC example of NIST SP 800-38A (section F.2.1), both with the same key.
 A state is written down as its four columns, and each round is computed on its own.
 */
module AesKnown {
  import opened AesField
  import opened AesCipher
  import opened AesModes

  datatype Word = Word(a: bv8, b: bv8, c: bv8, d: bv8)

  datatype State = State(p: Word, q: Word, r: Word, s: Word)

  function Flat(x: State): Block {
    [x.p.a, x.p.b, x.p.c, x.p.d] + [x.q.a, x.q.b, x.q.c, x.q.d]
    + [x.r.a, x.r.b, x.r.c, x.r.d] + [x.s.a, x.s.b, x.s.c, x.s.d]
  }

  // ---- a round on columns ----

  function Add(x: Word, y: Word): Word { Word(x.a ^ y.a, x.b ^ y.b, x.c ^ y.c, x.d ^ y.d) }

  function Sum(x: State, y: State): State { State(Add(x.p, y.p), Add(x.q, y.q), Add(x.r, y.r), Add(x.s, y.s)) }

  function Sub(a: bv8, b: bv8, c: bv8, d: bv8): Word { Word(SBox(a), SBox(b), SBox(c), SBox(d)) }

  function SubShift(x: State): State {
    State(Sub(x.p.a, x.q.b, x.r.c, x.s.d), Sub(x.q.a, x.r.b, x.s.c, x.p.d),
          Sub(x.r.a, x.s.b, x.p.c, x.q.d), Sub(x.s.a, x.p.b, x.q.c, x.r.d))
  }

  function Mixed(x: Word): Word {
    Word(Mix(x.a, x.b, x.c, x.d), Mix(x.b, x.c, x.d, x.a), Mix(x.c, x.d, x.a, x.b), Mix(x.d, x.a, x.b, x.c))
  }

  function Round(x: State, key: State): State {
    var t := SubShift(x);
    Sum(State(Mixed(t.p), Mixed(t.q), Mixed(t.r), Mixed(t.s)), key)
  }

  function LastRound(x: State, key: State): State { Sum(SubShift(x), key) }

  /** The next four words of the key schedule. */
  function NextKey(x: State, rcon: bv8): State {
    var p := Add(x.p, Word(SBox(x.s.b) ^ rcon, SBox(x.s.c), SBox(x.s.d), SBox(x.s.a)));
    var q := Add(x.q, p);
    var r := Add(x.r, q);
    State(p, q, r, Add(x.s, r))
  }

  // ---- the same round on blocks ----

  predicate Is(s: seq<bv8>, i: nat, w: Word)
    requires i + 4 <= |s|
  {
    s[i] == w.a && s[i + 1] == w.b && s[i + 2] == w.c && s[i + 3] == w.d
  }

  /** The sixteen bytes from i on. */
  predicate Holds(s: seq<bv8>, i: nat, x: State)
    requires i + 16 <= |s|
  {
    Is(s, i, x.p) && Is(s, i + 4, x.q) && Is(s, i + 8, x.r) && Is(s, i + 12, x.s)
  }

  lemma FlatIs(b: Block, x: State)
    ensures Holds(b, 0, x) <==> b == Flat(x)
  {
  }

  lemma WordSum(r: seq<bv8>, b: seq<bv8>, k: seq<bv8>, i: nat, j: nat, x: Word, y: Word)
    requires i + 4 <= |r| && i + 4 <= |b| && j + 4 <= |k| && Is(b, i, x) && Is(k, j, y)
    requires forall n :: i <= n < i + 4 ==> r[n] == b[n] ^ k[n - i + j]
    ensures Is(r, i, Add(x, y))
  {
  }

  lemma BlockSum(r: Block, b: Block, k: seq<bv8>, j: nat, x: State, y: State)
    requires j + 16 <= |k| && Holds(b, 0, x) && Holds(k, j, y)
    requires forall n :: 0 <= n < 16 ==> r[n] == b[n] ^ k[n + j]
    ensures Holds(r, 0, Sum(x, y))
  {
    hide Is, Add;
    WordSum(r, b, k, 0, j, x.p, y.p);
    WordSum(r, b, k, 4, j + 4, x.q, y.q);
    WordSum(r, b, k, 8, j + 8, x.r, y.r);
    WordSum(r, b, k, 12, j + 12, x.s, y.s);
  }

  lemma AddIs(b: Block, k: Schedule, round: nat, x: State, key: State)
    requires round <= 10 && Holds(b, 0, x) && Holds(k, 16 * round, key)
    ensures Holds(AddRoundKey(b, k, round), 0, Sum(x, key))
  {
    hide Holds, Sum;
    BlockSum(AddRoundKey(b, k, round), b, k, 16 * round, x, key);
  }

  lemma SubShiftIs(b: Block, x: State)
    requires Holds(b, 0, x)
    ensures Holds(ShiftRows(SubBytes(b)), 0, SubShift(x))
  {
    hide SBox, Shifted;
    assert forall i :: 0 <= i < 16 ==> ShiftRows(SubBytes(b))[i] == SBox(b[Shifted(i)]);
    ShiftedIs();
  }

  lemma ShiftedIs()
    ensures Shifted(0) == 0 && Shifted(1) == 5 && Shifted(2) == 10 && Shifted(3) == 15
    ensures Shifted(4) == 4 && Shifted(5) == 9 && Shifted(6) == 14 && Shifted(7) == 3
    ensures Shifted(8) == 8 && Shifted(9) == 13 && Shifted(10) == 2 && Shifted(11) == 7
    ensures Shifted(12) == 12 && Shifted(13) == 1 && Shifted(14) == 6 && Shifted(15) == 11
  {
  }

  lemma MixIs(b: Block, x: State)
    requires Holds(b, 0, x)
    ensures Holds(MixColumns(b), 0, State(Mixed(x.p), Mixed(x.q), Mixed(x.r), Mixed(x.s)))
  {
    hide Mix, MixColumns, InvMixColumns, Unmix;
    Column(b, 0);
    Column(b, 1);
    Column(b, 2);
    Column(b, 3);
  }

  lemma RoundIs(b: Block, k: Schedule, round: nat, x: State, key: State)
    requires 1 <= round <= 9 && Holds(Rounds(b, k, round - 1), 0, x) && Holds(k, 16 * round, key)
    ensures Holds(Rounds(b, k, round), 0, Round(x, key))
  {
    hide Holds, AddRoundKey, SubBytes, ShiftRows, MixColumns, SubShift, Mixed, Sum;
    var s := ShiftRows(SubBytes(Rounds(b, k, round - 1)));
    var t := SubShift(x);
    SubShiftIs(Rounds(b, k, round - 1), x);
    MixIs(s, t);
    AddIs(MixColumns(s), k, round, State(Mixed(t.p), Mixed(t.q), Mixed(t.r), Mixed(t.s)), key);
  }

  lemma LastIs(b: Block, k: Schedule, x: State, key: State)
    requires Holds(Rounds(b, k, 9), 0, x) && Holds(k, 160, key)
    ensures Holds(Cipher(b, k), 0, LastRound(x, key))
  {
    hide Holds, AddRoundKey, SubBytes, ShiftRows, SubShift, Sum, Rounds;
    SubShiftIs(Rounds(b, k, 9), x);
    AddIs(ShiftRows(SubBytes(Rounds(b, k, 9))), k, 10, SubShift(x), key);
  }

  lemma FirstIs(b: Block, k: Schedule, x: State, key: State)
    requires Holds(b, 0, x) && Holds(k, 0, key)
    ensures Holds(Rounds(b, k, 0), 0, Sum(x, key))
  {
    hide Holds, Sum, AddRoundKey;
    AddIs(b, k, 0, x, key);
  }

  lemma XorIs(x: State, y: State)
    ensures XorBlock(Flat(x), Flat(y)) == Flat(Sum(x, y))
  {
    hide Flat, XorBlock;
    FlatIs(Flat(x), x);
    FlatIs(Flat(y), y);
    XorHolds(Flat(x), Flat(y), x, y);
    FlatIs(XorBlock(Flat(x), Flat(y)), Sum(x, y));
  }

  lemma XorHolds(a: Block, b: Block, x: State, y: State)
    requires Holds(a, 0, x) && Holds(b, 0, y)
    ensures Holds(XorBlock(a, b), 0, Sum(x, y))
  {
    hide Holds, Sum;
    BlockSum(XorBlock(a, b), a, b, 0, x, y);
  }

  lemma TempPlain(w: seq<bv8>, i: nat, t: Word)
    requires |w| == 4 * i && i >= 4 && i % 4 != 0 && Is(w, 4 * i - 4, t)
    ensures Is(TempWord(w), 0, t)
  {
    hide SubWord, RotWord, Mark, Rcon;
  }

  lemma TempMarked(w: seq<bv8>, i: nat, t: Word)
    requires |w| == 4 * i && i >= 4 && i % 4 == 0 && Is(w, 4 * i - 4, t)
    ensures Is(TempWord(w), 0, Word(SBox(t.b) ^ Rcon(i / 4), SBox(t.c), SBox(t.d), SBox(t.a)))
  {
    hide SubWord, RotWord, Mark, Rcon, SBox, TempWord;
    var last := w[|w| - 4..];
    LastWord(w, i);
    TempIs(w);
    RotIs(last);
    SubIs(RotWord(last));
    MarkIs(SubWord(RotWord(last)), Rcon(i / 4));
  }

  /** One more word of the schedule. */
  lemma WordAfter(w: seq<bv8>, i: nat, x: Word, t: Word)
    requires |w| == 4 * i && i >= 4 && Is(w, 4 * i - 16, x) && Is(TempWord(w), 0, t)
    ensures Is(w + NextWord(w), 4 * i, Add(x, t))
  {
    hide TempWord, NextWord;
    NextIs(w, i);
  }

  lemma WordIs(key: Block, n: nat, x: Word, t: Word)
    requires n >= 4 && Is(Expand(key, n), 4 * n - 16, x) && Is(TempWord(Expand(key, n)), 0, t)
    ensures Is(Expand(key, n + 1), 4 * n, Add(x, t))
  {
    hide Expand, TempWord, NextWord, Is;
    ExpandNext(key, n);
    WordAfter(Expand(key, n), n, x, t);
  }

  lemma {:induction false} Kept(key: Block, n: nat, m: nat, i: nat, w: Word)
    requires 4 <= n <= m && i + 4 <= 4 * n && Is(Expand(key, n), i, w)
    ensures Is(Expand(key, m), i, w)
  {
    hide NextWord;
    if n < m { Kept(key, n, m - 1, i, w); }
  }

  lemma {:induction false} KeptAll(key: Block, n: nat, m: nat, i: nat, x: State)
    requires 4 <= n <= m && i + 16 <= 4 * n && Holds(Expand(key, n), i, x)
    ensures Holds(Expand(key, m), i, x)
  {
    hide Expand, Is;
    Kept(key, n, m, i, x.p);
    Kept(key, n, m, i + 4, x.q);
    Kept(key, n, m, i + 8, x.r);
    Kept(key, n, m, i + 12, x.s);
  }

  /** The next round key. */
  lemma NextKeyIs(key: Block, r: nat, x: State)
    requires r < 10 && Holds(Expand(key, 4 * r + 4), 16 * r, x)
    ensures Holds(Expand(key, 4 * r + 8), 16 * r + 16, NextKey(x, Rcon(r + 1)))
  {
    hide Expand, TempWord, Is, Add, SBox, Rcon;
    var n, y := 4 * r + 4, NextKey(x, Rcon(r + 1));
    TempMarked(Expand(key, n), n, x.s);
    WordIs(key, n, x.p, Word(SBox(x.s.b) ^ Rcon(r + 1), SBox(x.s.c), SBox(x.s.d), SBox(x.s.a)));
    Kept(key, n, n + 1, 4 * n - 12, x.q);
    TempPlain(Expand(key, n + 1), n + 1, y.p);
    WordIs(key, n + 1, x.q, y.p);
    Kept(key, n, n + 2, 4 * n - 8, x.r);
    TempPlain(Expand(key, n + 2), n + 2, y.q);
    WordIs(key, n + 2, x.r, y.q);
    Kept(key, n, n + 3, 4 * n - 4, x.s);
    TempPlain(Expand(key, n + 3), n + 3, y.r);
    WordIs(key, n + 3, x.s, y.r);
    Kept(key, n + 1, n + 4, 4 * n, y.p);
    Kept(key, n + 2, n + 4, 4 * n + 4, y.q);
    Kept(key, n + 3, n + 4, 4 * n + 8, y.r);
  }

  // ---- the key schedule of the examples ----

  function Key0(): State {
    State(Word(0x2b, 0x7e, 0x15, 0x16), Word(0x28, 0xae, 0xd2, 0xa6),
          Word(0xab, 0xf7, 0x15, 0x88), Word(0x09, 0xcf, 0x4f, 0x3c))
  }

  function Key1(): State {
    State(Word(0xa0, 0xfa, 0xfe, 0x17), Word(0x88, 0x54, 0x2c, 0xb1),
          Word(0x23, 0xa3, 0x39, 0x39), Word(0x2a, 0x6c, 0x76, 0x05))
  }

  function Key2(): State {
    State(Word(0xf2, 0xc2, 0x95, 0xf2), Word(0x7a, 0x96, 0xb9, 0x43),
          Word(0x59, 0x35, 0x80, 0x7a), Word(0x73, 0x59, 0xf6, 0x7f))
  }

  function Key3(): State {
    State(Word(0x3d, 0x80, 0x47, 0x7d), Word(0x47, 0x16, 0xfe, 0x3e),
          Word(0x1e, 0x23, 0x7e, 0x44), Word(0x6d, 0x7a, 0x88, 0x3b))
  }

  function Key4(): State {
    State(Word(0xef, 0x44, 0xa5, 0x41), Word(0xa8, 0x52, 0x5b, 0x7f),
          Word(0xb6, 0x71, 0x25, 0x3b), Word(0xdb, 0x0b, 0xad, 0x00))
  }

  function Key5(): State {
    State(Word(0xd4, 0xd1, 0xc6, 0xf8), Word(0x7c, 0x83, 0x9d, 0x87),
          Word(0xca, 0xf2, 0xb8, 0xbc), Word(0x11, 0xf9, 0x15, 0xbc))
  }

  function Key6(): State {
    State(Word(0x6d, 0x88, 0xa3, 0x7a), Word(0x11, 0x0b, 0x3e, 0xfd),
          Word(0xdb, 0xf9, 0x86, 0x41), Word(0xca, 0x00, 0x93, 0xfd))
  }

  function Key7(): State {
    State(Word(0x4e, 0x54, 0xf7, 0x0e), Word(0x5f, 0x5f, 0xc9, 0xf3),
          Word(0x84, 0xa6, 0x4f, 0xb2), Word(0x4e, 0xa6, 0xdc, 0x4f))
  }

  function Key8(): State {
    State(Word(0xea, 0xd2, 0x73, 0x21), Word(0xb5, 0x8d, 0xba, 0xd2),
          Word(0x31, 0x2b, 0xf5, 0x60), Word(0x7f, 0x8d, 0x29, 0x2f))
  }

  function Key9(): State {
    State(Word(0xac, 0x77, 0x66, 0xf3), Word(0x19, 0xfa, 0xdc, 0x21),
          Word(0x28, 0xd1, 0x29, 0x41), Word(0x57, 0x5c, 0x00, 0x6e))
  }

  function Key10(): State {
    State(Word(0xd0, 0x14, 0xf9, 0xa8), Word(0xc9, 0xee, 0x25, 0x89),
          Word(0xe1, 0x3f, 0x0c, 0xc8), Word(0xb6, 0x63, 0x0c, 0xa6))
  }

  lemma Expanded1()
    ensures NextKey(Key0(), 0x01) == Key1()
  {
  }

  lemma Expanded2()
    ensures NextKey(Key1(), 0x02) == Key2()
  {
  }

  lemma Expanded3()
    ensures NextKey(Key2(), 0x04) == Key3()
  {
  }

  lemma Expanded4()
    ensures NextKey(Key3(), 0x08) == Key4()
  {
  }

  lemma Expanded5()
    ensures NextKey(Key4(), 0x10) == Key5()
  {
  }

  lemma Expanded6()
    ensures NextKey(Key5(), 0x20) == Key6()
  {
  }

  lemma Expanded7()
    ensures NextKey(Key6(), 0x40) == Key7()
  {
  }

  lemma Expanded8()
    ensures NextKey(Key7(), 0x80) == Key8()
  {
  }

  lemma Expanded9()
    ensures NextKey(Key8(), 0x1b) == Key9()
  {
  }

  lemma Expanded10()
    ensures NextKey(Key9(), 0x36) == Key10()
  {
  }

  /** The round keys of the examples. */
  predicate Scheduled(k: Schedule) {
    && Holds(k, 0, Key0())
    && Holds(k, 16, Key1())
    && Holds(k, 32, Key2())
    && Holds(k, 48, Key3())
    && Holds(k, 64, Key4())
    && Holds(k, 80, Key5())
    && Holds(k, 96, Key6())
    && Holds(k, 112, Key7())
    && Holds(k, 128, Key8())
    && Holds(k, 144, Key9())
    && Holds(k, 160, Key10())
  }

  lemma NextIsKnown(key: Block, r: nat, x: State, y: State)
    requires r < 10 && Holds(Expand(key, 4 * r + 4), 16 * r, x) && NextKey(x, Rcon(r + 1)) == y
    ensures Holds(Expand(key, 4 * r + 8), 16 * r + 16, y) && Holds(Expand(key, 44), 16 * r + 16, y)
  {
    hide Expand, Holds, NextKey, Rcon;
    NextKeyIs(key, r, x);
    KeptAll(key, 4 * r + 8, 44, 16 * r + 16, y);
  }

  function Schedule128(): Schedule { Expand(Flat(Key0()), 44) }

  /** FIPS 197, appendix A.1: the whole key schedule. */
  lemma {:induction false} KnownSchedule()
    ensures Scheduled(Schedule128())
  {
    hide Expand, Holds, NextKey, Flat, Key0, Key1, Key2, Key3, Key4, Key5, Key6, Key7, Key8, Key9, Key10;
    var key := Flat(Key0());
    FlatIs(key, Key0());
    ExpandFirst(key);
    KeptAll(key, 4, 44, 0, Key0());
    Expanded1();
    NextIsKnown(key, 0, Key0(), Key1());
    Expanded2();
    NextIsKnown(key, 1, Key1(), Key2());
    Expanded3();
    NextIsKnown(key, 2, Key2(), Key3());
    Expanded4();
    NextIsKnown(key, 3, Key3(), Key4());
    Expanded5();
    NextIsKnown(key, 4, Key4(), Key5());
    Expanded6();
    NextIsKnown(key, 5, Key5(), Key6());
    Expanded7();
    NextIsKnown(key, 6, Key6(), Key7());
    Expanded8();
    NextIsKnown(key, 7, Key7(), Key8());
    Expanded9();
    NextIsKnown(key, 8, Key8(), Key9());
    Expanded10();
    NextIsKnown(key, 9, Key9(), Key10());
  }

  // ---- the block of FIPS 197 ----

  function Fips(): State {
    State(Word(0x32, 0x43, 0xf6, 0xa8), Word(0x88, 0x5a, 0x30, 0x8d),
          Word(0x31, 0x31, 0x98, 0xa2), Word(0xe0, 0x37, 0x07, 0x34))
  }

  lemma FipsStart()
    ensures Sum(Fips(), Key0()) == Fips0()
  {
  }

  function Fips0(): State {
    State(Word(0x19, 0x3d, 0xe3, 0xbe), Word(0xa0, 0xf4, 0xe2, 0x2b),
          Word(0x9a, 0xc6, 0x8d, 0x2a), Word(0xe9, 0xf8, 0x48, 0x08))
  }

  function Fips1(): State {
    State(Word(0xa4, 0x9c, 0x7f, 0xf2), Word(0x68, 0x9f, 0x35, 0x2b),
          Word(0x6b, 0x5b, 0xea, 0x43), Word(0x02, 0x6a, 0x50, 0x49))
  }

  function Fips2(): State {
    State(Word(0xaa, 0x8f, 0x5f, 0x03), Word(0x61, 0xdd, 0xe3, 0xef),
          Word(0x82, 0xd2, 0x4a, 0xd2), Word(0x68, 0x32, 0x46, 0x9a))
  }

  function Fips3(): State {
    State(Word(0x48, 0x6c, 0x4e, 0xee), Word(0x67, 0x1d, 0x9d, 0x0d),
          Word(0x4d, 0xe3, 0xb1, 0x38), Word(0xd6, 0x5f, 0x58, 0xe7))
  }

  function Fips4(): State {
    State(Word(0xe0, 0x92, 0x7f, 0xe8), Word(0xc8, 0x63, 0x63, 0xc0),
          Word(0xd9, 0xb1, 0x35, 0x50), Word(0x85, 0xb8, 0xbe, 0x01))
  }

  function Fips5(): State {
    State(Word(0xf1, 0x00, 0x6f, 0x55), Word(0xc1, 0x92, 0x4c, 0xef),
          Word(0x7c, 0xc8, 0x8b, 0x32), Word(0x5d, 0xb5, 0xd5, 0x0c))
  }

  function Fips6(): State {
    State(Word(0x26, 0x0e, 0x2e, 0x17), Word(0x3d, 0x41, 0xb7, 0x7d),
          Word(0xe8, 0x64, 0x72, 0xa9), Word(0xfd, 0xd2, 0x8b, 0x25))
  }

  function Fips7(): State {
    State(Word(0x5a, 0x41, 0x42, 0xb1), Word(0x19, 0x49, 0xdc, 0x1f),
          Word(0xa3, 0xe0, 0x19, 0x65), Word(0x7a, 0x8c, 0x04, 0x0c))
  }

  function Fips8(): State {
    State(Word(0xea, 0x83, 0x5c, 0xf0), Word(0x04, 0x45, 0x33, 0x2d),
          Word(0x65, 0x5d, 0x98, 0xad), Word(0x85, 0x96, 0xb0, 0xc5))
  }

  function Fips9(): State {
    State(Word(0xeb, 0x40, 0xf2, 0x1e), Word(0x59, 0x2e, 0x38, 0x84),
          Word(0x8b, 0xa1, 0x13, 0xe7), Word(0x1b, 0xc3, 0x42, 0xd2))
  }

  function Fips10(): State {
    State(Word(0x39, 0x25, 0x84, 0x1d), Word(0x02, 0xdc, 0x09, 0xfb),
          Word(0xdc, 0x11, 0x85, 0x97), Word(0x19, 0x6a, 0x0b, 0x32))
  }

  lemma FipsRound1()
    ensures Round(Fips0(), Key1()) == Fips1()
  {
    assert SubShift(Fips0())
        == State(Word(0xd4, 0xbf, 0x5d, 0x30), Word(0xe0, 0xb4, 0x52, 0xae),
                 Word(0xb8, 0x41, 0x11, 0xf1), Word(0x1e, 0x27, 0x98, 0xe5));
  }

  lemma FipsRound2()
    ensures Round(Fips1(), Key2()) == Fips2()
  {
    assert SubShift(Fips1())
        == State(Word(0x49, 0xdb, 0x87, 0x3b), Word(0x45, 0x39, 0x53, 0x89),
                 Word(0x7f, 0x02, 0xd2, 0xf1), Word(0x77, 0xde, 0x96, 0x1a));
  }

  lemma FipsRound3()
    ensures Round(Fips2(), Key3()) == Fips3()
  {
    assert SubShift(Fips2())
        == State(Word(0xac, 0xc1, 0xd6, 0xb8), Word(0xef, 0xb5, 0x5a, 0x7b),
                 Word(0x13, 0x23, 0xcf, 0xdf), Word(0x45, 0x73, 0x11, 0xb5));
  }

  lemma FipsRound4()
    ensures Round(Fips3(), Key4()) == Fips4()
  {
    assert SubShift(Fips3())
        == State(Word(0x52, 0xa4, 0xc8, 0x94), Word(0x85, 0x11, 0x6a, 0x28),
                 Word(0xe3, 0xcf, 0x2f, 0xd7), Word(0xf6, 0x50, 0x5e, 0x07));
  }

  lemma FipsRound5()
    ensures Round(Fips4(), Key5()) == Fips5()
  {
    assert SubShift(Fips4())
        == State(Word(0xe1, 0xfb, 0x96, 0x7c), Word(0xe8, 0xc8, 0xae, 0x9b),
                 Word(0x35, 0x6c, 0xd2, 0xba), Word(0x97, 0x4f, 0xfb, 0x53));
  }

  lemma FipsRound6()
    ensures Round(Fips5(), Key6()) == Fips6()
  {
    assert SubShift(Fips5())
        == State(Word(0xa1, 0x4f, 0x3d, 0xfe), Word(0x78, 0xe8, 0x03, 0xfc),
                 Word(0x10, 0xd5, 0xa8, 0xdf), Word(0x4c, 0x63, 0x29, 0x23));
  }

  lemma FipsRound7()
    ensures Round(Fips6(), Key7()) == Fips7()
  {
    assert SubShift(Fips6())
        == State(Word(0xf7, 0x83, 0x40, 0x3f), Word(0x27, 0x43, 0x3d, 0xf0),
                 Word(0x9b, 0xb5, 0x31, 0xff), Word(0x54, 0xab, 0xa9, 0xd3));
  }

  lemma FipsRound8()
    ensures Round(Fips7(), Key8()) == Fips8()
  {
    assert SubShift(Fips7())
        == State(Word(0xbe, 0x3b, 0xd4, 0xfe), Word(0xd4, 0xe1, 0xf2, 0xc8),
                 Word(0x0a, 0x64, 0x2c, 0xc0), Word(0xda, 0x83, 0x86, 0x4d));
  }

  lemma FipsRound9()
    ensures Round(Fips8(), Key9()) == Fips9()
  {
    assert SubShift(Fips8())
        == State(Word(0x87, 0x6e, 0x46, 0xa6), Word(0xf2, 0x4c, 0xe7, 0x8c),
                 Word(0x4d, 0x90, 0x4a, 0xd8), Word(0x97, 0xec, 0xc3, 0x95));
  }

  lemma FipsRound10()
    ensures LastRound(Fips9(), Key10()) == Fips10()
  {
    assert SubShift(Fips9())
        == State(Word(0xe9, 0x31, 0x7d, 0xb5), Word(0xcb, 0x32, 0x2c, 0x72),
                 Word(0x3d, 0x2e, 0x89, 0x5f), Word(0xaf, 0x09, 0x07, 0x94));
  }

  lemma FipsIsKnown(k: Schedule)
    requires Scheduled(k)
    ensures Cipher(Flat(Fips()), k) == Flat(Fips10())
  {
    hide Cipher, Holds, Round, LastRound, Sum, Flat, Rounds, Key0, Key1, Key2, Key3, Key4, Key5, Key6, Key7, Key8, Key9,
         Key10, Fips0, Fips1, Fips2, Fips3, Fips4, Fips5, Fips6, Fips7, Fips8, Fips9, Fips10;
    var b := Flat(Fips());
    FlatIs(b, Fips());
    FipsStart();
    FirstIs(b, k, Fips(), Key0());
    FipsRound1();
    RoundIs(b, k, 1, Fips0(), Key1());
    FipsRound2();
    RoundIs(b, k, 2, Fips1(), Key2());
    FipsRound3();
    RoundIs(b, k, 3, Fips2(), Key3());
    FipsRound4();
    RoundIs(b, k, 4, Fips3(), Key4());
    FipsRound5();
    RoundIs(b, k, 5, Fips4(), Key5());
    FipsRound6();
    RoundIs(b, k, 6, Fips5(), Key6());
    FipsRound7();
    RoundIs(b, k, 7, Fips6(), Key7());
    FipsRound8();
    RoundIs(b, k, 8, Fips7(), Key8());
    FipsRound9();
    RoundIs(b, k, 9, Fips8(), Key9());
    FipsRound10();
    LastIs(b, k, Fips9(), Key10());
    FlatIs(Cipher(b, k), Fips10());
  }

  /** FIPS 197, appendix B. */
  lemma {:induction false} KnownCipher()
    ensures Cipher(Flat(Fips()), Schedule128()) == Flat(Fips10())
  {
    hide Cipher, Schedule128, Flat, Scheduled;
    KnownSchedule();
    FipsIsKnown(Schedule128());
  }

  // ---- the two blocks of NIST SP 800-38A, each added to what it is chained to ----

  function First(): State {
    State(Word(0x6b, 0xc0, 0xbc, 0xe1), Word(0x2a, 0x45, 0x99, 0x91),
          Word(0xe1, 0x34, 0x74, 0x1a), Word(0x7f, 0x9e, 0x19, 0x25))
  }

  lemma FirstStart()
    ensures Sum(First(), Key0()) == First0()
  {
  }

  function First0(): State {
    State(Word(0x40, 0xbe, 0xa9, 0xf7), Word(0x02, 0xeb, 0x4b, 0x37),
          Word(0x4a, 0xc3, 0x61, 0x92), Word(0x76, 0x51, 0x56, 0x19))
  }

  function First1(): State {
    State(Word(0xa9, 0xc4, 0xbc, 0xb9), Word(0xcd, 0xdf, 0xb4, 0x67),
          Word(0xb5, 0x38, 0x36, 0x75), Word(0x4f, 0x92, 0x4c, 0xce))
  }

  function First2(): State {
    State(Word(0x78, 0xb2, 0x54, 0x0a), Word(0x6d, 0x08, 0xab, 0x1d),
          Word(0xd9, 0x54, 0x44, 0x25), Word(0x54, 0xf4, 0xd3, 0x58))
  }

  function First3(): State {
    State(Word(0x7f, 0x1b, 0x43, 0x5d), Word(0x5e, 0xa7, 0x87, 0xf2),
          Word(0x2a, 0xb7, 0x43, 0xd7), Word(0x29, 0xad, 0x1a, 0x70))
  }

  function First4(): State {
    State(Word(0xff, 0x51, 0xec, 0xc8), Word(0x16, 0xf2, 0x21, 0x04),
          Word(0x50, 0x02, 0xe1, 0x89), Word(0x79, 0xdc, 0x9b, 0x50))
  }

  function First5(): State {
    State(Word(0xd3, 0x8e, 0x47, 0x15), Word(0x97, 0xfe, 0xa6, 0xe6),
          Word(0xc1, 0x0d, 0xe7, 0xfe), Word(0x54, 0x4d, 0x61, 0x04))
  }

  function First6(): State {
    State(Word(0x11, 0xd6, 0x40, 0x00), Word(0xce, 0x45, 0x4f, 0xf4),
          Word(0x3b, 0x29, 0xcf, 0x8d), Word(0x3e, 0xc5, 0x34, 0xcd))
  }

  function First7(): State {
    State(Word(0xd4, 0x32, 0xc8, 0x16), Word(0xdd, 0xce, 0x72, 0x0e),
          Word(0x1c, 0xb7, 0xc3, 0x45), Word(0xe9, 0x29, 0x6c, 0x4a))
  }

  function First8(): State {
    State(Word(0x04, 0x33, 0x8d, 0xeb), Word(0xdb, 0xb2, 0xbb, 0xfd),
          Word(0xa5, 0x6e, 0xe1, 0xdf), Word(0x08, 0x7b, 0x26, 0xb2))
  }

  function First9(): State {
    State(Word(0xc5, 0xcf, 0x11, 0x5f), Word(0xd4, 0x8d, 0x2f, 0x50),
          Word(0x4e, 0x26, 0x48, 0x9f), Word(0x1d, 0x4a, 0x85, 0x30))
  }

  function First10(): State {
    State(Word(0x76, 0x49, 0xab, 0xac), Word(0x81, 0x19, 0xb2, 0x46),
          Word(0xce, 0xe9, 0x8e, 0x9b), Word(0x12, 0xe9, 0x19, 0x7d))
  }

  lemma FirstRound1()
    ensures Round(First0(), Key1()) == First1()
  {
    assert SubShift(First0())
        == State(Word(0x09, 0xe9, 0xef, 0xd4), Word(0x77, 0x2e, 0xb1, 0x68),
                 Word(0xd6, 0xd1, 0xd3, 0x9a), Word(0x38, 0xae, 0xb3, 0x4f));
  }

  lemma FirstRound2()
    ensures Round(First1(), Key2()) == First2()
  {
    assert SubShift(First1())
        == State(Word(0xd3, 0x9e, 0x05, 0x8b), Word(0xbd, 0x07, 0x29, 0x56),
                 Word(0xd5, 0x4f, 0x65, 0x85), Word(0x84, 0x1c, 0x8d, 0x9d));
  }

  lemma FirstRound3()
    ensures Round(First2(), Key3()) == First3()
  {
    assert SubShift(First2())
        == State(Word(0xbc, 0x30, 0x1b, 0x6a), Word(0x3c, 0x20, 0x66, 0x67),
                 Word(0x35, 0xbf, 0x20, 0xa4), Word(0x20, 0x37, 0x62, 0x3f));
  }

  lemma FirstRound4()
    ensures Round(First3(), Key4()) == First4()
  {
    assert SubShift(First3())
        == State(Word(0xd2, 0x5c, 0x1a, 0x51), Word(0x58, 0xa9, 0xa2, 0x4c),
                 Word(0xe5, 0x95, 0x1a, 0x89), Word(0xa5, 0xaf, 0x17, 0x0e));
  }

  lemma FirstRound5()
    ensures Round(First4(), Key5()) == First5()
  {
    assert SubShift(First4())
        == State(Word(0x16, 0x89, 0xf8, 0x53), Word(0x47, 0x77, 0x14, 0xe8),
                 Word(0x53, 0x86, 0xce, 0xf2), Word(0xb6, 0xd1, 0xfd, 0xa7));
  }

  lemma FirstRound6()
    ensures Round(First5(), Key6()) == First6()
  {
    assert SubShift(First5())
        == State(Word(0x66, 0xbb, 0x94, 0xf2), Word(0x88, 0xd7, 0xef, 0x59),
                 Word(0x78, 0xe3, 0xa0, 0x8e), Word(0x20, 0x19, 0x24, 0xbb));
  }

  lemma FirstRound7()
    ensures Round(First6(), Key7()) == First7()
  {
    assert SubShift(First6())
        == State(Word(0x82, 0x6e, 0x8a, 0xbd), Word(0x8b, 0xa5, 0x18, 0x63),
                 Word(0xe2, 0xa6, 0x09, 0xbf), Word(0xb2, 0xf6, 0x84, 0x5d));
  }

  lemma FirstRound8()
    ensures Round(First7(), Key8()) == First8()
  {
    assert SubShift(First7())
        == State(Word(0x48, 0x8b, 0x2e, 0xd6), Word(0xc1, 0xa9, 0x50, 0x47),
                 Word(0x9c, 0xa5, 0xe8, 0xab), Word(0x1e, 0x23, 0x40, 0x6e));
  }

  lemma FirstRound9()
    ensures Round(First8(), Key9()) == First9()
  {
    assert SubShift(First8())
        == State(Word(0xf2, 0x37, 0xf8, 0x37), Word(0xb9, 0x9f, 0xf7, 0xe9),
                 Word(0x06, 0x21, 0x5d, 0x54), Word(0x30, 0xc3, 0xea, 0x9e));
  }

  lemma FirstRound10()
    ensures LastRound(First9(), Key10()) == First10()
  {
    assert SubShift(First9())
        == State(Word(0xa6, 0x5d, 0x52, 0x04), Word(0x48, 0xf7, 0x97, 0xcf),
                 Word(0x2f, 0xd6, 0x82, 0x53), Word(0xa4, 0x8a, 0x15, 0xdb));
  }

  lemma FirstIsKnown(k: Schedule)
    requires Scheduled(k)
    ensures Cipher(Flat(First()), k) == Flat(First10())
  {
    hide Cipher, Holds, Round, LastRound, Sum, Flat, Rounds, Key0, Key1, Key2, Key3, Key4, Key5, Key6, Key7, Key8, Key9,
         Key10, First0, First1, First2, First3, First4, First5, First6, First7, First8, First9, First10;
    var b := Flat(First());
    FlatIs(b, First());
    FirstStart();
    FirstIs(b, k, First(), Key0());
    FirstRound1();
    RoundIs(b, k, 1, First0(), Key1());
    FirstRound2();
    RoundIs(b, k, 2, First1(), Key2());
    FirstRound3();
    RoundIs(b, k, 3, First2(), Key3());
    FirstRound4();
    RoundIs(b, k, 4, First3(), Key4());
    FirstRound5();
    RoundIs(b, k, 5, First4(), Key5());
    FirstRound6();
    RoundIs(b, k, 6, First5(), Key6());
    FirstRound7();
    RoundIs(b, k, 7, First6(), Key7());
    FirstRound8();
    RoundIs(b, k, 8, First7(), Key8());
    FirstRound9();
    RoundIs(b, k, 9, First8(), Key9());
    FirstRound10();
    LastIs(b, k, First9(), Key10());
    FlatIs(Cipher(b, k), First10());
  }

  // ---- the second block ----

  function Second(): State {
    State(Word(0xd8, 0x64, 0x21, 0xfb), Word(0x9f, 0x1a, 0x1e, 0xda),
          Word(0x50, 0x5e, 0xe1, 0x37), Word(0x57, 0x46, 0x97, 0x2c))
  }

  lemma SecondStart()
    ensures Sum(Second(), Key0()) == Second0()
  {
  }

  function Second0(): State {
    State(Word(0xf3, 0x1a, 0x34, 0xed), Word(0xb7, 0xb4, 0xcc, 0x7c),
          Word(0xfb, 0xa9, 0xf4, 0xbf), Word(0x5e, 0x89, 0xd8, 0x10))
  }

  function Second1(): State {
    State(Word(0x43, 0xe6, 0x5e, 0xbd), Word(0x9b, 0xb6, 0x6b, 0x49),
          Word(0xc7, 0xc1, 0x91, 0xb7), Word(0x24, 0xbe, 0x02, 0x14))
  }

  function Second2(): State {
    State(Word(0x6f, 0x26, 0xcd, 0xfc), Word(0xd7, 0x91, 0xb5, 0x84),
          Word(0x44, 0x67, 0x15, 0xab), Word(0x40, 0x40, 0x50, 0x9d))
  }

  function Second3(): State {
    State(Word(0xe9, 0x84, 0x3e, 0xfa), Word(0x2c, 0x4c, 0x18, 0x81),
          Word(0xd1, 0xa9, 0xec, 0x63), Word(0xca, 0x80, 0x61, 0xc6))
  }

  function Second4(): State {
    State(Word(0xd2, 0xf5, 0xd2, 0xf7), Word(0xe6, 0x99, 0x4b, 0x8a),
          Word(0x38, 0x0f, 0xbd, 0x1e), Word(0x84, 0xd6, 0xd1, 0x83))
  }

  function Second5(): State {
    State(Word(0x1a, 0xc1, 0x46, 0x6b), Word(0xb7, 0xcb, 0xa1, 0x96),
          Word(0x0e, 0xb8, 0xba, 0x0a), Word(0x5f, 0xcd, 0x47, 0xec))
  }

  function Second6(): State {
    State(Word(0x29, 0xdd, 0xa4, 0xeb), Word(0x33, 0xfe, 0x21, 0x2f),
          Word(0x80, 0x4d, 0x8f, 0x7b), Word(0x92, 0x0e, 0xe9, 0x33))
  }

  function Second7(): State {
    State(Word(0x79, 0xca, 0x51, 0xaf), Word(0x0b, 0x8a, 0xf5, 0x99),
          Word(0xbf, 0xe8, 0x84, 0x36), Word(0x54, 0x4d, 0xd0, 0xe0))
  }

  function Second8(): State {
    State(Word(0xa1, 0x98, 0x3d, 0x18), Word(0x5c, 0x62, 0x61, 0xb6),
          Word(0x20, 0x78, 0x8e, 0x8d), Word(0x40, 0x71, 0xa5, 0xd7))
  }

  function Second9(): State {
    State(Word(0x3a, 0x2f, 0xde, 0x0a), Word(0xf9, 0x74, 0xca, 0x04),
          Word(0xca, 0x1c, 0xa1, 0x9b), Word(0x3d, 0xae, 0x6d, 0x66))
  }

  function Second10(): State {
    State(Word(0x50, 0x86, 0xcb, 0x9b), Word(0x50, 0x72, 0x19, 0xee),
          Word(0x95, 0xdb, 0x11, 0x3a), Word(0x91, 0x76, 0x78, 0xb2))
  }

  lemma SecondRound1()
    ensures Round(Second0(), Key1()) == Second1()
  {
    assert SubShift(Second0())
        == State(Word(0x0d, 0x8d, 0xbf, 0xca), Word(0xa9, 0xd3, 0x61, 0x55),
                 Word(0x0f, 0xa7, 0x18, 0x10), Word(0x58, 0xa2, 0x4b, 0x08));
  }

  lemma SecondRound2()
    ensures Round(Second1(), Key2()) == Second2()
  {
    assert SubShift(Second1())
        == State(Word(0x1a, 0x4e, 0x81, 0xfa), Word(0x14, 0x78, 0x77, 0x7a),
                 Word(0xc6, 0xae, 0x58, 0x3b), Word(0x36, 0x8e, 0x7f, 0xa9));
  }

  lemma SecondRound3()
    ensures Round(Second2(), Key3()) == Second3()
  {
    assert SubShift(Second2())
        == State(Word(0xa8, 0x81, 0x59, 0x5e), Word(0x0e, 0x85, 0x53, 0xb0),
                 Word(0x1b, 0x09, 0xbd, 0x5f), Word(0x09, 0xf7, 0xd5, 0x62));
  }

  lemma SecondRound4()
    ensures Round(Second3(), Key4()) == Second4()
  {
    assert SubShift(Second3())
        == State(Word(0x1e, 0x29, 0xce, 0xb4), Word(0x71, 0xd3, 0xef, 0x2d),
                 Word(0x3e, 0xcd, 0xb2, 0x0c), Word(0x74, 0x5f, 0xad, 0xfb));
  }

  lemma SecondRound5()
    ensures Round(Second4(), Key5()) == Second5()
  {
    assert SubShift(Second4())
        == State(Word(0xb5, 0xee, 0x7a, 0xec), Word(0x8e, 0x76, 0x3e, 0x68),
                 Word(0x07, 0xf6, 0xb5, 0x7e), Word(0x5f, 0xe6, 0xb3, 0x72));
  }

  lemma SecondRound6()
    ensures Round(Second5(), Key6()) == Second6()
  {
    assert SubShift(Second5())
        == State(Word(0xa2, 0x1f, 0xf4, 0xce), Word(0xa9, 0x6c, 0xa0, 0x7f),
                 Word(0xab, 0xbd, 0x5a, 0x90), Word(0xcf, 0x78, 0x32, 0x67));
  }

  lemma SecondRound7()
    ensures Round(Second6(), Key7()) == Second7()
  {
    assert SubShift(Second6())
        == State(Word(0xa5, 0xbb, 0x73, 0xc3), Word(0xc3, 0xe3, 0x1e, 0xe9),
                 Word(0xcd, 0xab, 0x49, 0x15), Word(0x4f, 0xc1, 0xfd, 0x21));
  }

  lemma SecondRound8()
    ensures Round(Second7(), Key8()) == Second8()
  {
    assert SubShift(Second7())
        == State(Word(0xb6, 0x7e, 0x5f, 0xe1), Word(0x2b, 0x9b, 0x70, 0x79),
                 Word(0x08, 0xe3, 0xd1, 0xee), Word(0x20, 0x74, 0xe6, 0x05));
  }

  lemma SecondRound9()
    ensures Round(Second8(), Key9()) == Second9()
  {
    assert SubShift(Second8())
        == State(Word(0x32, 0xaa, 0x19, 0x0e), Word(0x4a, 0xbc, 0x06, 0xad),
                 Word(0xb7, 0xa3, 0x27, 0x4e), Word(0x09, 0x46, 0xef, 0x5d));
  }

  lemma SecondRound10()
    ensures LastRound(Second9(), Key10()) == Second10()
  {
    assert SubShift(Second9())
        == State(Word(0x80, 0x92, 0x32, 0x33), Word(0x99, 0x9c, 0x3c, 0x67),
                 Word(0x74, 0xe4, 0x1d, 0xf2), Word(0x27, 0x15, 0x74, 0x14));
  }

  lemma SecondIsKnown(k: Schedule)
    requires Scheduled(k)
    ensures Cipher(Flat(Second()), k) == Flat(Second10())
  {
    hide Cipher, Holds, Round, LastRound, Sum, Flat, Rounds, Key0, Key1, Key2, Key3, Key4, Key5, Key6, Key7, Key8, Key9,
         Key10, Second0, Second1, Second2, Second3, Second4, Second5, Second6, Second7, Second8, Second9, Second10;
    var b := Flat(Second());
    FlatIs(b, Second());
    SecondStart();
    FirstIs(b, k, Second(), Key0());
    SecondRound1();
    RoundIs(b, k, 1, Second0(), Key1());
    SecondRound2();
    RoundIs(b, k, 2, Second1(), Key2());
    SecondRound3();
    RoundIs(b, k, 3, Second2(), Key3());
    SecondRound4();
    RoundIs(b, k, 4, Second3(), Key4());
    SecondRound5();
    RoundIs(b, k, 5, Second4(), Key5());
    SecondRound6();
    RoundIs(b, k, 6, Second5(), Key6());
    SecondRound7();
    RoundIs(b, k, 7, Second6(), Key7());
    SecondRound8();
    RoundIs(b, k, 8, Second7(), Key8());
    SecondRound9();
    RoundIs(b, k, 9, Second8(), Key9());
    SecondRound10();
    LastIs(b, k, Second9(), Key10());
    FlatIs(Cipher(b, k), Second10());
  }

  function Iv(): State {
    State(Word(0x00, 0x01, 0x02, 0x03), Word(0x04, 0x05, 0x06, 0x07),
          Word(0x08, 0x09, 0x0a, 0x0b), Word(0x0c, 0x0d, 0x0e, 0x0f))
  }

  function Plain1(): State {
    State(Word(0x6b, 0xc1, 0xbe, 0xe2), Word(0x2e, 0x40, 0x9f, 0x96),
          Word(0xe9, 0x3d, 0x7e, 0x11), Word(0x73, 0x93, 0x17, 0x2a))
  }

  function Plain2(): State {
    State(Word(0xae, 0x2d, 0x8a, 0x57), Word(0x1e, 0x03, 0xac, 0x9c),
          Word(0x9e, 0xb7, 0x6f, 0xac), Word(0x45, 0xaf, 0x8e, 0x51))
  }

  function Blocks(a: State, b: State): (s: seq<bv8>)
    ensures WholeBlocks(s)
  {
    Flat(a) + Flat(b)
  }

  lemma ChainedInputs()
    ensures Sum(Plain1(), Iv()) == First() && Sum(Plain2(), First10()) == Second()
  {
  }

  /** NIST SP 800-38A, section F.2.1: each block is added to the ciphertext of the one before. */
  lemma {:induction false} KnownCbc()
    ensures CbcEncrypt(Blocks(Plain1(), Plain2()), Flat(Iv()), Schedule128()) == Blocks(First10(), Second10())
  {
    hide Cipher, Schedule128, Flat, Scheduled, XorBlock, Sum, Iv, Plain1, Plain2, First, Second, First10, Second10;
    var k, s := Schedule128(), Blocks(Plain1(), Plain2());
    KnownSchedule();
    ChainedInputs();
    XorIs(Plain1(), Iv());
    FirstIsKnown(k);
    XorIs(Plain2(), First10());
    SecondIsKnown(k);
    assert s[..16] == Flat(Plain1()) && s[16..] == Flat(Plain2());
    OneBlock(Flat(Plain2()), Flat(First10()), k);
  }

  lemma OneBlock(b: Block, iv: Block, k: Schedule)
    ensures CbcEncrypt(b, iv, k) == Cipher(XorBlock(b, iv), k)
  {
    hide Cipher, XorBlock;
    assert b[..16] == b && b[16..] == [];
  }
}
