/**
 The bytes of AES: the substitution tables of harvester/producer-cli/aes.c:79-114 and the field
 arithmetic of aes.c:299-363, with the proofs that the inverse tables and the inverse column mixing
 undo the forward ones (FIPS 197 sections 5.1.1, 5.1.3, 5.3.2 and 5.3.3).
 */
module AesField {
  /** sbox, a row of sixteen bytes at a time. */
  function SBoxRow(high: bv8): bv128 {
    match high
    case 0 => 0x637c777bf26b6fc53001672bfed7ab76
    case 1 => 0xca82c97dfa5947f0add4a2af9ca472c0
    case 2 => 0xb7fd9326363ff7cc34a5e5f171d83115
    case 3 => 0x04c723c31896059a071280e2eb27b275
    case 4 => 0x09832c1a1b6e5aa0523bd6b329e32f84
    case 5 => 0x53d100ed20fcb15b6acbbe394a4c58cf
    case 6 => 0xd0efaafb434d338545f9027f503c9fa8
    case 7 => 0x51a3408f929d38f5bcb6da2110fff3d2
    case 8 => 0xcd0c13ec5f974417c4a77e3d645d1973
    case 9 => 0x60814fdc222a908846eeb814de5e0bdb
    case 10 => 0xe0323a0a4906245cc2d3ac629195e479
    case 11 => 0xe7c8376d8dd54ea96c56f4ea657aae08
    case 12 => 0xba78252e1ca6b4c6e8dd741f4bbd8b8a
    case 13 => 0x703eb5664803f60e613557b986c11d9e
    case 14 => 0xe1f8981169d98e949b1e87e9ce5528df
    case _ => 0x8ca1890dbfe6426841992d0fb054bb16
  }

  function SBox(x: bv8): bv8 { ((SBoxRow(x >> 4) << (8 * (x & 15))) >> 120) as bv8 }

  /** rsbox, a row of sixteen bytes at a time. */
  function InvSBoxRow(high: bv8): bv128 {
    match high
    case 0 => 0x52096ad53036a538bf40a39e81f3d7fb
    case 1 => 0x7ce339829b2fff87348e4344c4dee9cb
    case 2 => 0x547b9432a6c2233dee4c950b42fac34e
    case 3 => 0x082ea16628d924b2765ba2496d8bd125
    case 4 => 0x72f8f66486689816d4a45ccc5d65b692
    case 5 => 0x6c704850fdedb9da5e154657a78d9d84
    case 6 => 0x90d8ab008cbcd30af7e45805b8b34506
    case 7 => 0xd02c1e8fca3f0f02c1afbd0301138a6b
    case 8 => 0x3a9111414f67dcea97f2cfcef0b4e673
    case 9 => 0x96ac7422e7ad3585e2f937e81c75df6e
    case 10 => 0x47f11a711d29c5896fb7620eaa18be1b
    case 11 => 0xfc563e4bc6d279209adbc0fe78cd5af4
    case 12 => 0x1fdda8338807c731b11210592780ec5f
    case 13 => 0x60517fa919b54a0d2de57a9f93c99cef
    case 14 => 0xa0e03b4dae2af5b0c8ebbb3c83539961
    case _ => 0x172b047eba77d626e169146355210c7d
  }

  function InvSBox(x: bv8): bv8 { ((InvSBoxRow(x >> 4) << (8 * (x & 15))) >> 120) as bv8 }

  lemma SBoxInverseLow(x: bv8)
    requires x < 0x80
    ensures InvSBox(SBox(x)) == x
  {
  }

  lemma SBoxInverseHigh(x: bv8)
    requires x >= 0x80
    ensures InvSBox(SBox(x)) == x
  {
  }

  /** rsbox undoes sbox on every byte. */
  lemma {:induction false} SBoxInverse(x: bv8)
    ensures InvSBox(SBox(x)) == x
  {
    hide SBox, InvSBox;
    if x < 0x80 { SBoxInverseLow(x); } else { SBoxInverseHigh(x); }
  }

  /** xtime: multiplication by two in GF(2^8). */
  function XTime(x: bv8): bv8 { (x << 1) ^ (((x >> 7) & 1) * 0x1b) }

  function Triple(x: bv8): bv8 { XTime(x) ^ x }

  function Multiply(x: bv8, y: bv8): bv8 {
    ((y & 1) * x)
    ^ (((y >> 1) & 1) * XTime(x))
    ^ (((y >> 2) & 1) * XTime(XTime(x)))
    ^ (((y >> 3) & 1) * XTime(XTime(XTime(x))))
    ^ (((y >> 4) & 1) * XTime(XTime(XTime(XTime(x)))))
  }

  /** One byte of a mixed column, as MixColumns computes it: the column starts at the byte's own row. */
  function Mix(a: bv8, b: bv8, c: bv8, d: bv8): bv8 { a ^ (XTime(a ^ b) ^ (a ^ b ^ c ^ d)) }

  /** One byte of an unmixed column. */
  function Unmix(a: bv8, b: bv8, c: bv8, d: bv8): bv8 {
    Multiply(a, 0x0e) ^ Multiply(b, 0x0b) ^ Multiply(c, 0x0d) ^ Multiply(d, 0x09)
  }

  // ---- sums ----

  /** Addition in the field. */
  function Xor(a: bv8, b: bv8): bv8 { a ^ b }

  function Xor4(a: bv8, b: bv8, c: bv8, d: bv8): bv8 { Xor(Xor(Xor(a, b), c), d) }

  lemma XorLaws(a: bv8, b: bv8, c: bv8)
    ensures Xor(a, b) == Xor(b, a) && Xor(Xor(a, b), c) == Xor(a, Xor(b, c))
  {
  }

  lemma Add2(a: bv8, b: bv8, c: bv8, d: bv8)
    ensures Xor(Xor(a, b), Xor(c, d)) == Xor(Xor(a, c), Xor(b, d))
  {
    hide Xor;
    XorLaws(a, b, Xor(c, d));
    XorLaws(b, c, d);
    XorLaws(c, b, d);
    XorLaws(a, c, Xor(b, d));
  }

  /** Sums are added term by term. */
  lemma Add4(a: bv8, b: bv8, c: bv8, d: bv8, e: bv8, f: bv8, g: bv8, h: bv8)
    ensures Xor(Xor4(a, b, c, d), Xor4(e, f, g, h)) == Xor4(Xor(a, e), Xor(b, f), Xor(c, g), Xor(d, h))
  {
    hide Xor;
    Add2(Xor(Xor(a, b), c), d, Xor(Xor(e, f), g), h);
    Add2(Xor(a, b), c, Xor(e, f), g);
    Add2(a, b, e, f);
  }

  lemma Rotate(a: bv8, b: bv8, c: bv8, d: bv8)
    ensures Xor4(b, c, d, a) == Xor4(a, b, c, d)
  {
    hide Xor;
    XorLaws(Xor(Xor(b, c), d), a, a);
    XorLaws(a, Xor(b, c), d);
    XorLaws(a, b, c);
  }

  lemma Transpose(a0: bv8, a1: bv8, a2: bv8, a3: bv8, b0: bv8, b1: bv8, b2: bv8, b3: bv8,
                  c0: bv8, c1: bv8, c2: bv8, c3: bv8, d0: bv8, d1: bv8, d2: bv8, d3: bv8)
    ensures Xor4(Xor4(a0, b0, c0, d0), Xor4(b1, c1, d1, a1), Xor4(c2, d2, a2, b2), Xor4(d3, a3, b3, c3))
         == Xor4(Xor4(a0, a1, a2, a3), Xor4(b0, b1, b2, b3), Xor4(c0, c1, c2, c3), Xor4(d0, d1, d2, d3))
  {
    hide Xor, Xor4;
    Rotate(a1, b1, c1, d1);
    Rotate(b2, c2, d2, a2);
    Rotate(a2, b2, c2, d2);
    Rotate(d3, a3, b3, c3);
    Rotate(c3, d3, a3, b3);
    Rotate(b3, c3, d3, a3);
    Rotate(a3, b3, c3, d3);
    Add4(a0, b0, c0, d0, a1, b1, c1, d1);
    Add4(Xor(a0, a1), Xor(b0, b1), Xor(c0, c1), Xor(d0, d1), a2, b2, c2, d2);
    Add4(Xor(Xor(a0, a1), a2), Xor(Xor(b0, b1), b2), Xor(Xor(c0, c1), c2), Xor(Xor(d0, d1), d2), a3, b3, c3, d3);
    InTurn(Xor4(a0, b0, c0, d0), Xor4(a1, b1, c1, d1), Xor4(a2, b2, c2, d2), Xor4(a3, b3, c3, d3));
    InTurn(a0, a1, a2, a3);
    InTurn(b0, b1, b2, b3);
    InTurn(c0, c1, c2, c3);
    InTurn(d0, d1, d2, d3);
  }

  lemma InTurn(a: bv8, b: bv8, c: bv8, d: bv8)
    ensures Xor4(a, b, c, d) == Xor(Xor(Xor(a, b), c), d)
  {
  }

  lemma XorZero(a: bv8)
    ensures Xor4(a, 0, 0, 0) == a
  {
  }

  // ---- multiplication distributes over sums ----

  lemma XTimeLinear(x: bv8, y: bv8)
    ensures XTime(Xor(x, y)) == Xor(XTime(x), XTime(y))
  {
  }

  /** What one bit of the multiplier contributes. */
  function Part(bit: bv8, z: bv8): bv8 { bit * z }

  predicate OneBit(bit: bv8) { bit == 0 || bit == 1 }

  lemma PartIs(bit: bv8, z: bv8)
    requires OneBit(bit)
    ensures Part(bit, z) == if bit == 0 then 0 else z
  {
    if bit == 1 { assert Part(1, z) == z; } else { assert Part(0, z) == 0; }
  }

  lemma PartLinear(bit: bv8, z: bv8, w: bv8)
    requires OneBit(bit)
    ensures Part(bit, Xor(z, w)) == Xor(Part(bit, z), Part(bit, w))
  {
    hide Part;
    PartIs(bit, z);
    PartIs(bit, w);
    PartIs(bit, Xor(z, w));
  }

  function Sum5(a: bv8, b: bv8, c: bv8, d: bv8, e: bv8): bv8 { Xor(Xor4(a, b, c, d), e) }

  /** The five low bits of the multiplier, each with its power of two. */
  lemma MultiplyParts(x: bv8, k: bv8)
    ensures var x1 := XTime(x); var x2 := XTime(x1); var x3 := XTime(x2);
            Multiply(x, k)
            == Sum5(Part(k & 1, x), Part((k >> 1) & 1, x1), Part((k >> 2) & 1, x2), Part((k >> 3) & 1, x3),
                    Part((k >> 4) & 1, XTime(x3)))
  {
    hide XTime;
  }

  lemma Bits(k: bv8)
    ensures OneBit(k & 1) && OneBit((k >> 1) & 1) && OneBit((k >> 2) & 1) && OneBit((k >> 3) & 1)
    ensures OneBit((k >> 4) & 1)
  {
  }

  /** Multiplication distributes over sums, for every multiplier. */
  lemma {:induction false} MultiplyLinear(x: bv8, y: bv8, k: bv8)
    ensures Multiply(Xor(x, y), k) == Xor(Multiply(x, k), Multiply(y, k))
  {
    hide XTime, Multiply, Xor, Part, Xor4;
    var (x1, y1) := (XTime(x), XTime(y));
    var (x2, y2) := (XTime(x1), XTime(y1));
    var (x3, y3) := (XTime(x2), XTime(y2));
    MultiplyParts(x, k);
    MultiplyParts(y, k);
    MultiplyParts(Xor(x, y), k);
    XTimeLinear(x, y);
    XTimeLinear(x1, y1);
    XTimeLinear(x2, y2);
    XTimeLinear(x3, y3);
    Bits(k);
    var (b0, b1, b2, b3, b4) := (k & 1, (k >> 1) & 1, (k >> 2) & 1, (k >> 3) & 1, (k >> 4) & 1);
    PartLinear(b0, x, y);
    PartLinear(b1, x1, y1);
    PartLinear(b2, x2, y2);
    PartLinear(b3, x3, y3);
    PartLinear(b4, XTime(x3), XTime(y3));
    Add5(Part(b0, x), Part(b0, y), Part(b1, x1), Part(b1, y1), Part(b2, x2), Part(b2, y2), Part(b3, x3), Part(b3, y3),
         Part(b4, XTime(x3)), Part(b4, XTime(y3)));
  }

  lemma Add5(a: bv8, a': bv8, b: bv8, b': bv8, c: bv8, c': bv8, d: bv8, d': bv8, e: bv8, e': bv8)
    ensures Sum5(Xor(a, a'), Xor(b, b'), Xor(c, c'), Xor(d, d'), Xor(e, e'))
         == Xor(Sum5(a, b, c, d, e), Sum5(a', b', c', d', e'))
  {
    hide Xor;
    Add2(a, a', b, b');
    Add2(Xor(a, b), Xor(a', b'), c, c');
    Add2(Xor(Xor(a, b), c), Xor(Xor(a', b'), c'), d, d');
    Add2(Xor4(a, b, c, d), Xor4(a', b', c', d'), e, e');
  }

  lemma Spread(p: bv8, q: bv8, c: bv8, d: bv8, k: bv8)
    ensures Multiply(Xor4(p, q, c, d), k) == Xor4(Multiply(p, k), Multiply(q, k), Multiply(c, k), Multiply(d, k))
  {
    hide Multiply, Xor;
    MultiplyLinear(Xor(Xor(p, q), c), d, k);
    MultiplyLinear(Xor(p, q), c, k);
    MultiplyLinear(p, q, k);
  }

  // ---- mixing ----

  lemma MixIs(a: bv8, b: bv8, c: bv8, d: bv8)
    ensures Mix(a, b, c, d) == Xor4(XTime(a), Triple(b), c, d)
  {
    hide XTime, Mix, Triple;
    MixBytes(a, b, c, d);
    XorBytes(XTime(a), Triple(b), c, d);
  }

  lemma {:induction false} MixBytes(a: bv8, b: bv8, c: bv8, d: bv8)
    ensures Mix(a, b, c, d) == XTime(a) ^ Triple(b) ^ c ^ d
  {
    hide XTime;
    XTimeBytes(a, b);
  }

  lemma XTimeBytes(x: bv8, y: bv8)
    ensures XTime(x ^ y) == XTime(x) ^ XTime(y)
  {
  }

  lemma XorBytes(p: bv8, q: bv8, c: bv8, d: bv8)
    ensures Xor4(p, q, c, d) == p ^ q ^ c ^ d
  {
  }

  lemma UnmixIs(a: bv8, b: bv8, c: bv8, d: bv8)
    ensures Unmix(a, b, c, d) == Xor4(Multiply(a, 14), Multiply(b, 11), Multiply(c, 13), Multiply(d, 9))
  {
    hide Multiply;
  }

  /** A row of the inverse times the columns of the forward matrix: one for a byte itself, zero for the others. */
  lemma Coefficients(x: bv8)
    ensures Xor4(Multiply(XTime(x), 14), Multiply(x, 11), Multiply(x, 13), Multiply(Triple(x), 9)) == x
    ensures Xor4(Multiply(Triple(x), 14), Multiply(XTime(x), 11), Multiply(x, 13), Multiply(x, 9)) == 0
    ensures Xor4(Multiply(x, 14), Multiply(Triple(x), 11), Multiply(XTime(x), 13), Multiply(x, 9)) == 0
    ensures Xor4(Multiply(x, 14), Multiply(x, 11), Multiply(Triple(x), 13), Multiply(XTime(x), 9)) == 0
  {
  }

  /** Unmixing undoes mixing on every column. */
  lemma {:induction false} MixInverse(a: bv8, b: bv8, c: bv8, d: bv8)
    ensures Unmix(Mix(a, b, c, d), Mix(b, c, d, a), Mix(c, d, a, b), Mix(d, a, b, c)) == a
  {
    hide Multiply, XTime, Mix, Triple, Unmix, Xor, Xor4;
    MixIs(a, b, c, d);
    MixIs(b, c, d, a);
    MixIs(c, d, a, b);
    MixIs(d, a, b, c);
    UnmixIs(Mix(a, b, c, d), Mix(b, c, d, a), Mix(c, d, a, b), Mix(d, a, b, c));
    Spread(XTime(a), Triple(b), c, d, 14);
    Spread(XTime(b), Triple(c), d, a, 11);
    Spread(XTime(c), Triple(d), a, b, 13);
    Spread(XTime(d), Triple(a), b, c, 9);
    Coefficients(a);
    Coefficients(b);
    Coefficients(c);
    Coefficients(d);
    Transpose(Multiply(XTime(a), 14), Multiply(a, 11), Multiply(a, 13), Multiply(Triple(a), 9),
              Multiply(Triple(b), 14), Multiply(XTime(b), 11), Multiply(b, 13), Multiply(b, 9),
              Multiply(c, 14), Multiply(Triple(c), 11), Multiply(XTime(c), 13), Multiply(c, 9),
              Multiply(d, 14), Multiply(d, 11), Multiply(Triple(d), 13), Multiply(XTime(d), 9));
    XorZero(a);
  }

  // ---- the substitution table itself ----

  /** Multiplication in GF(2^8), for any two bytes. */
  function Product(x: bv8, y: bv8): bv8 {
    var x1 := XTime(x);
    var x2 := XTime(x1);
    var x3 := XTime(x2);
    var x4 := XTime(x3);
    var x5 := XTime(x4);
    var x6 := XTime(x5);
    var x7 := XTime(x6);
    ((y & 1) * x) ^ (((y >> 1) & 1) * x1) ^ (((y >> 2) & 1) * x2) ^ (((y >> 3) & 1) * x3)
    ^ (((y >> 4) & 1) * x4) ^ (((y >> 5) & 1) * x5) ^ (((y >> 6) & 1) * x6) ^ (((y >> 7) & 1) * x7)
  }

  function RotateBits(x: bv8, n: bv8): bv8
    requires 0 < n < 8
  {
    (x << n) | (x >> (8 - n))
  }

  /** The affine map of section 5.1.1 of FIPS 197, undone. */
  function UndoAffine(x: bv8): bv8 { RotateBits(x, 1) ^ RotateBits(x, 3) ^ RotateBits(x, 6) ^ 0x05 }

  /** A byte times its substitute, freed of the affine map, is one. */
  predicate SubstitutesInverse(x: bv8) {
    if x == 0 then SBox(x) == 0x63 else Product(x, UndoAffine(SBox(x))) == 1
  }

  lemma SubstitutesLow(x: bv8)
    requires x < 0x80
    ensures SubstitutesInverse(x)
  {
  }

  lemma SubstitutesHigh(x: bv8)
    requires x >= 0x80
    ensures SubstitutesInverse(x)
  {
  }

  /** The table is what section 5.1.1 of FIPS 197 defines: the inverse in GF(2^8), then the affine map. */
  lemma {:induction false} SBoxIsDefined(x: bv8)
    ensures SubstitutesInverse(x)
  {
    hide SubstitutesInverse;
    if x < 0x80 { SubstitutesLow(x); } else { SubstitutesHigh(x); }
  }
}
