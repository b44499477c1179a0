/**
 Key expansion and the CBC and CTR modes of harvester/producer-cli/aes.c:118-238 and aes.c:489-566
 (FIPS 197 section 5.2; NIST SP 800-38A sections 6.2 and 6.5).
 */
module AesModes {
  import opened AesField
  import opened AesCipher

  // ---- key expansion ----

  function Rcon(i: nat): bv8 {
    match i
    case 0 => 0x8d
    case 1 => 0x01
    case 2 => 0x02
    case 3 => 0x04
    case 4 => 0x08
    case 5 => 0x10
    case 6 => 0x20
    case 7 => 0x40
    case 8 => 0x80
    case 9 => 0x1b
    case _ => 0x36
  }

  /** Round constants are the powers of two in the field. */
  lemma {:induction false} RconIsPower(i: nat)
    requires 1 <= i < 10
    ensures Rcon(1) == 1 && Rcon(i + 1) == XTime(Rcon(i))
  {
  }

  /** RotWord: the bytes of a word move one place to the left. */
  function RotWord(word: seq<bv8>): (r: seq<bv8>)
    requires |word| == 4
    ensures |r| == 4
  {
    word[1..] + word[..1]
  }

  /** SubWord. */
  function SubWord(word: seq<bv8>): (r: seq<bv8>)
    requires |word| == 4
    ensures |r| == 4
  {
    seq(4, j requires 0 <= j < 4 => SBox(word[j]))
  }

  /** The last word of the schedule so far, at every fourth word rotated, substituted and marked. */
  function TempWord(w: seq<bv8>): (r: seq<bv8>)
    requires |w| >= 16 && |w| % 4 == 0
    ensures |r| == 4
  {
    var i, last := |w| / 4, w[|w| - 4..];
    if i % 4 == 0 then Mark(SubWord(RotWord(last)), Rcon(i / 4)) else last
  }

  /** A round constant is added to the first byte. */
  function Mark(word: seq<bv8>, c: bv8): (r: seq<bv8>)
    requires |word| == 4
    ensures |r| == 4
  {
    word[0 := Xor(word[0], c)]
  }

  function XorWord(a: seq<bv8>, b: seq<bv8>): (r: seq<bv8>)
    requires |a| == |b| == 4
    ensures |r| == 4
  {
    seq(4, j requires 0 <= j < 4 => Xor(a[j], b[j]))
  }

  /** The next word: the word four before it plus the temporary one. */
  function NextWord(w: seq<bv8>): (four: seq<bv8>)
    requires |w| >= 16 && |w| % 4 == 0
    ensures |four| == 4
  {
    XorWord(w[|w| - 16..|w| - 12], TempWord(w))
  }

  /** The first n words of the key schedule. */
  function Expand(key: Block, n: nat): (w: seq<bv8>)
    requires n >= 4
    ensures |w| == 4 * n
  {
    if n == 4 then key else Expand(key, n - 1) + NextWord(Expand(key, n - 1))
  }

  /** KeyExpansion: each word is made in a temporary one and combined with the word four before it. */
  method KeyExpansion(roundKey: array<bv8>, key: Block)
    requires roundKey.Length == 176
    modifies roundKey
    ensures roundKey[..] == Expand(key, 44)
  {
    hide Expand, NextWord;
    for i := 0 to 16
      invariant roundKey[..i] == key[..i]
    {
      roundKey[i] := key[i];
    }
    ExpandFirst(key);
    var tempa := new bv8[4];
    for i := 4 to 44
      invariant roundKey[..4 * i] == Expand(key, i)
    {
      ExpandNext(key, i);
      FillTemp(tempa, roundKey, i);
      AppendWord(roundKey, i, tempa);
    }
    assert roundKey[..4 * 44] == roundKey[..];
  }

  /** The last word before word i, at every fourth word rotated, substituted and marked with a round constant. */
  method FillTemp(tempa: array<bv8>, roundKey: array<bv8>, i: nat)
    requires tempa.Length == 4 && tempa != roundKey && 4 <= i && 4 * i <= roundKey.Length
    modifies tempa
    ensures tempa[..] == TempWord(roundKey[..4 * i])
  {
    hide TempWord, SubWord, RotWord, Mark, Rcon, SBox, Xor;
    ghost var w := roundKey[..4 * i];
    var k := (i - 1) * 4;
    LastWord(w, i);
    assert roundKey[k] == w[k] && roundKey[k + 1] == w[k + 1] && roundKey[k + 2] == w[k + 2];
    assert roundKey[k + 3] == w[k + 3];
    LoadWord(tempa, roundKey, k);
    TempIs(w);
    if i % 4 == 0 {
      TurnWord(tempa);
      SubstituteWord(tempa);
      MarkIs(tempa[..], Rcon(i / 4));
      tempa[0] := Xor(tempa[0], Rcon(i / 4));
    }
  }

  lemma LastWord(w: seq<bv8>, i: nat)
    requires |w| == 4 * i >= 4
    ensures w[|w| - 4..] == [w[4 * i - 4], w[4 * i - 3], w[4 * i - 2], w[4 * i - 1]]
  {
  }

  method LoadWord(tempa: array<bv8>, roundKey: array<bv8>, k: nat)
    requires tempa.Length == 4 && tempa != roundKey && k + 4 <= roundKey.Length
    modifies tempa
    ensures tempa[..] == [roundKey[k], roundKey[k + 1], roundKey[k + 2], roundKey[k + 3]]
  {
    tempa[0] := roundKey[k];
    tempa[1] := roundKey[k + 1];
    tempa[2] := roundKey[k + 2];
    tempa[3] := roundKey[k + 3];
  }

  method TurnWord(tempa: array<bv8>)
    requires tempa.Length == 4
    modifies tempa
    ensures tempa[..] == RotWord(old(tempa[..]))
  {
    hide *;
    RotIs(tempa[..]);
    var u8tmp := tempa[0];
    tempa[0] := tempa[1];
    tempa[1] := tempa[2];
    tempa[2] := tempa[3];
    tempa[3] := u8tmp;
  }

  method SubstituteWord(tempa: array<bv8>)
    requires tempa.Length == 4
    modifies tempa
    ensures tempa[..] == SubWord(old(tempa[..]))
  {
    hide *;
    SubIs(tempa[..]);
    tempa[0] := SBox(tempa[0]);
    tempa[1] := SBox(tempa[1]);
    tempa[2] := SBox(tempa[2]);
    tempa[3] := SBox(tempa[3]);
  }

  lemma TempIs(w: seq<bv8>)
    requires |w| >= 16 && |w| % 4 == 0
    ensures var last := w[|w| - 4..];
            TempWord(w) == if |w| / 4 % 4 == 0 then Mark(SubWord(RotWord(last)), Rcon(|w| / 4 / 4)) else last
  {
    hide SubWord, RotWord, Mark, Rcon;
  }

  lemma RotIs(word: seq<bv8>)
    requires |word| == 4
    ensures RotWord(word) == [word[1], word[2], word[3], word[0]]
  {
  }

  lemma SubIs(word: seq<bv8>)
    requires |word| == 4
    ensures SubWord(word) == [SBox(word[0]), SBox(word[1]), SBox(word[2]), SBox(word[3])]
  {
    hide SBox;
  }

  lemma MarkIs(word: seq<bv8>, c: bv8)
    requires |word| == 4
    ensures Mark(word, c) == [Xor(word[0], c), word[1], word[2], word[3]]
  {
    hide Xor;
  }

  /** Word i is the word four before it plus the temporary one. */
  method AppendWord(roundKey: array<bv8>, i: nat, tempa: array<bv8>)
    requires tempa.Length == 4 && tempa != roundKey && 4 <= i && 4 * i + 4 <= roundKey.Length
    requires tempa[..] == TempWord(roundKey[..4 * i])
    modifies roundKey
    ensures roundKey[..4 * (i + 1)] == old(roundKey[..4 * i]) + NextWord(old(roundKey[..4 * i]))
  {
    hide TempWord, NextWord, Xor;
    ghost var w := roundKey[..4 * i];
    NextIs(w, i);
    var j, k := i * 4, (i - 4) * 4;
    roundKey[j] := Xor(roundKey[k], tempa[0]);
    roundKey[j + 1] := Xor(roundKey[k + 1], tempa[1]);
    roundKey[j + 2] := Xor(roundKey[k + 2], tempa[2]);
    roundKey[j + 3] := Xor(roundKey[k + 3], tempa[3]);
    assert roundKey[..j] == w;
    FourMore(roundKey[..], j);
  }

  lemma NextIs(w: seq<bv8>, i: nat)
    requires |w| == 4 * i >= 16
    ensures var (t, k) := (TempWord(w), 4 * i - 16);
            NextWord(w) == [Xor(w[k], t[0]), Xor(w[k + 1], t[1]), Xor(w[k + 2], t[2]), Xor(w[k + 3], t[3])]
  {
    hide TempWord, Xor;
  }

  lemma FourMore(s: seq<bv8>, j: nat)
    requires j + 4 <= |s|
    ensures s[..j + 4] == s[..j] + [s[j], s[j + 1], s[j + 2], s[j + 3]]
  {
  }

  lemma ExpandFirst(key: Block)
    ensures Expand(key, 4) == key
  {
  }

  lemma ExpandNext(key: Block, i: nat)
    requires i >= 4
    ensures Expand(key, i + 1) == Expand(key, i) + NextWord(Expand(key, i))
  {
  }

  // ---- CBC ----

  function XorBlock(a: Block, b: Block): Block { seq(16, i requires 0 <= i < 16 => a[i] ^ b[i]) }

  predicate WholeBlocks(s: seq<bv8>) { |s| % 16 == 0 }

  function CbcEncrypt(s: seq<bv8>, iv: Block, k: Schedule): (r: seq<bv8>)
    requires WholeBlocks(s)
    ensures |r| == |s|
    decreases |s|
  {
    if s == [] then []
    else
      var c := Cipher(XorBlock(s[..16], iv), k);
      c + CbcEncrypt(s[16..], c, k)
  }

  function CbcDecrypt(s: seq<bv8>, iv: Block, k: Schedule): (r: seq<bv8>)
    requires WholeBlocks(s)
    ensures |r| == |s|
    decreases |s|
  {
    if s == [] then [] else XorBlock(InvCipher(s[..16], k), iv) + CbcDecrypt(s[16..], s[..16], k)
  }

  /** The last block of a ciphertext, which the next call chains to. */
  function LastBlock(c: seq<bv8>, iv: Block): Block
    requires WholeBlocks(c)
  {
    if c == [] then iv else c[|c| - 16..]
  }

  lemma NoLastBlock(iv: Block)
    ensures LastBlock([], iv) == iv
  {
  }

  lemma LastBlockCons(c: Block, rest: seq<bv8>, iv: Block)
    requires WholeBlocks(rest)
    ensures LastBlock(c + rest, iv) == LastBlock(rest, c)
  {
    var e := c + rest;
    assert rest != [] ==> e[|e| - 16..] == rest[|rest| - 16..];
    assert rest == [] ==> e == c;
  }

  lemma XorBlockTwice(a: Block, b: Block)
    ensures XorBlock(XorBlock(a, b), b) == a
  {
    forall i | 0 <= i < 16
      ensures XorBlock(XorBlock(a, b), b)[i] == a[i]
    {
      XorTwice(a[i], b[i]);
    }
  }

  /** Decryption undoes encryption on every buffer of whole blocks. */
  lemma {:induction false} CbcRoundTrip(s: seq<bv8>, iv: Block, k: Schedule)
    requires WholeBlocks(s)
    ensures CbcDecrypt(CbcEncrypt(s, iv, k), iv, k) == s
    decreases |s|
  {
    hide Cipher, InvCipher, XorBlock;
    if s != [] {
      var p := XorBlock(s[..16], iv);
      var c := Cipher(p, k);
      CipherInverse(p, k);
      XorBlockTwice(s[..16], iv);
      CbcRoundTrip(s[16..], c, k);
      var e := CbcEncrypt(s, iv, k);
      assert e[..16] == c && e[16..] == CbcEncrypt(s[16..], c, k);
      assert s == s[..16] + s[16..];
    }
  }

  /** Block i of the ciphertext is the cipher of block i plus the ciphertext block before it. */
  lemma {:induction false} CbcBlocks(s: seq<bv8>, iv: Block, k: Schedule, i: nat)
    requires WholeBlocks(s) && 16 * i < |s|
    ensures var c := CbcEncrypt(s, iv, k);
            At(c, 16 * i) == Cipher(XorBlock(At(s, 16 * i), if i == 0 then iv else At(c, 16 * i - 16)), k)
    decreases i
  {
    hide Cipher, XorBlock, At, CbcEncrypt;
    var c := CbcEncrypt(s, iv, k);
    var c0 := CbcFirst(s, iv, k);
    if i > 0 {
      CbcBlocks(s[16..], c0, k, i - 1);
      AtTail(s, 16 * i - 16);
      AtTail(c, 16 * i - 16);
      if i > 1 { AtTail(c, 16 * i - 32); }
    }
  }

  /** The first block of the ciphertext, to which the rest is chained. */
  lemma CbcFirst(s: seq<bv8>, iv: Block, k: Schedule) returns (c0: Block)
    requires WholeBlocks(s) && s != []
    ensures c0 == At(CbcEncrypt(s, iv, k), 0) == Cipher(XorBlock(At(s, 0), iv), k)
    ensures CbcEncrypt(s, iv, k)[16..] == CbcEncrypt(s[16..], c0, k)
  {
    hide Cipher, XorBlock;
    c0 := Cipher(XorBlock(s[..16], iv), k);
    assert At(s, 0) == s[..16];
  }

  lemma AtTail(s: seq<bv8>, off: nat)
    requires off + 32 <= |s|
    ensures At(s[16..], off) == At(s, off + 16)
  {
  }

  /** Encrypting a concatenation is two chained calls. */
  lemma {:induction false} CbcEncryptChains(s: seq<bv8>, t: seq<bv8>, iv: Block, k: Schedule)
    requires WholeBlocks(s) && WholeBlocks(t)
    ensures CbcEncrypt(s + t, iv, k)
         == CbcEncrypt(s, iv, k) + CbcEncrypt(t, LastBlock(CbcEncrypt(s, iv, k), iv), k)
    decreases |s|
  {
    hide Cipher, XorBlock, LastBlock;
    NoLastBlock(iv);
    if s == [] {
      assert s + t == t;
    } else {
      var c := Cipher(XorBlock(s[..16], iv), k);
      assert (s + t)[..16] == s[..16] && (s + t)[16..] == s[16..] + t;
      CbcEncryptChains(s[16..], t, c, k);
      var rest := CbcEncrypt(s[16..], c, k);
      LastBlockCons(c, rest, iv);
      assert c + rest + CbcEncrypt(t, LastBlock(rest, c), k) == c + (rest + CbcEncrypt(t, LastBlock(rest, c), k));
    }
  }

  lemma {:induction false} CbcDecryptChains(s: seq<bv8>, t: seq<bv8>, iv: Block, k: Schedule)
    requires WholeBlocks(s) && WholeBlocks(t)
    ensures CbcDecrypt(s + t, iv, k) == CbcDecrypt(s, iv, k) + CbcDecrypt(t, LastBlock(s, iv), k)
    decreases |s|
  {
    hide InvCipher, XorBlock, LastBlock;
    NoLastBlock(iv);
    if s == [] {
      assert s + t == t;
    } else {
      assert (s + t)[..16] == s[..16] && (s + t)[16..] == s[16..] + t;
      CbcDecryptChains(s[16..], t, s[..16], k);
      LastBlockCons(s[..16], s[16..], iv);
      assert s == s[..16] + s[16..];
    }
  }

  // ---- CTR ----

  /** The counter block plus one, carried from the last byte; it wraps around at the first. */
  function Increment(s: seq<bv8>): (r: seq<bv8>)
    ensures |r| == |s|
  {
    if s == [] then []
    else
      var n := |s| - 1;
      if s[n] == 255 then Increment(s[..n]) + [0] else s[..n] + [s[n] + 1]
  }

  /** The counter block after n blocks. */
  function Counter(iv: Block, n: nat): Block {
    if n == 0 then iv else Increment(Counter(iv, n - 1))
  }

  function ByteValue(x: bv8): (v: nat)
    ensures v < 256
  {
    x as int
  }

  /** The number a block spells, most significant byte first. */
  function BlockValue(s: seq<bv8>): nat {
    if s == [] then 0 else BlockValue(s[..|s| - 1]) * 256 + ByteValue(s[|s| - 1])
  }

  function Power256(n: nat): (r: nat)
    ensures r > 0
  {
    if n == 0 then 1 else 256 * Power256(n - 1)
  }

  lemma ByteSuccessor(x: bv8)
    ensures x != 255 ==> ByteValue(x + 1) == ByteValue(x) + 1
    ensures x == 255 ==> ByteValue(x) == 255
    ensures ByteValue(0) == 0
  {
  }

  lemma {:induction false} IncrementValue(s: seq<bv8>)
    ensures BlockValue(s) < Power256(|s|)
    ensures BlockValue(Increment(s)) == if BlockValue(s) + 1 == Power256(|s|) then 0 else BlockValue(s) + 1
  {
    hide ByteValue;
    if s != [] {
      var n := |s| - 1;
      IncrementValue(s[..n]);
      ByteSuccessor(s[n]);
      assert Increment(s)[..n] == if s[n] == 255 then Increment(s[..n]) else s[..n];
      assert ByteValue(s[n]) < 256;
    }
  }

  /** The counter is the initial one plus the number of blocks, modulo 2^128. */
  lemma {:induction false} CounterValue(iv: Block, n: nat)
    ensures BlockValue(Counter(iv, n)) == (BlockValue(iv) + n) % Power256(16)
  {
    hide BlockValue, Power256;
    IncrementValue(iv);
    if n > 0 {
      CounterValue(iv, n - 1);
      IncrementValue(Counter(iv, n - 1));
      WrapOnce(BlockValue(iv) + n - 1, Power256(16));
    }
  }

  lemma WrapOnce(a: nat, m: nat)
    requires m > 0
    ensures (a + 1) % m == if a % m + 1 == m then 0 else a % m + 1
  {
    var q, r := a / m, a % m;
    assert a + 1 == q * m + (r + 1);
    if r + 1 == m {
      assert a + 1 == (q + 1) * m;
      ModUnique(a + 1, m, q + 1, 0);
    } else {
      ModUnique(a + 1, m, q, r + 1);
    }
  }

  lemma ModUnique(a: nat, m: nat, q: nat, r: nat)
    requires m > 0 && r < m && a == q * m + r
    ensures a % m == r
  {
    Multiples(a / m - q, m);
    assert (a / m - q) * m == r - a % m;
  }

  lemma Multiples(d: int, m: nat)
    ensures d >= 1 ==> d * m >= m
    ensures d <= -1 ==> d * m + m <= 0
  {
  }

  function KeyByte(iv: Block, k: Schedule, i: nat): bv8 { Cipher(Counter(iv, i / 16), k)[i % 16] }

  function Ctr(s: seq<bv8>, iv: Block, k: Schedule): seq<bv8> {
    seq(|s|, i requires 0 <= i < |s| => s[i] ^ KeyByte(iv, k, i))
  }

  /** Encryption and decryption are the same operation. */
  lemma {:induction false} CtrTwice(s: seq<bv8>, iv: Block, k: Schedule)
    ensures Ctr(Ctr(s, iv, k), iv, k) == s
  {
    hide KeyByte;
    forall i | 0 <= i < |s|
      ensures Ctr(Ctr(s, iv, k), iv, k)[i] == s[i]
    {
      XorTwice(s[i], KeyByte(iv, k, i));
    }
  }

  /** The keystream is the cipher of the counters, block by block. */
  lemma {:induction false} CtrOfZeros(iv: Block, k: Schedule, n: nat, i: nat)
    requires i < n
    ensures var zeros := seq(16 * n, _ => 0);
            At(Ctr(zeros, iv, k), 16 * i) == Cipher(Counter(iv, i), k)
  {
    hide Cipher, Counter;
    var zeros := seq(16 * n, _ => 0 as bv8);
    var c := At(Ctr(zeros, iv, k), 16 * i);
    forall j | 0 <= j < 16
      ensures c[j] == Cipher(Counter(iv, i), k)[j]
    {
      assert (16 * i + j) / 16 == i && (16 * i + j) % 16 == j;
      ZeroXor(KeyByte(iv, k, 16 * i + j));
    }
  }

  lemma {:induction false} CounterChains(iv: Block, n: nat, m: nat)
    ensures Counter(Counter(iv, n), m) == Counter(iv, n + m)
  {
    if m > 0 { CounterChains(iv, n, m - 1); }
  }

  /**
   Two calls chained through the counter do what one call does on the concatenation, if the first one
   ends at a block boundary; the rest of a keystream block is dropped at the end of every call.
   */
  lemma {:induction false} CtrChains(s: seq<bv8>, t: seq<bv8>, iv: Block, k: Schedule)
    requires WholeBlocks(s)
    ensures Ctr(s + t, iv, k) == Ctr(s, iv, k) + Ctr(t, Counter(iv, |s| / 16), k)
  {
    hide Cipher, Counter;
    forall i | 0 <= i < |t|
      ensures KeyByte(iv, k, |s| + i) == KeyByte(Counter(iv, |s| / 16), k, i)
    {
      assert (|s| + i) / 16 == |s| / 16 + i / 16 && (|s| + i) % 16 == i % 16;
      CounterChains(iv, |s| / 16, i / 16);
    }
    CtrConcat(s, t, iv, Counter(iv, |s| / 16), k);
  }

  lemma CtrConcat(s: seq<bv8>, t: seq<bv8>, iv: Block, iv': Block, k: Schedule)
    requires forall i :: 0 <= i < |t| ==> KeyByte(iv, k, |s| + i) == KeyByte(iv', k, i)
    ensures Ctr(s + t, iv, k) == Ctr(s, iv, k) + Ctr(t, iv', k)
  {
    hide KeyByte;
    var whole := Ctr(s + t, iv, k);
    forall i | 0 <= i < |t|
      ensures whole[|s| + i] == Ctr(t, iv', k)[i]
    {
      assert (s + t)[|s| + i] == t[i];
    }
  }

  // ---- the context and its buffers ----

  lemma CbcEncryptStep(s: seq<bv8>, i: nat, iv: Block, k: Schedule)
    requires WholeBlocks(s) && 16 * i < |s|
    ensures var done := CbcEncrypt(s[..16 * i], iv, k);
            CbcEncrypt(s[..16 * (i + 1)], iv, k) == done + Cipher(XorBlock(At(s, 16 * i), LastBlock(done, iv)), k)
  {
    hide Cipher, XorBlock, LastBlock;
    var b := At(s, 16 * i);
    assert s[..16 * (i + 1)] == s[..16 * i] + b;
    CbcEncryptChains(s[..16 * i], b, iv, k);
    var last := LastBlock(CbcEncrypt(s[..16 * i], iv, k), iv);
    assert b[..16] == b && b[16..] == [];
    assert CbcEncrypt(b, last, k) == Cipher(XorBlock(b, last), k) + [];
  }

  lemma CbcDecryptStep(s: seq<bv8>, i: nat, iv: Block, k: Schedule)
    requires WholeBlocks(s) && 16 * i < |s|
    ensures CbcDecrypt(s[..16 * (i + 1)], iv, k)
         == CbcDecrypt(s[..16 * i], iv, k) + XorBlock(InvCipher(At(s, 16 * i), k), LastBlock(s[..16 * i], iv))
  {
    hide InvCipher, XorBlock, LastBlock;
    var b := At(s, 16 * i);
    assert s[..16 * (i + 1)] == s[..16 * i] + b;
    CbcDecryptChains(s[..16 * i], b, iv, k);
    var last := LastBlock(s[..16 * i], iv);
    assert b[..16] == b && b[16..] == [];
    assert CbcDecrypt(b, last, k) == XorBlock(InvCipher(b, k), last) + [];
  }

  /** XorWithIv: the other block may be an earlier one of the same buffer. */
  method XorWithIv(buf: array<bv8>, off: nat, ivBuf: array<bv8>, ivOff: nat)
    requires off + 16 <= buf.Length && ivOff + 16 <= ivBuf.Length && (buf == ivBuf ==> ivOff + 16 <= off)
    modifies buf
    ensures buf[..] == With(old(buf[..]), off, XorBlock(At(old(buf[..]), off), At(old(ivBuf[..]), ivOff)))
  {
    hide Partly, With;
    ghost var s, z := buf[..], ivBuf[..];
    ghost var b := XorBlock(At(s, off), At(z, ivOff));
    PartlyEnds(s, off, b);
    for i := 0 to 16
      invariant buf[..] == Partly(s, off, b, i)
      invariant ivBuf[ivOff..ivOff + 16] == At(z, ivOff)
    {
      PartlyKeeps(s, off, b, i, i);
      PartlyNext(s, off, b, i);
      assert ivBuf[ivOff + i] == ivBuf[ivOff..ivOff + 16][i];
      buf[off + i] := buf[..][off + i] ^ ivBuf[ivOff + i];
    }
  }

  /** Replacing a block of a buffer whose prefix is done. */
  lemma WithNext(s: seq<bv8>, done: seq<bv8>, off: nat, b: Block)
    requires |done| == off && off + 16 <= |s|
    ensures At(done + s[off..], off) == At(s, off)
    ensures With(done + s[off..], off, b) == done + b + s[off + 16..]
  {
  }

  lemma LastOfPrefix(done: seq<bv8>, rest: seq<bv8>, iv: Block)
    requires WholeBlocks(done) && done != []
    ensures At(done + rest, |done| - 16) == LastBlock(done, iv)
  {
  }

  /** The buffer when its first n blocks are encrypted. */
  ghost predicate EncryptedTo(s: seq<bv8>, n: nat, iv: Block, k: Schedule, t: seq<bv8>) {
    WholeBlocks(s) && 16 * n <= |s| && t == CbcEncrypt(s[..16 * n], iv, k) + s[16 * n..]
  }

  lemma EncryptedNext(s: seq<bv8>, n: nat, iv: Block, k: Schedule, t: seq<bv8>)
    requires EncryptedTo(s, n, iv, k, t) && 16 * n < |s|
    ensures |t| == |s|
    ensures var last := LastBlock(CbcEncrypt(s[..16 * n], iv, k), iv);
            var t' := With(t, 16 * n, Cipher(XorBlock(At(t, 16 * n), last), k));
            && EncryptedTo(s, n + 1, iv, k, t')
            && At(t', 16 * n) == LastBlock(CbcEncrypt(s[..16 * (n + 1)], iv, k), iv)
  {
    hide Cipher, XorBlock, LastBlock, CbcEncrypt, At, With;
    var done, off := CbcEncrypt(s[..16 * n], iv, k), 16 * n;
    var c := Cipher(XorBlock(At(s, off), LastBlock(done, iv)), k);
    CbcEncryptStep(s, n, iv, k);
    WithNext(s, done, off, c);
    LastOfPrefix(done + c, s[off + 16..], iv);
  }

  lemma EncryptedAll(s: seq<bv8>, n: nat, iv: Block, k: Schedule, t: seq<bv8>)
    requires EncryptedTo(s, n, iv, k, t) && 16 * n == |s|
    ensures t == CbcEncrypt(s, iv, k)
  {
    assert s[..16 * n] == s && s[16 * n..] == [];
  }

  /** The buffer when its first n blocks are decrypted. */
  ghost predicate DecryptedTo(s: seq<bv8>, n: nat, iv: Block, k: Schedule, t: seq<bv8>) {
    WholeBlocks(s) && 16 * n <= |s| && t == CbcDecrypt(s[..16 * n], iv, k) + s[16 * n..]
  }

  lemma DecryptedNext(s: seq<bv8>, n: nat, iv: Block, k: Schedule, t: seq<bv8>)
    requires DecryptedTo(s, n, iv, k, t) && 16 * n < |s|
    ensures |t| == |s|
    ensures var last := LastBlock(s[..16 * n], iv);
            && DecryptedTo(s, n + 1, iv, k, With(t, 16 * n, XorBlock(InvCipher(At(t, 16 * n), k), last)))
            && At(t, 16 * n) == LastBlock(s[..16 * (n + 1)], iv)
  {
    hide InvCipher, XorBlock, LastBlock, CbcDecrypt, At, With;
    var done, off := CbcDecrypt(s[..16 * n], iv, k), 16 * n;
    CbcDecryptStep(s, n, iv, k);
    WithNext(s, done, off, XorBlock(InvCipher(At(s, off), k), LastBlock(s[..off], iv)));
    BlockNext(s, off);
    LastOfPrefix(s[..off] + At(s, off), [], iv);
  }

  lemma DecryptedAll(s: seq<bv8>, n: nat, iv: Block, k: Schedule, t: seq<bv8>)
    requires DecryptedTo(s, n, iv, k, t) && 16 * n == |s|
    ensures t == CbcDecrypt(s, iv, k) && s[..16 * n] == s
  {
    assert s[..16 * n] == s && s[16 * n..] == [];
  }

  class Context {
    const roundKey: array<bv8>
    const iv: array<bv8>

    ghost predicate Valid() { roundKey.Length == 176 && iv.Length == 16 && roundKey != iv }

    /** AES_init_ctx_iv. */
    constructor (key: Block, iv: Block)
      ensures Valid() && fresh(this.roundKey) && fresh(this.iv)
      ensures this.roundKey[..] == Expand(key, 44) && this.iv[..] == iv
    {
      this.roundKey := new bv8[176];
      this.iv := new bv8[16](i requires 0 <= i < 16 => iv[i]);
      new;
      KeyExpansion(this.roundKey, key);
      assert this.iv[..] == iv;
    }

    /** One block of AES_CBC_encrypt_buffer. */
    method EncryptChained(buf: array<bv8>, off: nat, ivBuf: array<bv8>, ivOff: nat)
      requires Valid() && buf != roundKey
      requires off + 16 <= buf.Length && ivOff + 16 <= ivBuf.Length && (buf == ivBuf ==> ivOff + 16 <= off)
      modifies buf
      ensures buf[..]
           == With(old(buf[..]), off,
                   Cipher(XorBlock(At(old(buf[..]), off), At(old(ivBuf[..]), ivOff)), roundKey[..]))
    {
      hide Cipher, XorBlock, At, With;
      ghost var s, k := buf[..], roundKey[..];
      ghost var p := XorBlock(At(s, off), At(ivBuf[..], ivOff));
      XorWithIv(buf, off, ivBuf, ivOff);
      WithAt(s, off, p, Cipher(p, k));
      CipherInPlace(buf, off, roundKey[..]);
    }

    /** AES_CBC_encrypt_buffer: each block is chained to the one before it, in the same buffer. */
    method CbcEncryptBuffer(buf: array<bv8>)
      requires Valid() && WholeBlocks(buf[..]) && buf != iv && buf != roundKey
      modifies buf, iv
      ensures buf[..] == CbcEncrypt(old(buf[..]), old(iv[..]), roundKey[..])
      ensures iv[..] == LastBlock(buf[..], old(iv[..]))
    {
      hide Cipher, XorBlock, LastBlock, CbcEncrypt, At, With;
      ghost var s, iv0, k := buf[..], iv[..], roundKey[..];
      var ivBuf, ivOff, n := iv, 0, 0;
      NothingDone(s, iv0, k);
      while 16 * n < buf.Length
        invariant 16 * n <= buf.Length && roundKey[..] == k && iv[..] == iv0 && EncryptedTo(s, n, iv0, k, buf[..])
        invariant if n == 0 then ivBuf == iv && ivOff == 0 else ivBuf == buf && ivOff == 16 * (n - 1)
        invariant At(ivBuf[..], ivOff) == LastBlock(CbcEncrypt(s[..16 * n], iv0, k), iv0)
      {
        var off := 16 * n;
        EncryptedNext(s, n, iv0, k, buf[..]);
        EncryptChained(buf, off, ivBuf, ivOff);
        ivBuf, ivOff, n := buf, off, n + 1;
      }
      assert s[..16 * n] == s;
      EncryptedAll(s, n, iv0, k, buf[..]);
      CopyBlock(iv, ivBuf, ivOff);
    }

    /** AES_CBC_decrypt_buffer. */
    method CbcDecryptBuffer(buf: array<bv8>)
      requires Valid() && WholeBlocks(buf[..]) && buf != iv && buf != roundKey
      modifies buf, iv
      ensures buf[..] == CbcDecrypt(old(buf[..]), old(iv[..]), roundKey[..])
      ensures iv[..] == LastBlock(old(buf[..]), old(iv[..]))
    {
      hide InvCipher, XorBlock, LastBlock, CbcDecrypt, At, With, DecryptedTo;
      ghost var s, iv0, k := buf[..], iv[..], roundKey[..];
      var next, n := new bv8[16], 0;
      NothingDone(s, iv0, k);
      while 16 * n < buf.Length
        invariant 16 * n <= buf.Length && roundKey[..] == k && DecryptedTo(s, n, iv0, k, buf[..])
        invariant iv[..] == LastBlock(s[..16 * n], iv0)
      {
        DecryptedNext(s, n, iv0, k, buf[..]);
        DecryptChained(buf, 16 * n, next);
        n := n + 1;
      }
      DecryptedAll(s, n, iv0, k, buf[..]);
    }

    /** One block of CBC decryption: the block is kept as the next IV before it is deciphered. */
    method DecryptChained(buf: array<bv8>, off: nat, next: array<bv8>)
      requires Valid() && buf != iv && buf != roundKey && off + 16 <= buf.Length
      requires next.Length == 16 && next != buf && next != iv && next != roundKey
      modifies buf, iv, next
      ensures buf[..] == With(old(buf[..]), off, XorBlock(InvCipher(At(old(buf[..]), off), roundKey[..]), old(iv[..])))
      ensures iv[..] == At(old(buf[..]), off) && roundKey[..] == old(roundKey[..])
    {
      hide InvCipher, XorBlock, At, With;
      ghost var t, last := buf[..], iv[..];
      ghost var p := InvCipher(At(t, off), roundKey[..]);
      CopyBlock(next, buf, off);
      InvCipherInPlace(buf, off, roundKey[..]);
      WithAt(t, off, p, XorBlock(p, last));
      WholeAt(iv[..]);
      XorWithIv(buf, off, iv, 0);
      WholeAt(next[..]);
      CopyBlock(iv, next, 0);
    }

    /** The increment loop of AES_CTR_xcrypt_buffer. */
    method IncrementIv()
      requires Valid()
      modifies iv
      ensures iv[..] == Increment(old(iv[..]))
    {
      hide Increment;
      ghost var s := iv[..];
      ghost var zeros: seq<bv8> := [];
      assert s[..16] == s && s + [] == s;
      IncrementCarry(s, 0);
      var bi := 15;
      while bi >= 0
        invariant -1 <= bi <= 15 && |zeros| == 15 - bi && iv[..] == s[..bi + 1] + zeros
        invariant Increment(s) == Increment(s[..bi + 1]) + zeros
      {
        IncrementCarry(s, bi);
        ghost var after := [if s[bi] == 255 then 0 else s[bi] + 1] + zeros;
        if iv[bi] == 255 {
          iv[bi] := 0;
          assert iv[..] == s[..bi] + after;
          assert Increment(s[..bi]) + [0] + zeros == Increment(s[..bi]) + after;
          zeros := after;
        } else {
          iv[bi] := iv[bi] + 1;
          assert iv[..] == s[..bi] + after;
          assert s[..bi] + [s[bi] + 1] + zeros == s[..bi] + after;
          return;
        }
        bi := bi - 1;
      }
    }

    /** The next block of the keystream; the counter is stepped. */
    method NextStream(stream: array<bv8>)
      requires Valid() && stream.Length == 16 && stream != iv && stream != roundKey
      modifies stream, iv
      ensures stream[..] == Cipher(old(iv[..]), roundKey[..]) && iv[..] == Increment(old(iv[..]))
    {
      hide Cipher, Increment, At, With;
      WholeAt(iv[..]);
      CopyBlock(stream, iv, 0);
      WholeStream(stream[..], roundKey[..]);
      CipherInPlace(stream, 0, roundKey[..]);
      IncrementIv();
    }

    /** AES_CTR_xcrypt_buffer: a keystream block is generated at every sixteenth byte, and the counter stepped. */
    method CtrXcryptBuffer(buf: array<bv8>)
      requires Valid() && buf != iv && buf != roundKey
      modifies buf, iv
      ensures buf[..] == Ctr(old(buf[..]), old(iv[..]), roundKey[..])
      ensures iv[..] == Counter(old(iv[..]), (buf.Length + 15) / 16)
    {
      hide Cipher, Counter, Ctr, Increment, KeyByte, Xor, CtrTo;
      ghost var s, iv0, k := buf[..], iv[..], roundKey[..];
      var stream := new bv8[16];
      CtrEnds(s, iv0, k, s);
      CounterNext(iv0, 0);
      var i, bi := 0, 16;
      ghost var blocks: nat := 0;
      while i < buf.Length
        invariant 0 <= i <= buf.Length && roundKey[..] == k
        invariant 0 <= bi <= 16 && i == 16 * blocks - 16 + bi && (blocks > 0 ==> bi > 0)
        invariant iv[..] == Counter(iv0, blocks)
        invariant blocks > 0 ==> stream[..] == Cipher(Counter(iv0, blocks - 1), k)
        invariant CtrTo(s, iv0, k, i, buf[..])
      {
        if bi == 16 {
          CounterNext(iv0, blocks);
          NextStream(stream);
          bi, blocks := 0, blocks + 1;
        }
        CtrNext(s, iv0, k, buf[..], i, blocks - 1, bi);
        buf[i] := Xor(buf[i], stream[..][bi]);
        i, bi := i + 1, bi + 1;
      }
      CtrEnds(s, iv0, k, buf[..]);
      BlocksOf(i, blocks, bi);
    }
  }

  lemma BlockOf(i: nat, q: nat, r: nat)
    requires i == 16 * q + r && r < 16
    ensures i / 16 == q && i % 16 == r
  {
  }

  lemma BlocksOf(i: nat, n: nat, r: nat)
    requires i == 16 * n - 16 + r && r <= 16 && (n > 0 ==> r > 0)
    ensures (i + 15) / 16 == n
  {
  }

  lemma WholeStream(b: Block, k: Schedule)
    ensures At(b, 0) == b && With(b, 0, Cipher(At(b, 0), k)) == Cipher(b, k)
  {
    hide Cipher;
  }

  lemma IncrementCarry(s: seq<bv8>, n: nat)
    requires n < |s|
    ensures s[n] == 255 ==> Increment(s[..n + 1]) == Increment(s[..n]) + [0]
    ensures s[n] != 255 ==> Increment(s[..n + 1]) == s[..n] + [s[n] + 1]
    ensures Increment(s[..0]) == s[..0]
  {
    assert s[..n + 1][..n] == s[..n];
  }

  lemma CounterNext(iv: Block, n: nat)
    ensures Counter(iv, n + 1) == Increment(Counter(iv, n)) && Counter(iv, 0) == iv
  {
  }

  /** The buffer when its first i bytes are done. */
  ghost predicate CtrTo(s: seq<bv8>, iv: Block, k: Schedule, i: nat, t: seq<bv8>) {
    var c := Ctr(s, iv, k);
    i <= |s| && |c| == |s| && t == c[..i] + s[i..]
  }

  /** One more byte, with the keystream byte of block n at hand. */
  lemma CtrNext(s: seq<bv8>, iv: Block, k: Schedule, t: seq<bv8>, i: nat, n: nat, bi: nat)
    requires CtrTo(s, iv, k, i, t) && i < |s| && i == 16 * n + bi && bi < 16
    ensures |t| == |s| && CtrTo(s, iv, k, i + 1, t[i := Xor(t[i], Cipher(Counter(iv, n), k)[bi])])
  {
    hide Cipher, Counter;
    BlockOf(i, n, bi);
    var c := Ctr(s, iv, k);
    assert t[i] == s[i] && c[i] == Xor(s[i], Cipher(Counter(iv, n), k)[bi]);
    assert t[i := c[i]] == c[..i + 1] + s[i + 1..];
  }

  lemma CtrEnds(s: seq<bv8>, iv: Block, k: Schedule, t: seq<bv8>)
    ensures CtrTo(s, iv, k, 0, s)
    ensures CtrTo(s, iv, k, |s|, t) ==> t == Ctr(s, iv, k)
  {
    assert s[|s|..] == [];
  }

  lemma NothingDone(s: seq<bv8>, iv: Block, k: Schedule)
    ensures CbcEncrypt(s[..0], iv, k) == [] && CbcDecrypt(s[..0], iv, k) == [] && LastBlock([], iv) == iv
    ensures At(iv, 0) == iv && LastBlock(s[..0], iv) == iv && [] + s == s
    ensures WholeBlocks(s) ==> EncryptedTo(s, 0, iv, k, s) && DecryptedTo(s, 0, iv, k, s)
  {
  }

  lemma WholeAt(b: Block)
    ensures At(b, 0) == b
  {
  }

  lemma BlockNext(s: seq<bv8>, off: nat)
    requires off + 16 <= |s|
    ensures s[..off + 16] == s[..off] + At(s, off)
    ensures At(s[..off] + At(s, off) + [], |s[..off] + At(s, off)| - 16) == At(s, off)
  {
  }

  /** memcpy of one block. */
  method CopyBlock(dst: array<bv8>, src: array<bv8>, off: nat)
    requires dst.Length == 16 && off + 16 <= src.Length && (dst == src ==> off == 0)
    modifies dst
    ensures dst[..] == At(old(src[..]), off)
  {
    ghost var b := At(src[..], off);
    for i := 0 to 16
      invariant dst[..i] == b[..i] && src[off..off + 16] == b
    {
      assert src[off + i] == src[off..off + 16][i];
      dst[i] := src[off + i];
    }
  }
}
