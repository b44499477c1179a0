/**
 The AES-128 block cipher of harvester/producer-cli/aes.c:242-458, on blocks and in place.
 Byte 4 * c + r of a block is row r of column c of the state; a key schedule is any 176 bytes.
 */
module AesCipher {
  import opened AesField

  type Block = b: seq<bv8> | |b| == 16 witness seq(16, _ => 0)

  type Schedule = k: seq<bv8> | |k| == 176 witness seq(176, _ => 0)

  // ---- the round transformations ----

  function AddRoundKey(b: Block, k: Schedule, round: nat): (r: Block)
    requires round <= 10
  {
    seq(16, i requires 0 <= i < 16 => b[i] ^ k[16 * round + i])
  }

  function SubBytes(b: Block): Block { seq(16, i requires 0 <= i < 16 => SBox(b[i])) }

  function InvSubBytes(b: Block): Block { seq(16, i requires 0 <= i < 16 => InvSBox(b[i])) }

  /** The byte that moves to byte i when row r is rotated left by r columns. */
  function Shifted(i: nat): (j: nat)
    requires i < 16
    ensures j < 16
  {
    (i + 4 * (i % 4)) % 16
  }

  /** The byte that moves to byte i when row r is rotated right by r columns. */
  function Unshifted(i: nat): (j: nat)
    requires i < 16
    ensures j < 16
  {
    (i + 16 - 4 * (i % 4)) % 16
  }

  function ShiftRows(b: Block): Block { seq(16, i requires 0 <= i < 16 => b[Shifted(i)]) }

  function InvShiftRows(b: Block): Block { seq(16, i requires 0 <= i < 16 => b[Unshifted(i)]) }

  /** The byte n rows below byte i in its column. */
  function Below(i: nat, n: nat): (j: nat)
    requires i < 16
    ensures j < 16
  {
    i / 4 * 4 + (i % 4 + n) % 4
  }

  function MixColumns(b: Block): Block {
    seq(16, i requires 0 <= i < 16 => Mix(b[i], b[Below(i, 1)], b[Below(i, 2)], b[Below(i, 3)]))
  }

  function InvMixColumns(b: Block): Block {
    seq(16, i requires 0 <= i < 16 => Unmix(b[i], b[Below(i, 1)], b[Below(i, 2)], b[Below(i, 3)]))
  }

  lemma AddRoundKeyTwice(b: Block, k: Schedule, round: nat)
    requires round <= 10
    ensures AddRoundKey(AddRoundKey(b, k, round), k, round) == b
  {
    forall i | 0 <= i < 16
      ensures AddRoundKey(AddRoundKey(b, k, round), k, round)[i] == b[i]
    {
      XorTwice(b[i], k[16 * round + i]);
    }
  }

  /** Round key r is the r-th block of the schedule. */
  lemma {:induction false} AddedToZero(k: Schedule, round: nat)
    requires round <= 10
    ensures AddRoundKey(seq(16, _ => 0), k, round) == k[16 * round..16 * round + 16]
  {
    var x, p := AddRoundKey(seq(16, _ => 0), k, round), k[16 * round..16 * round + 16];
    forall i | 0 <= i < 16
      ensures x[i] == p[i]
    {
      ZeroXor(p[i]);
    }
  }

  /** It is all a round reads of the schedule, and it reads all of it. */
  lemma {:induction false} AddedExactly(b: Block, k: Schedule, l: Schedule, round: nat)
    requires round <= 10
    ensures AddRoundKey(b, k, round) == AddRoundKey(b, l, round)
       <==> k[16 * round..16 * round + 16] == l[16 * round..16 * round + 16]
  {
    var x, y := AddRoundKey(b, k, round), AddRoundKey(b, l, round);
    var p, q := k[16 * round..16 * round + 16], l[16 * round..16 * round + 16];
    forall i | 0 <= i < 16
      ensures x[i] == y[i] ==> p[i] == q[i]
    {
      XorCancels(b[i], p[i], q[i]);
    }
  }

  lemma ZeroXor(x: bv8)
    ensures 0 ^ x == x
  {
  }

  lemma XorCancels(b: bv8, x: bv8, y: bv8)
    ensures b ^ x == b ^ y <==> x == y
  {
    XorTwice(x, b);
    XorTwice(y, b);
  }

  lemma XorTwice(x: bv8, y: bv8)
    ensures x ^ y ^ y == x
  {
  }

  lemma SubBytesInverse(b: Block)
    ensures InvSubBytes(SubBytes(b)) == b
  {
    hide SBox, InvSBox;
    forall i | 0 <= i < 16
      ensures InvSubBytes(SubBytes(b))[i] == b[i]
    {
      SBoxInverse(b[i]);
    }
  }

  lemma {:induction false} ShiftRowsInverse(b: Block)
    ensures InvShiftRows(ShiftRows(b)) == b
  {
    hide Shifted, Unshifted;
    forall i | 0 <= i < 16
      ensures InvShiftRows(ShiftRows(b))[i] == b[i]
    {
      ShiftedBack(i);
    }
  }

  lemma ShiftedBack(i: nat)
    requires i < 16
    ensures Shifted(Unshifted(i)) == i
  {
    var j := Unshifted(i);
    assert j % 4 == i % 4;
  }

  lemma MixColumnsInverse(b: Block)
    ensures InvMixColumns(MixColumns(b)) == b
  {
    hide MixColumns, InvMixColumns;
    forall i | 0 <= i < 16
      ensures InvMixColumns(MixColumns(b))[i] == b[i]
    {
      UnmixedAt(b, i);
    }
  }

  lemma MixedAt(b: Block, i: nat)
    requires i < 16
    ensures MixColumns(b)[i] == Mix(b[i], b[Below(i, 1)], b[Below(i, 2)], b[Below(i, 3)])
    ensures InvMixColumns(b)[i] == Unmix(b[i], b[Below(i, 1)], b[Below(i, 2)], b[Below(i, 3)])
  {
  }

  lemma UnmixedAt(b: Block, i: nat)
    requires i < 16
    ensures InvMixColumns(MixColumns(b))[i] == b[i]
  {
    hide Mix, Unmix, Below, MixColumns, InvMixColumns;
    var (p, q, r) := (Below(i, 1), Below(i, 2), Below(i, 3));
    MixedAt(MixColumns(b), i);
    MixedAt(b, i);
    MixedAt(b, p);
    MixedAt(b, q);
    MixedAt(b, r);
    Cycle(i);
    MixInverse(b[i], b[p], b[q], b[r]);
  }

  lemma BelowBelow(i: nat, n: nat, m: nat)
    requires i < 16
    ensures Below(Below(i, n), m) == Below(i, n + m)
  {
    var j := Below(i, n);
    assert j / 4 == i / 4 && j % 4 == (i % 4 + n) % 4;
    assert ((i % 4 + n) % 4 + m) % 4 == (i % 4 + n + m) % 4;
  }

  lemma BelowFour(i: nat)
    requires i < 16
    ensures Below(i, 4) == i && Below(i, 5) == Below(i, 1) && Below(i, 6) == Below(i, 2)
  {
  }

  /** Four steps down a column lead back. */
  lemma Cycle(i: nat)
    requires i < 16
    ensures var (p, q, r) := (Below(i, 1), Below(i, 2), Below(i, 3));
            && Below(p, 1) == q && Below(p, 2) == r && Below(p, 3) == i
            && Below(q, 1) == r && Below(q, 2) == i && Below(q, 3) == p
            && Below(r, 1) == i && Below(r, 2) == p && Below(r, 3) == q
  {
    hide Below;
    BelowFour(i);
    BelowBelow(i, 1, 1);
    BelowBelow(i, 1, 2);
    BelowBelow(i, 1, 3);
    BelowBelow(i, 2, 1);
    BelowBelow(i, 2, 2);
    BelowBelow(i, 2, 3);
    BelowBelow(i, 3, 1);
    BelowBelow(i, 3, 2);
    BelowBelow(i, 3, 3);
  }

  // ---- the cipher ----

  /** The state after the whitening and the first r full rounds. */
  function Rounds(b: Block, k: Schedule, r: nat): Block
    requires r <= 9
  {
    if r == 0 then AddRoundKey(b, k, 0)
    else AddRoundKey(MixColumns(ShiftRows(SubBytes(Rounds(b, k, r - 1)))), k, r)
  }

  /** Cipher: nine full rounds and a last one without mixing. */
  function Cipher(b: Block, k: Schedule): Block {
    AddRoundKey(ShiftRows(SubBytes(Rounds(b, k, 9))), k, 10)
  }

  /** The inverse rounds from round key r down to zero. */
  function Unwind(b: Block, k: Schedule, r: nat): Block
    requires r <= 9
    decreases r
  {
    var s := AddRoundKey(InvSubBytes(InvShiftRows(b)), k, r);
    if r == 0 then s else Unwind(InvMixColumns(s), k, r - 1)
  }

  function InvCipher(b: Block, k: Schedule): Block { Unwind(AddRoundKey(b, k, 10), k, 9) }

  lemma {:induction false} UnwindRounds(b: Block, k: Schedule, r: nat)
    requires r <= 9
    ensures Unwind(ShiftRows(SubBytes(Rounds(b, k, r))), k, r) == b
  {
    hide AddRoundKey, SubBytes, InvSubBytes, ShiftRows, InvShiftRows, MixColumns, InvMixColumns;
    var s := Rounds(b, k, r);
    ShiftRowsInverse(SubBytes(s));
    SubBytesInverse(s);
    if r == 0 {
      AddRoundKeyTwice(b, k, 0);
    } else {
      var t := ShiftRows(SubBytes(Rounds(b, k, r - 1)));
      AddRoundKeyTwice(MixColumns(t), k, r);
      MixColumnsInverse(t);
      UnwindRounds(b, k, r - 1);
    }
  }

  /** The inverse cipher undoes the cipher on every block, whatever the key schedule holds. */
  lemma {:induction false} CipherInverse(b: Block, k: Schedule)
    ensures InvCipher(Cipher(b, k), k) == b
  {
    hide AddRoundKey, SubBytes, ShiftRows, Rounds, Unwind;
    AddRoundKeyTwice(ShiftRows(SubBytes(Rounds(b, k, 9))), k, 10);
    UnwindRounds(b, k, 9);
  }

  // ---- in place ----

  /** The block at an offset of a buffer. */
  function At(s: seq<bv8>, off: nat): Block
    requires off + 16 <= |s|
  {
    s[off..off + 16]
  }

  /** The buffer with the block at an offset replaced. */
  function With(s: seq<bv8>, off: nat, b: Block): (r: seq<bv8>)
    requires off + 16 <= |s|
    ensures |r| == |s|
  {
    s[..off] + b + s[off + 16..]
  }

  lemma WithAt(s: seq<bv8>, off: nat, b: Block, c: Block)
    requires off + 16 <= |s|
    ensures At(With(s, off, b), off) == b && With(With(s, off, b), off, c) == With(s, off, c)
    ensures With(s, off, At(s, off)) == s
  {
  }

  /** The buffer with the first n bytes of the block at an offset replaced. */
  function Partly(s: seq<bv8>, off: nat, b: Block, n: nat): (r: seq<bv8>)
    requires off + 16 <= |s| && n <= 16
    ensures |r| == |s|
  {
    s[..off] + b[..n] + s[off + n..]
  }

  lemma PartlyNext(s: seq<bv8>, off: nat, b: Block, n: nat)
    requires off + 16 <= |s| && n < 16
    ensures Partly(s, off, b, n)[off + n := b[n]] == Partly(s, off, b, n + 1)
  {
  }

  lemma PartlyKeeps(s: seq<bv8>, off: nat, b: Block, n: nat, i: nat)
    requires off + 16 <= |s| && n <= i < 16
    ensures Partly(s, off, b, n)[off + i] == s[off + i] == At(s, off)[i]
  {
  }

  lemma PartlyEnds(s: seq<bv8>, off: nat, b: Block)
    requires off + 16 <= |s|
    ensures Partly(s, off, b, 0) == s && Partly(s, off, b, 16) == With(s, off, b)
  {
  }

  lemma Four(s: seq<bv8>, off: nat, b: Block, n: nat)
    requires off + 16 <= |s| && n + 4 <= 16
    ensures Partly(s, off, b, n)
            [off + n := b[n]][off + n + 1 := b[n + 1]][off + n + 2 := b[n + 2]][off + n + 3 := b[n + 3]]
         == Partly(s, off, b, n + 4)
  {
    hide Partly;
    PartlyNext(s, off, b, n);
    PartlyNext(s, off, b, n + 1);
    PartlyNext(s, off, b, n + 2);
    PartlyNext(s, off, b, n + 3);
  }

  method AddRoundKeyInPlace(buf: array<bv8>, off: nat, round: nat, k: Schedule)
    requires off + 16 <= buf.Length && round <= 10
    modifies buf
    ensures buf[..] == With(old(buf[..]), off, AddRoundKey(At(old(buf[..]), off), k, round))
  {
    hide Partly, With;
    ghost var s := buf[..];
    ghost var b := AddRoundKey(At(s, off), k, round);
    PartlyEnds(s, off, b);
    for i := 0 to 16
      invariant buf[..] == Partly(s, off, b, i)
    {
      PartlyKeeps(s, off, b, i, i);
      PartlyNext(s, off, b, i);
      buf[off + i] := buf[..][off + i] ^ k[16 * round + i];
    }
  }

  method SubBytesInPlace(buf: array<bv8>, off: nat)
    requires off + 16 <= buf.Length
    modifies buf
    ensures buf[..] == With(old(buf[..]), off, SubBytes(At(old(buf[..]), off)))
  {
    hide Partly, With, SBox;
    ghost var s := buf[..];
    ghost var b := SubBytes(At(s, off));
    PartlyEnds(s, off, b);
    for i := 0 to 16
      invariant buf[..] == Partly(s, off, b, i)
    {
      PartlyKeeps(s, off, b, i, i);
      PartlyNext(s, off, b, i);
      buf[off + i] := SBox(buf[..][off + i]);
    }
  }

  method InvSubBytesInPlace(buf: array<bv8>, off: nat)
    requires off + 16 <= buf.Length
    modifies buf
    ensures buf[..] == With(old(buf[..]), off, InvSubBytes(At(old(buf[..]), off)))
  {
    hide Partly, With, InvSBox;
    ghost var s := buf[..];
    ghost var b := InvSubBytes(At(s, off));
    PartlyEnds(s, off, b);
    for i := 0 to 16
      invariant buf[..] == Partly(s, off, b, i)
    {
      PartlyKeeps(s, off, b, i, i);
      PartlyNext(s, off, b, i);
      buf[off + i] := InvSBox(buf[..][off + i]);
    }
  }

  /** One row rotated left by n columns. */
  function RotateRow(b: Block, row: nat, n: nat): Block {
    seq(16, i requires 0 <= i < 16 => if i % 4 == row then b[(i + 4 * n) % 16] else b[i])
  }

  lemma RotateAt(b: Block, row: nat, n: nat, i: nat)
    requires i < 16
    ensures RotateRow(b, row, n)[i] == if i % 4 == row then b[(i + 4 * n) % 16] else b[i]
  {
  }

  /** A byte is moved by the rotation of its own row alone. */
  lemma RowShift(b: Block, i: nat)
    requires i < 16
    ensures ShiftRows(b)[i] == RotateRow(RotateRow(RotateRow(b, 1, 1), 2, 2), 3, 3)[i]
  {
    hide RotateRow;
    var c := RotateRow(b, 1, 1);
    var d := RotateRow(c, 2, 2);
    var j := Shifted(i);
    assert j % 4 == i % 4;
    RotateAt(d, 3, 3, i);
    RotateAt(c, 2, 2, if i % 4 == 3 then j else i);
    RotateAt(b, 1, 1, if i % 4 == 1 then i else j);
  }

  /** A byte is moved by the rotation of its own row alone. */
  lemma RowUnshift(b: Block, i: nat)
    requires i < 16
    ensures InvShiftRows(b)[i] == RotateRow(RotateRow(RotateRow(b, 1, 3), 2, 2), 3, 1)[i]
  {
    hide RotateRow;
    var c := RotateRow(b, 1, 3);
    var d := RotateRow(c, 2, 2);
    var j := Unshifted(i);
    assert j % 4 == i % 4;
    RotateAt(d, 3, 1, i);
    RotateAt(c, 2, 2, if i % 4 == 3 then j else i);
    RotateAt(b, 1, 3, if i % 4 == 1 then i else j);
  }

  lemma {:induction false} RowByRow(b: Block)
    ensures ShiftRows(b) == RotateRow(RotateRow(RotateRow(b, 1, 1), 2, 2), 3, 3)
    ensures InvShiftRows(b) == RotateRow(RotateRow(RotateRow(b, 1, 3), 2, 2), 3, 1)
  {
    hide ShiftRows, InvShiftRows, RotateRow;
    var c := RotateRow(RotateRow(RotateRow(b, 1, 1), 2, 2), 3, 3);
    var d := RotateRow(RotateRow(RotateRow(b, 1, 3), 2, 2), 3, 1);
    forall i | 0 <= i < 16
      ensures ShiftRows(b)[i] == c[i] && InvShiftRows(b)[i] == d[i]
    {
      RowShift(b, i);
      RowUnshift(b, i);
    }
  }

  /** A buffer changed in the block at off only. */
  lemma Assemble(s: seq<bv8>, t: seq<bv8>, off: nat, b: Block)
    requires off + 16 <= |s| == |t|
    requires forall i :: 0 <= i < off || off + 16 <= i < |s| ==> t[i] == s[i]
    requires forall i :: off <= i < off + 16 ==> t[i] == b[i - off]
    ensures t == With(s, off, b)
  {
  }

  /** The four bytes of a row. */
  lemma RowBytes(row: nat, i: nat)
    requires row < 4 && i < 16
    ensures i % 4 == row <==> i == row || i == row + 4 || i == row + 8 || i == row + 12
  {
  }

  /** The rotated row, given the four bytes that now stand in it. */
  lemma RowRotated(s: seq<bv8>, t: seq<bv8>, off: nat, row: nat, n: nat)
    requires off + 16 <= |s| && row < 4 && 1 <= n <= 3 && |t| == 4
    requires forall j :: 0 <= j < 4 ==> t[j] == s[off + row + 4 * ((j + n) % 4)]
    ensures s[off + row := t[0]][off + row + 4 := t[1]][off + row + 8 := t[2]][off + row + 12 := t[3]]
         == With(s, off, RotateRow(At(s, off), row, n))
  {
    hide With, RotateRow;
    var u := s[off + row := t[0]][off + row + 4 := t[1]][off + row + 8 := t[2]][off + row + 12 := t[3]];
    var b := RotateRow(At(s, off), row, n);
    forall i | off <= i < off + 16
      ensures u[i] == b[i - off]
    {
      RowBytes(row, i - off);
      RotateAt(At(s, off), row, n, i - off);
    }
    Assemble(s, u, off, b);
  }

  method RotateLeft(buf: array<bv8>, off: nat, row: nat)
    requires off + 16 <= buf.Length && row < 4
    modifies buf
    ensures buf[..] == With(old(buf[..]), off, RotateRow(At(old(buf[..]), off), row, 1))
  {
    hide With, RotateRow;
    ghost var s := buf[..];
    var temp := buf[off + row];
    buf[off + row] := buf[off + row + 4];
    buf[off + row + 4] := buf[off + row + 8];
    buf[off + row + 8] := buf[off + row + 12];
    buf[off + row + 12] := temp;
    ghost var t := [s[off + row + 4], s[off + row + 8], s[off + row + 12], s[off + row]];
    assert buf[..] == s[off + row := t[0]][off + row + 4 := t[1]][off + row + 8 := t[2]][off + row + 12 := t[3]];
    RowRotated(s, t, off, row, 1);
  }

  method RotateTwice(buf: array<bv8>, off: nat, row: nat)
    requires off + 16 <= buf.Length && row < 4
    modifies buf
    ensures buf[..] == With(old(buf[..]), off, RotateRow(At(old(buf[..]), off), row, 2))
  {
    hide With, RotateRow;
    ghost var s := buf[..];
    var temp := buf[off + row];
    buf[off + row] := buf[off + row + 8];
    buf[off + row + 8] := temp;
    temp := buf[off + row + 4];
    buf[off + row + 4] := buf[off + row + 12];
    buf[off + row + 12] := temp;
    ghost var t := [s[off + row + 8], s[off + row + 12], s[off + row], s[off + row + 4]];
    assert buf[..] == s[off + row := t[0]][off + row + 4 := t[1]][off + row + 8 := t[2]][off + row + 12 := t[3]];
    RowRotated(s, t, off, row, 2);
  }

  method RotateRight(buf: array<bv8>, off: nat, row: nat)
    requires off + 16 <= buf.Length && row < 4
    modifies buf
    ensures buf[..] == With(old(buf[..]), off, RotateRow(At(old(buf[..]), off), row, 3))
  {
    hide With, RotateRow;
    ghost var s := buf[..];
    var temp := buf[off + row + 12];
    buf[off + row + 12] := buf[off + row + 8];
    buf[off + row + 8] := buf[off + row + 4];
    buf[off + row + 4] := buf[off + row];
    buf[off + row] := temp;
    ghost var t := [s[off + row + 12], s[off + row], s[off + row + 4], s[off + row + 8]];
    assert buf[..] == s[off + row := t[0]][off + row + 4 := t[1]][off + row + 8 := t[2]][off + row + 12 := t[3]];
    RowRotated(s, t, off, row, 3);
  }

  method ShiftRowsInPlace(buf: array<bv8>, off: nat)
    requires off + 16 <= buf.Length
    modifies buf
    ensures buf[..] == With(old(buf[..]), off, ShiftRows(At(old(buf[..]), off)))
  {
    hide With, RotateRow, ShiftRows, InvShiftRows, At;
    ghost var s := buf[..];
    RotateLeft(buf, off, 1);
    RotateTwice(buf, off, 2);
    RotateRight(buf, off, 3);
    ghost var b := RotateRow(At(s, off), 1, 1);
    WithAt(s, off, b, RotateRow(b, 2, 2));
    WithAt(s, off, RotateRow(b, 2, 2), RotateRow(RotateRow(b, 2, 2), 3, 3));
    RowByRow(At(s, off));
  }

  method InvShiftRowsInPlace(buf: array<bv8>, off: nat)
    requires off + 16 <= buf.Length
    modifies buf
    ensures buf[..] == With(old(buf[..]), off, InvShiftRows(At(old(buf[..]), off)))
  {
    hide With, RotateRow, ShiftRows, InvShiftRows, At;
    ghost var s := buf[..];
    RotateRight(buf, off, 1);
    RotateTwice(buf, off, 2);
    RotateLeft(buf, off, 3);
    ghost var b := RotateRow(At(s, off), 1, 3);
    WithAt(s, off, b, RotateRow(b, 2, 2));
    WithAt(s, off, RotateRow(b, 2, 2), RotateRow(RotateRow(b, 2, 2), 3, 1));
    RowByRow(At(s, off));
  }

  /** The sum of a column does not depend on the row it starts at. */
  lemma Turn(a: bv8, b: bv8, c: bv8, d: bv8)
    ensures a ^ b ^ c ^ d == b ^ c ^ d ^ a == c ^ d ^ a ^ b == d ^ a ^ b ^ c
  {
  }

  lemma SumTurns(a: bv8, b: bv8, c: bv8, d: bv8)
    ensures Xor4(a, b, c, d) == Xor4(b, c, d, a) == Xor4(c, d, a, b) == Xor4(d, a, b, c)
  {
    hide Xor4, Xor;
    Rotate(a, b, c, d);
    Rotate(b, c, d, a);
    Rotate(c, d, a, b);
  }

  /** A byte of a column as the loop of MixColumns computes it, with the sum of the column. */
  function MixByte(a: bv8, b: bv8, sum: bv8): bv8 { a ^ (XTime(a ^ b) ^ sum) }

  lemma MixWithSum(a: bv8, b: bv8, c: bv8, d: bv8)
    ensures MixByte(a, b, Xor4(a, b, c, d)) == Mix(a, b, c, d)
  {
    hide XTime, Xor4;
    XorBytes(a, b, c, d);
  }

  lemma UnmixFrom(a: bv8, b: bv8, c: bv8, d: bv8)
    ensures Multiply(a, 0x09) ^ Multiply(b, 0x0e) ^ Multiply(c, 0x0b) ^ Multiply(d, 0x0d) == Unmix(b, c, d, a)
  {
    hide Multiply;
    Turn(Multiply(a, 0x09), Multiply(b, 0x0e), Multiply(c, 0x0b), Multiply(d, 0x0d));
  }

  lemma UnmixFrom2(a: bv8, b: bv8, c: bv8, d: bv8)
    ensures Multiply(a, 0x0d) ^ Multiply(b, 0x09) ^ Multiply(c, 0x0e) ^ Multiply(d, 0x0b) == Unmix(c, d, a, b)
  {
    hide Multiply;
    Turn(Multiply(a, 0x0d), Multiply(b, 0x09), Multiply(c, 0x0e), Multiply(d, 0x0b));
  }

  lemma UnmixFrom3(a: bv8, b: bv8, c: bv8, d: bv8)
    ensures Multiply(a, 0x0b) ^ Multiply(b, 0x0d) ^ Multiply(c, 0x09) ^ Multiply(d, 0x0e) == Unmix(d, a, b, c)
  {
    hide Multiply;
    Turn(Multiply(a, 0x0b), Multiply(b, 0x0d), Multiply(c, 0x09), Multiply(d, 0x0e));
  }

  /** A mixed column in terms of the column. */
  lemma Column(b: Block, i: nat)
    requires i < 4
    ensures var m := MixColumns(b); var (p, q, r, s) := (b[4 * i], b[4 * i + 1], b[4 * i + 2], b[4 * i + 3]);
            && m[4 * i] == Mix(p, q, r, s) && m[4 * i + 1] == Mix(q, r, s, p)
            && m[4 * i + 2] == Mix(r, s, p, q) && m[4 * i + 3] == Mix(s, p, q, r)
    ensures var u := InvMixColumns(b); var (p, q, r, s) := (b[4 * i], b[4 * i + 1], b[4 * i + 2], b[4 * i + 3]);
            && u[4 * i] == Unmix(p, q, r, s) && u[4 * i + 1] == Unmix(q, r, s, p)
            && u[4 * i + 2] == Unmix(r, s, p, q) && u[4 * i + 3] == Unmix(s, p, q, r)
  {
    hide MixColumns, InvMixColumns, Mix, Unmix, Below;
    MixedAt(b, 4 * i + 0);
    MixedAt(b, 4 * i + 1);
    MixedAt(b, 4 * i + 2);
    MixedAt(b, 4 * i + 3);
    ColumnIndex(i);
  }

  lemma ColumnIndex(i: nat)
    requires i < 4
    ensures Below(4 * i + 0, 1) == 4 * i + 1 && Below(4 * i + 0, 2) == 4 * i + 2 && Below(4 * i + 0, 3) == 4 * i + 3
            && Below(4 * i + 1, 1) == 4 * i + 2 && Below(4 * i + 1, 2) == 4 * i + 3 && Below(4 * i + 1, 3) == 4 * i + 0
            && Below(4 * i + 2, 1) == 4 * i + 3 && Below(4 * i + 2, 2) == 4 * i + 0 && Below(4 * i + 2, 3) == 4 * i + 1
            && Below(4 * i + 3, 1) == 4 * i + 0 && Below(4 * i + 3, 2) == 4 * i + 1 && Below(4 * i + 3, 3) == 4 * i + 2
  {
    hide Below;
    BelowIs(i, 0, 1);
    BelowIs(i, 0, 2);
    BelowIs(i, 0, 3);
    BelowIs(i, 1, 1);
    BelowIs(i, 1, 2);
    BelowIs(i, 1, 3);
    BelowIs(i, 2, 1);
    BelowIs(i, 2, 2);
    BelowIs(i, 2, 3);
    BelowIs(i, 3, 1);
    BelowIs(i, 3, 2);
    BelowIs(i, 3, 3);
  }

  lemma BelowIs(i: nat, j: nat, n: nat)
    requires i < 4 && j < 4
    ensures Below(4 * i + j, n) == 4 * i + (j + n) % 4
  {
    assert (4 * i + j) / 4 == i && (4 * i + j) % 4 == j;
  }

  /** One turn of the loop of MixColumns. */
  method MixColumnInPlace(buf: array<bv8>, o: nat)
    requires o + 4 <= buf.Length
    modifies buf
    ensures var s := old(buf[..]); var (p, q, r, z) := (s[o], s[o + 1], s[o + 2], s[o + 3]);
            buf[..]
            == s[o := Mix(p, q, r, z)][o + 1 := Mix(q, r, z, p)][o + 2 := Mix(r, z, p, q)][o + 3 := Mix(z, p, q, r)]
  {
    hide Mix, MixByte, Xor4;
    var t := buf[o];
    ghost var (q, r, z) := (buf[o + 1], buf[o + 2], buf[o + 3]);
    var sum := Xor4(buf[o], buf[o + 1], buf[o + 2], buf[o + 3]);
    SumTurns(t, q, r, z);
    MixWithSum(t, q, r, z);
    MixWithSum(q, r, z, t);
    MixWithSum(r, z, t, q);
    MixWithSum(z, t, q, r);
    buf[o] := MixByte(buf[o], buf[o + 1], sum);
    buf[o + 1] := MixByte(buf[o + 1], buf[o + 2], sum);
    buf[o + 2] := MixByte(buf[o + 2], buf[o + 3], sum);
    buf[o + 3] := MixByte(buf[o + 3], t, sum);
  }

  lemma ColumnKept(s: seq<bv8>, off: nat, b: Block, i: nat)
    requires off + 16 <= |s| && i < 4
    ensures var (t, u, o) := (Partly(s, off, b, 4 * i), At(s, off), off + 4 * i);
            t[o] == u[4 * i] && t[o + 1] == u[4 * i + 1] && t[o + 2] == u[4 * i + 2] && t[o + 3] == u[4 * i + 3]
  {
  }

  /** One more column of the block is mixed. */
  lemma MixStep(s: seq<bv8>, off: nat, i: nat)
    requires off + 16 <= |s| && i < 4
    ensures var (b, o) := (MixColumns(At(s, off)), off + 4 * i); var t := Partly(s, off, b, 4 * i);
            var (p, q, r, z) := (t[o], t[o + 1], t[o + 2], t[o + 3]);
            t[o := Mix(p, q, r, z)][o + 1 := Mix(q, r, z, p)][o + 2 := Mix(r, z, p, q)][o + 3 := Mix(z, p, q, r)]
            == Partly(s, off, b, 4 * (i + 1))
  {
    hide MixColumns, InvMixColumns, Mix, Unmix, Partly, At;
    var b := MixColumns(At(s, off));
    ColumnKept(s, off, b, i);
    Column(At(s, off), i);
    Four(s, off, b, 4 * i);
  }

  lemma UnmixStep(s: seq<bv8>, off: nat, i: nat)
    requires off + 16 <= |s| && i < 4
    ensures var (b, o) := (InvMixColumns(At(s, off)), off + 4 * i); var t := Partly(s, off, b, 4 * i);
            var (p, q, r, z) := (t[o], t[o + 1], t[o + 2], t[o + 3]);
            t[o := Unmix(p, q, r, z)][o + 1 := Unmix(q, r, z, p)]
             [o + 2 := Unmix(r, z, p, q)][o + 3 := Unmix(z, p, q, r)]
            == Partly(s, off, b, 4 * (i + 1))
  {
    hide MixColumns, InvMixColumns, Mix, Unmix, Partly, At;
    var b := InvMixColumns(At(s, off));
    ColumnKept(s, off, b, i);
    Column(At(s, off), i);
    Four(s, off, b, 4 * i);
  }

  method MixColumnsInPlace(buf: array<bv8>, off: nat)
    requires off + 16 <= buf.Length
    modifies buf
    ensures buf[..] == With(old(buf[..]), off, MixColumns(At(old(buf[..]), off)))
  {
    hide MixColumns, Mix, Partly, With, At, XTime;
    ghost var s := buf[..];
    ghost var b := MixColumns(At(s, off));
    PartlyEnds(s, off, b);
    for i := 0 to 4
      invariant buf[..] == Partly(s, off, b, 4 * i)
    {
      MixStep(s, off, i);
      MixColumnInPlace(buf, off + 4 * i);
    }
  }

  method InvMixColumnsInPlace(buf: array<bv8>, off: nat)
    requires off + 16 <= buf.Length
    modifies buf
    ensures buf[..] == With(old(buf[..]), off, InvMixColumns(At(old(buf[..]), off)))
  {
    hide InvMixColumns, MixColumns, Unmix, Mix, Partly, With, At, Multiply;
    ghost var z := buf[..];
    ghost var inv := InvMixColumns(At(z, off));
    PartlyEnds(z, off, inv);
    for i := 0 to 4
      invariant buf[..] == Partly(z, off, inv, 4 * i)
    {
      UnmixStep(z, off, i);
      UnmixColumnInPlace(buf, off + 4 * i);
    }
  }

  /** One turn of the loop of InvMixColumns. */
  method UnmixColumnInPlace(buf: array<bv8>, o: nat)
    requires o + 4 <= buf.Length
    modifies buf
    ensures var s := old(buf[..]); var (p, q, r, z) := (s[o], s[o + 1], s[o + 2], s[o + 3]);
            buf[..] == s[o := Unmix(p, q, r, z)][o + 1 := Unmix(q, r, z, p)]
                        [o + 2 := Unmix(r, z, p, q)][o + 3 := Unmix(z, p, q, r)]
  {
    hide Unmix, Multiply;
    var (a, b, c, d) := (buf[o], buf[o + 1], buf[o + 2], buf[o + 3]);
    var (p, q, r, z) := UnmixedColumn(a, b, c, d);
    buf[o] := p;
    buf[o + 1] := q;
    buf[o + 2] := r;
    buf[o + 3] := z;
  }

  /** The four sums of products that InvMixColumns writes. */
  function UnmixedColumn(a: bv8, b: bv8, c: bv8, d: bv8): (r: (bv8, bv8, bv8, bv8))
    ensures r == (Unmix(a, b, c, d), Unmix(b, c, d, a), Unmix(c, d, a, b), Unmix(d, a, b, c))
  {
    hide Multiply;
    UnmixFrom(a, b, c, d);
    UnmixFrom2(a, b, c, d);
    UnmixFrom3(a, b, c, d);
    (Multiply(a, 0x0e) ^ Multiply(b, 0x0b) ^ Multiply(c, 0x0d) ^ Multiply(d, 0x09),
     Multiply(a, 0x09) ^ Multiply(b, 0x0e) ^ Multiply(c, 0x0b) ^ Multiply(d, 0x0d),
     Multiply(a, 0x0d) ^ Multiply(b, 0x09) ^ Multiply(c, 0x0e) ^ Multiply(d, 0x0b),
     Multiply(a, 0x0b) ^ Multiply(b, 0x0d) ^ Multiply(c, 0x09) ^ Multiply(d, 0x0e))
  }

  method CipherInPlace(buf: array<bv8>, off: nat, k: Schedule)
    requires off + 16 <= buf.Length
    modifies buf
    ensures buf[..] == With(old(buf[..]), off, Cipher(At(old(buf[..]), off), k))
  {
    hide AddRoundKey, SubBytes, ShiftRows, MixColumns, With, At;
    ghost var s := buf[..];
    ghost var b := At(s, off);
    AddRoundKeyInPlace(buf, off, 0, k);
    var round := 1;
    while true
      invariant 1 <= round <= 10 && buf[..] == With(s, off, Rounds(b, k, round - 1))
      decreases 10 - round
    {
      ghost var t := Rounds(b, k, round - 1);
      SubBytesInPlace(buf, off);
      WithAt(s, off, t, SubBytes(t));
      ShiftRowsInPlace(buf, off);
      WithAt(s, off, SubBytes(t), ShiftRows(SubBytes(t)));
      ghost var u := ShiftRows(SubBytes(t));
      if round == 10 {
        AddRoundKeyInPlace(buf, off, 10, k);
        WithAt(s, off, u, AddRoundKey(u, k, 10));
        return;
      }
      MixColumnsInPlace(buf, off);
      WithAt(s, off, u, MixColumns(u));
      AddRoundKeyInPlace(buf, off, round, k);
      WithAt(s, off, MixColumns(u), AddRoundKey(MixColumns(u), k, round));
      round := round + 1;
    }
  }

  method InvCipherInPlace(buf: array<bv8>, off: nat, k: Schedule)
    requires off + 16 <= buf.Length
    modifies buf
    ensures buf[..] == With(old(buf[..]), off, InvCipher(At(old(buf[..]), off), k))
  {
    hide AddRoundKey, InvSubBytes, InvShiftRows, InvMixColumns, With, At;
    ghost var s := buf[..];
    ghost var b := At(s, off);
    AddRoundKeyInPlace(buf, off, 10, k);
    ghost var t := AddRoundKey(b, k, 10);
    var round := 9;
    while true
      invariant 0 <= round <= 9 && buf[..] == With(s, off, t) && Unwind(t, k, round) == InvCipher(b, k)
      decreases round
    {
      InvShiftRowsInPlace(buf, off);
      WithAt(s, off, t, InvShiftRows(t));
      t := InvShiftRows(t);
      InvSubBytesInPlace(buf, off);
      WithAt(s, off, t, InvSubBytes(t));
      t := InvSubBytes(t);
      AddRoundKeyInPlace(buf, off, round, k);
      WithAt(s, off, t, AddRoundKey(t, k, round));
      t := AddRoundKey(t, k, round);
      if round == 0 { return; }
      InvMixColumnsInPlace(buf, off);
      WithAt(s, off, t, InvMixColumns(t));
      t := InvMixColumns(t);
      round := round - 1;
    }
  }
}
