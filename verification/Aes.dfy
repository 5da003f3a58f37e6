/**
 AES-128 as the pure Python code runs it, in place on a 16-byte state, and CTR
 mode on top of it.
 */
module Aes {
  import opened Json
  import opened Galois

  type State = s: Bytes | |s| == 16 witness seq(16, i => 0)

  // ----- The cipher of FIPS 197 ---------------------------------------------

  /** Section 5.1.1. */
  function SubBytes(s: State): State {
    seq(16, i requires 0 <= i < 16 => SBOX[s[i] as int])
  }

  /** Section 5.1.2: byte i is in row i % 4, and row r moves r columns to the left. */
  function ShiftRows(s: State): State {
    seq(16, i requires 0 <= i < 16 => s[(i + 4 * (i % 4)) % 16])
  }

  /** The matrix of section 5.1.3: each row is 02 03 01 01, shifted right by its number. */
  function Coefficient(row: nat, column: nat): bv8
    requires row < 4 && column < 4
  {
    if column == row then 2 else if column == (row + 1) % 4 then 3 else 1
  }

  function Sum(a: bv8, b: bv8, c: bv8, d: bv8): bv8 {
    a ^ b ^ c ^ d
  }

  /** One byte of the product of the matrix and a column. */
  function Mixed(a: bv8, b: bv8, c: bv8, d: bv8, row: nat): bv8
    requires row < 4
  {
    Sum(Mul(a, Coefficient(row, 0)), Mul(b, Coefficient(row, 1)), Mul(c, Coefficient(row, 2)),
        Mul(d, Coefficient(row, 3)))
  }

  type Word = t: Bytes | |t| == 4 witness seq(4, i => 0)

  function MixColumn(c: Word): Word {
    [Mixed(c[0], c[1], c[2], c[3], 0), Mixed(c[0], c[1], c[2], c[3], 1),
     Mixed(c[0], c[1], c[2], c[3], 2), Mixed(c[0], c[1], c[2], c[3], 3)]
  }

  /** The first n columns, mixed. */
  function MixedColumns(s: State, n: nat): (m: Bytes)
    requires n <= 4
    ensures |m| == 4 * n
  {
    if n == 0 then [] else MixedColumns(s, n - 1) + MixColumn(s[4 * n - 4..4 * n])
  }

  /** Section 5.1.3: every column is multiplied by the matrix. */
  function MixColumns(s: State): State {
    MixedColumns(s, 4)
  }

  function Xor(s: State, k: State): State {
    seq(16, i requires 0 <= i < 16 => s[i] ^ k[i])
  }

  type Schedule = w: Bytes | |w| == 176 witness seq(176, i => 0)

  function RoundKey(w: Schedule, round: nat): State
    requires round <= 10
  {
    w[16 * round..16 * round + 16]
  }

  /** The state after the initial key and n full rounds. */
  function Rounds(block: State, w: Schedule, n: nat): State
    requires n <= 10
  {
    if n == 0 then Xor(block, RoundKey(w, 0))
    else Xor(MixColumns(ShiftRows(SubBytes(Rounds(block, w, n - 1)))), RoundKey(w, n))
  }

  /** Section 5.1: nine full rounds, and a last one that does not mix. */
  function Cipher(block: State, w: Schedule): State {
    Xor(ShiftRows(SubBytes(Rounds(block, w, 9))), RoundKey(w, 10))
  }

  // ----- The steps in place -------------------------------------------------

  method SubBytesInPlace(s: array<bv8>)
    requires s.Length == 16
    modifies s
    ensures s[..] == SubBytes(old(s[..]))
  {
    hide SBOX;
    for i := 0 to 16
      invariant forall k :: 0 <= k < i ==> s[k] == SBOX[old(s[k]) as int]
      invariant forall k :: i <= k < 16 ==> s[k] == old(s[k])
    {
      s[i] := SBOX[s[i] as int];
    }
  }

  method ShiftRowsInPlace(s: array<bv8>)
    requires s.Length == 16
    modifies s
    ensures s[..] == ShiftRows(old(s[..]))
  {
    ghost var t := s[..];
    s[1], s[5], s[9], s[13] := s[5], s[9], s[13], s[1];
    s[2], s[6], s[10], s[14] := s[10], s[14], s[2], s[6];
    s[3], s[7], s[11], s[15] := s[15], s[3], s[7], s[11];
    ShiftRowsIs(t, s[..]);
  }

  lemma ShiftRowsIs(t: State, s: State)
    requires s[0] == t[0] && s[4] == t[4] && s[8] == t[8] && s[12] == t[12]
    requires s[1] == t[5] && s[5] == t[9] && s[9] == t[13] && s[13] == t[1]
    requires s[2] == t[10] && s[6] == t[14] && s[10] == t[2] && s[14] == t[6]
    requires s[3] == t[15] && s[7] == t[3] && s[11] == t[7] && s[15] == t[11]
    ensures s == ShiftRows(t)
  {
  }

  method MixColumnsInPlace(s: array<bv8>)
    requires s.Length == 16
    modifies s
    ensures s[..] == MixColumns(old(s[..]))
  {
    hide MixedUpTo, WithMixedColumn, MixColumns, Sum;
    ghost var start := s[..];
    MixedFromTo(start);
    ghost var n := 0;
    var i := 0;
    while i < 16
      invariant i == 4 * n && n <= 4
      invariant s[..] == MixedUpTo(start, n)
    {
      NextColumn(start, n);
      var t := Sum(s[i], s[i + 1], s[i + 2], s[i + 3]);
      MixColumnInPlace(s, i, t);
      i, n := i + 4, n + 1;
    }
  }

  /** The state when n columns have been mixed. */
  function MixedUpTo(start: State, n: nat): State
    requires n <= 4
  {
    MixedColumns(start, n) + start[4 * n..]
  }

  function WithMixedColumn(s: State, i: nat): State
    requires i + 4 <= 16
  {
    s[..i] + MixColumn(s[i..i + 4]) + s[i + 4..]
  }

  lemma MixedFromTo(start: State)
    ensures MixedUpTo(start, 0) == start && MixedUpTo(start, 4) == MixColumns(start)
  {
    hide MixColumn;
  }

  lemma NextColumn(start: State, n: nat)
    requires n < 4
    ensures WithMixedColumn(MixedUpTo(start, n), 4 * n) == MixedUpTo(start, n + 1)
  {
    hide MixColumn;
    var i, before := 4 * n, MixedUpTo(start, n);
    assert before[i..i + 4] == start[i..i + 4] && before[..i] == MixedColumns(start, n) && before[i + 4..] == start[i + 4..];
  }

  /** The body of the loop: the four bytes of one column, one after another. */
  method MixColumnInPlace(s: array<bv8>, i: nat, t: bv8)
    requires s.Length == 16 && i + 3 < 16 && t == Sum(s[i], s[i + 1], s[i + 2], s[i + 3])
    modifies s
    ensures s[..] == WithMixedColumn(old(s[..]), i)
  {
    StirredColumnIs(s[..], i);
    hide Stirred, Sum, WithMixedColumn;
    var u := s[i];
    s[i] := Stirred(s[i], t, s[i + 1]);
    s[i + 1] := Stirred(s[i + 1], t, s[i + 2]);
    s[i + 2] := Stirred(s[i + 2], t, s[i + 3]);
    s[i + 3] := Stirred(s[i + 3], t, u);
    assert s[..] == StirredColumn(old(s[..]), i);
  }

  /** A byte after `x ^= t ^ _xtime(x ^ y)`. */
  function Stirred(x: bv8, t: bv8, y: bv8): bv8 {
    x ^ (t ^ Xtime(x ^ y))
  }

  /** The state once the column at i has been stirred, every byte from the old ones. */
  function StirredColumn(s: State, i: nat): State
    requires i + 3 < 16
  {
    var t := Sum(s[i], s[i + 1], s[i + 2], s[i + 3]);
    s[i := Stirred(s[i], t, s[i + 1])][i + 1 := Stirred(s[i + 1], t, s[i + 2])]
     [i + 2 := Stirred(s[i + 2], t, s[i + 3])][i + 3 := Stirred(s[i + 3], t, s[i])]
  }

  lemma StirredColumnIs(s: State, i: nat)
    requires i + 3 < 16
    ensures StirredColumn(s, i) == WithMixedColumn(s, i)
  {
    MixedIs(s[i], s[i + 1], s[i + 2], s[i + 3]);
    var t := Sum(s[i], s[i + 1], s[i + 2], s[i + 3]);
    UpdatesAreSlices(s, i, Stirred(s[i], t, s[i + 1]), Stirred(s[i + 1], t, s[i + 2]),
                     Stirred(s[i + 2], t, s[i + 3]), Stirred(s[i + 3], t, s[i]));
    var c := s[i..i + 4];
    assert c[0] == s[i] && c[1] == s[i + 1] && c[2] == s[i + 2] && c[3] == s[i + 3];
    hide Mixed, Stirred, Sum;
  }

  lemma UpdatesAreSlices(s: State, i: nat, a: bv8, b: bv8, c: bv8, d: bv8)
    requires i + 3 < 16
    ensures s[i := a][i + 1 := b][i + 2 := c][i + 3 := d] == s[..i] + [a, b, c, d] + s[i + 4..]
  {
  }

  lemma Sum0(a: bv8, b: bv8, c: bv8, d: bv8, x: bv8, y: bv8, p: bv8, q: bv8, r: bv8, s: bv8)
    requires Xtime(a ^ b) == x ^ y && p == x && q == y ^ b && r == c && s == d
    ensures Stirred(a, Sum(a, b, c, d), b) == Sum(p, q, r, s)
  {
    hide Xtime;
  }

  lemma Sum1(a: bv8, b: bv8, c: bv8, d: bv8, x: bv8, y: bv8, p: bv8, q: bv8, r: bv8, s: bv8)
    requires Xtime(b ^ c) == x ^ y && p == a && q == x && r == y ^ c && s == d
    ensures Stirred(b, Sum(a, b, c, d), c) == Sum(p, q, r, s)
  {
    hide Xtime;
  }

  lemma Sum2(a: bv8, b: bv8, c: bv8, d: bv8, x: bv8, y: bv8, p: bv8, q: bv8, r: bv8, s: bv8)
    requires Xtime(c ^ d) == x ^ y && p == a && q == b && r == x && s == y ^ d
    ensures Stirred(c, Sum(a, b, c, d), d) == Sum(p, q, r, s)
  {
    hide Xtime;
  }

  lemma Sum3(a: bv8, b: bv8, c: bv8, d: bv8, x: bv8, y: bv8, p: bv8, q: bv8, r: bv8, s: bv8)
    requires Xtime(d ^ a) == x ^ y && p == y ^ a && q == b && r == c && s == x
    ensures Stirred(d, Sum(a, b, c, d), a) == Sum(p, q, r, s)
  {
    hide Xtime;
  }

  lemma Mixed0(a: bv8, b: bv8, c: bv8, d: bv8)
    ensures Stirred(a, Sum(a, b, c, d), b) == Mixed(a, b, c, d, 0)
  {
    hide Sum, Mul, Xtime, Stirred;
    XtimeMultiplies(a);
    XtimeMultiplies(b);
    XtimeMultiplies(c);
    XtimeMultiplies(d);
    XtimeIsLinear(a, b);
    Sum0(a, b, c, d, Xtime(a), Xtime(b), Mul(a, 2), Mul(b, 3), Mul(c, 1), Mul(d, 1));
  }

  lemma Mixed1(a: bv8, b: bv8, c: bv8, d: bv8)
    ensures Stirred(b, Sum(a, b, c, d), c) == Mixed(a, b, c, d, 1)
  {
    hide Sum, Mul, Xtime, Stirred;
    XtimeMultiplies(a);
    XtimeMultiplies(b);
    XtimeMultiplies(c);
    XtimeMultiplies(d);
    XtimeIsLinear(b, c);
    Sum1(a, b, c, d, Xtime(b), Xtime(c), Mul(a, 1), Mul(b, 2), Mul(c, 3), Mul(d, 1));
  }

  lemma Mixed2(a: bv8, b: bv8, c: bv8, d: bv8)
    ensures Stirred(c, Sum(a, b, c, d), d) == Mixed(a, b, c, d, 2)
  {
    hide Sum, Mul, Xtime, Stirred;
    XtimeMultiplies(a);
    XtimeMultiplies(b);
    XtimeMultiplies(c);
    XtimeMultiplies(d);
    XtimeIsLinear(c, d);
    Sum2(a, b, c, d, Xtime(c), Xtime(d), Mul(a, 1), Mul(b, 1), Mul(c, 2), Mul(d, 3));
  }

  lemma Mixed3(a: bv8, b: bv8, c: bv8, d: bv8)
    ensures Stirred(d, Sum(a, b, c, d), a) == Mixed(a, b, c, d, 3)
  {
    hide Sum, Mul, Xtime, Stirred;
    XtimeMultiplies(a);
    XtimeMultiplies(b);
    XtimeMultiplies(c);
    XtimeMultiplies(d);
    XtimeIsLinear(d, a);
    Sum3(a, b, c, d, Xtime(d), Xtime(a), Mul(a, 3), Mul(b, 1), Mul(c, 1), Mul(d, 2));
  }

  /** The shortcut with one `_xtime` per byte computes the matrix product. */
  lemma MixedIs(a: bv8, b: bv8, c: bv8, d: bv8)
    ensures var t := Sum(a, b, c, d);
            && Stirred(a, t, b) == Mixed(a, b, c, d, 0)
            && Stirred(b, t, c) == Mixed(a, b, c, d, 1)
            && Stirred(c, t, d) == Mixed(a, b, c, d, 2)
            && Stirred(d, t, a) == Mixed(a, b, c, d, 3)
  {
    hide Mixed, Stirred, Sum;
    Mixed0(a, b, c, d);
    Mixed1(a, b, c, d);
    Mixed2(a, b, c, d);
    Mixed3(a, b, c, d);
  }

  method AddRoundKey(s: array<bv8>, w: Schedule, round: nat)
    requires s.Length == 16 && round <= 10
    modifies s
    ensures s[..] == Xor(old(s[..]), RoundKey(w, round))
  {
    for i := 0 to 16
      invariant forall k :: 0 <= k < i ==> s[k] == old(s[k]) ^ w[16 * round + k]
      invariant forall k :: i <= k < 16 ==> s[k] == old(s[k])
    {
      s[i] := s[i] ^ w[16 * round + i];
    }
  }

  method EncryptBlock(block: State, w: Schedule) returns (out: State)
    ensures out == Cipher(block, w)
  {
    hide SubBytes, ShiftRows, MixColumns, Xor, RoundKey;
    var s := new bv8[16](i requires 0 <= i < 16 => block[i]);
    assert s[..] == block;
    AddRoundKey(s, w, 0);
    for r := 1 to 10
      invariant s[..] == Rounds(block, w, r - 1)
    {
      SubBytesInPlace(s);
      ShiftRowsInPlace(s);
      MixColumnsInPlace(s);
      AddRoundKey(s, w, r);
    }
    SubBytesInPlace(s);
    ShiftRowsInPlace(s);
    AddRoundKey(s, w, 10);
    out := s[..];
  }

  // ----- The key schedule ---------------------------------------------------

  type RoundConstants = r: Bytes | |r| == 11 witness seq(11, i => 0)

  const RCON: RoundConstants := [0x00, 0x01, 0x02, 0x04, 0x08, 0x10, 0x20, 0x40, 0x80, 0x1B, 0x36]

  /** The round constant of section 5.2 of FIPS 197: x to the power j - 1. */
  function RoundConstant(j: nat): bv8
    requires j > 0
  {
    if j == 1 then 1 else Mul(RoundConstant(j - 1), 2)
  }

  /** SubWord(RotWord(t)) with the round constant added. */
  function Twisted(t: Word, constant: bv8): Word {
    [Add(SBOX[t[1] as int], constant), SBOX[t[2] as int], SBOX[t[3] as int], SBOX[t[0] as int]]
  }

  function XorWord(a: Word, b: Word): Word {
    [Add(a[0], b[0]), Add(a[1], b[1]), Add(a[2], b[2]), Add(a[3], b[3])]
  }

  /** Word i of the schedule, as section 5.2 of FIPS 197 defines it. */
  function KeyWord(key: State, i: nat): Word
    requires i < 44
  {
    if i < 4 then key[4 * i..4 * i + 4]
    else
      var temp := KeyWord(key, i - 1);
      XorWord(KeyWord(key, i - 4), if i % 4 == 0 then Twisted(temp, RoundConstant(i / 4)) else temp)
  }

  lemma RconIsTheRoundConstant(j: nat)
    requires 1 <= j <= 10
    ensures RCON[j] == RoundConstant(j)
  {
    if j > 1 {
      RconIsTheRoundConstant(j - 1);
      XtimeMultiplies(RCON[j - 1]);
      hide Mul;
      if {
        case j == 2 => case j == 3 => case j == 4 => case j == 5 => case j == 6 =>
        case j == 7 => case j == 8 => case j == 9 => case j == 10 =>
      }
    }
  }

  /** The first n words of the schedule, one after another. */
  function Words(key: State, n: nat): (w: Bytes)
    requires n <= 44
    ensures |w| == 4 * n
  {
    if n == 0 then [] else Words(key, n - 1) + KeyWord(key, n - 1)
  }

  lemma {:induction false} WordsAt(key: State, n: nat, k: nat)
    requires k < n <= 44
    ensures Words(key, n)[4 * k..4 * k + 4] == KeyWord(key, k)
  {
    hide KeyWord;
    if k < n - 1 {
      WordsAt(key, n - 1, k);
      assert Words(key, n)[4 * k..4 * k + 4] == Words(key, n - 1)[4 * k..4 * k + 4];
    }
  }

  lemma KeyIsItsWords(key: State)
    ensures Words(key, 4) == key
  {
    assert Words(key, 1) == key[..4];
    assert Words(key, 2) == key[..8];
    assert Words(key, 3) == key[..12];
  }

  method ExpandKey(key: State) returns (w: Schedule)
    ensures w == Words(key, 44)
  {
    hide Words, KeyWord, Temp, XorWord;
    var list: Bytes := key;
    KeyIsItsWords(key);
    ghost var n := 4;
    var i := 16;
    while i < 176
      invariant i == 4 * n && 4 <= n <= 44
      invariant list == Words(key, n)
    {
      NextBytes(key, n, list);
      var temp := TempWord(list[i - 4..i], i, n);
      list := AppendXored(list, i - 16, temp);
      i, n := i + 4, n + 1;
    }
    w := list;
  }

  /** The recurrence of the schedule on the byte list. */
  lemma NextBytes(key: State, n: nat, list: Bytes)
    requires 4 <= n < 44 && |list| == 4 * n && list == Words(key, n)
    ensures |list[4 * n - 4..4 * n]| == |list[4 * n - 16..4 * n - 12]| == 4
    ensures Words(key, n + 1) == list + XorWord(list[4 * n - 16..4 * n - 12], Temp(list[4 * n - 4..4 * n], n))
  {
    hide Words, KeyWord, Temp, XorWord;
    WordsAt(key, n, n - 1);
    WordsAt(key, n, n - 4);
    NextWord(key, n);
  }

  lemma EveryFourth(n: nat)
    ensures (4 * n % 16 == 0 <==> n % 4 == 0) && 4 * n / 16 == n / 4
  {
  }

  /** Every fourth word is rotated, substituted and given its round constant. */
  method TempWord(last: Word, i: nat, ghost n: nat) returns (temp: Word)
    requires i == 4 * n && 4 <= n < 44
    ensures temp == Temp(last, n)
  {
    hide Add, SBOX, RCON;
    EveryFourth(n);
    temp := last;
    if i % 16 == 0 {
      temp := [SBOX[temp[1] as int], SBOX[temp[2] as int], SBOX[temp[3] as int], SBOX[temp[0] as int]];
      temp := temp[0 := Add(temp[0], RCON[i / 16])];
    }
  }

  /** The inner loop: four bytes of the schedule. */
  method AppendXored(list: Bytes, from: nat, temp: Word) returns (longer: Bytes)
    requires from + 4 <= |list|
    ensures longer == list + XorWord(list[from..from + 4], temp)
  {
    ghost var sum := XorWord(list[from..from + 4], temp);
    assert forall j :: 0 <= j < 4 ==> sum[j] == Add(list[from + j], temp[j]);
    hide XorWord, Add;
    longer := list;
    for j := 0 to 4
      invariant longer == list + sum[..j]
    {
      longer := longer + [Add(longer[from + j], temp[j])];
    }
  }

  /** What the loop makes of the last word before adding it. */
  function Temp(last: Word, n: nat): Word
    requires 4 <= n < 44
  {
    if n % 4 == 0 then Twisted(last, RCON[n / 4]) else last
  }

  lemma NextWord(key: State, n: nat)
    requires 4 <= n < 44
    ensures Words(key, n + 1) == Words(key, n) + XorWord(KeyWord(key, n - 4), Temp(KeyWord(key, n - 1), n))
  {
    hide Twisted, XorWord, RoundConstant;
    if n % 4 == 0 {
      RconIsTheRoundConstant(n / 4);
    }
  }
}
