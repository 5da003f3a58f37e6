/**
 What FIPS 197 and counter mode ask of a ciphertext, told on the bytes and
 independently of the functions that compute them.
 */
module CipherMeaning {
  import opened Json
  import opened Galois
  import opened Aes
  import opened Crypto
  import opened CryptoManagers

  // ----- One block ----------------------------------------------------------

  /** Every byte is replaced by the affine image of its inverse (section 5.1.1). */
  ghost predicate Substituted(s: State, t: State) {
    forall i :: 0 <= i < 16 ==> Substitutes(s[i], t[i])
  }

  /** The byte in row r and column c comes from r columns further on (section 5.1.2). */
  ghost predicate Shifted(s: State, t: State) {
    forall r, c :: 0 <= r < 4 && 0 <= c < 4 ==> ByteShifted(s, t, r, c)
  }

  ghost predicate ByteShifted(s: State, t: State, r: nat, c: nat)
    requires r < 4 && c < 4
  {
    t[r + 4 * c] == s[r + 4 * ((c + r) % 4)]
  }

  /** Every column is the matrix of section 5.1.3 times the old one. */
  ghost predicate Mixes(s: State, t: State) {
    forall c :: 0 <= c < 4 ==> ColumnMixes(s[4 * c..4 * c + 4], t[4 * c..4 * c + 4])
  }

  ghost predicate ColumnMixes(a: Word, b: Word) {
    && b[0] == Sum(Mul(a[0], 2), Mul(a[1], 3), a[2], a[3])
    && b[1] == Sum(a[0], Mul(a[1], 2), Mul(a[2], 3), a[3])
    && b[2] == Sum(a[0], a[1], Mul(a[2], 2), Mul(a[3], 3))
    && b[3] == Sum(Mul(a[0], 3), a[1], a[2], Mul(a[3], 2))
  }

  /** The key of a round is added (section 5.1.4). */
  ghost predicate KeyAdded(s: State, w: Schedule, round: nat, t: State)
    requires round <= 10
  {
    forall i :: 0 <= i < 16 ==> t[i] == Add(s[i], w[16 * round + i])
  }

  ghost predicate FullRound(s: State, w: Schedule, round: nat, t: State)
    requires round <= 10
  {
    exists a, b, c :: Substituted(s, a) && Shifted(a, b) && Mixes(b, c) && KeyAdded(c, w, round, t)
  }

  /** Round r leads from one state to the next. */
  ghost predicate RoundOf(states: seq<State>, w: Schedule, r: nat)
    requires 1 <= r < |states| && r <= 10
  {
    FullRound(states[r - 1], w, r, states[r])
  }

  ghost predicate LastRound(s: State, w: Schedule, t: State) {
    exists a, b :: Substituted(s, a) && Shifted(a, b) && KeyAdded(b, w, 10, t)
  }

  /** The cipher of section 5.1: the key is added, nine full rounds follow and a last one without mixing. */
  ghost predicate Enciphers(block: State, w: Schedule, out: State) {
    exists states: seq<State> ::
      && |states| == 10 && KeyAdded(block, w, 0, states[0])
      && (forall r :: 1 <= r < 10 ==> RoundOf(states, w, r))
      && LastRound(states[9], w, out)
  }

  lemma SubBytesMeans(s: State)
    ensures Substituted(s, SubBytes(s))
  {
    hide SBOX;
    forall i | 0 <= i < 16 ensures Substitutes(s[i], SubBytes(s)[i]) {
      TableSubstitutes(s[i]);
    }
  }

  lemma ShiftRowsMeans(s: State)
    ensures Shifted(s, ShiftRows(s))
  {
    forall r, c | 0 <= r < 4 && 0 <= c < 4 ensures ByteShifted(s, ShiftRows(s), r, c) {
      if {
        case r == 0 => case r == 1 => case r == 2 => case r == 3 =>
      }
    }
  }

  lemma ColumnMeans(a: Word)
    ensures ColumnMixes(a, MixColumn(a))
  {
    XtimeMultiplies(a[0]);
    XtimeMultiplies(a[1]);
    XtimeMultiplies(a[2]);
    XtimeMultiplies(a[3]);
    hide Mul, Xtime, Sum;
  }

  lemma MixColumnsMeans(s: State)
    ensures Mixes(s, MixColumns(s))
  {
    hide MixColumn, ColumnMixes;
    forall c | 0 <= c < 4 ensures ColumnMixes(s[4 * c..4 * c + 4], MixColumns(s)[4 * c..4 * c + 4]) {
      ColumnMeans(s[4 * c..4 * c + 4]);
      ColumnOf(s, 4, c);
    }
  }

  lemma {:induction false} ColumnOf(s: State, n: nat, c: nat)
    requires c < n <= 4
    ensures MixedColumns(s, n)[4 * c..4 * c + 4] == MixColumn(s[4 * c..4 * c + 4])
  {
    hide MixColumn;
    if c < n - 1 {
      ColumnOf(s, n - 1, c);
      assert MixedColumns(s, n)[4 * c..4 * c + 4] == MixedColumns(s, n - 1)[4 * c..4 * c + 4];
    }
  }

  lemma RoundMeans(s: State, w: Schedule, round: nat)
    requires round <= 10
    ensures FullRound(s, w, round, Xor(MixColumns(ShiftRows(SubBytes(s))), RoundKey(w, round)))
    ensures round == 10 ==> LastRound(s, w, Xor(ShiftRows(SubBytes(s)), RoundKey(w, round)))
  {
    hide SubBytes, ShiftRows, MixColumns, Substituted, Shifted, Mixes, KeyAdded, Xor, RoundKey;
    SubBytesMeans(s);
    ShiftRowsMeans(SubBytes(s));
    MixColumnsMeans(ShiftRows(SubBytes(s)));
    KeyMeans(MixColumns(ShiftRows(SubBytes(s))), w, round);
    KeyMeans(ShiftRows(SubBytes(s)), w, round);
  }

  lemma KeyMeans(s: State, w: Schedule, round: nat)
    requires round <= 10
    ensures KeyAdded(s, w, round, Xor(s, RoundKey(w, round)))
  {
  }

  lemma {:induction false} RoundsMean(block: State, w: Schedule, n: nat) returns (states: seq<State>)
    requires n <= 9
    ensures |states| == n + 1 && KeyAdded(block, w, 0, states[0]) && states[n] == Rounds(block, w, n)
    ensures forall r :: 1 <= r <= n ==> RoundOf(states, w, r)
  {
    hide SubBytes, ShiftRows, MixColumns, Xor, RoundKey, FullRound, KeyAdded;
    if n == 0 {
      states := [Rounds(block, w, 0)];
      KeyMeans(block, w, 0);
    } else {
      var before := RoundsMean(block, w, n - 1);
      RoundMeans(before[n - 1], w, n);
      states := before + [Rounds(block, w, n)];
      forall r | 1 <= r <= n ensures RoundOf(states, w, r) {
        assert r < n ==> RoundOf(before, w, r);
      }
    }
  }

  /** The functional cipher, and so the code, computes what FIPS 197 asks for. */
  lemma CipherMeans(block: State, w: Schedule)
    ensures Enciphers(block, w, Cipher(block, w))
  {
    hide Rounds, SubBytes, ShiftRows, Xor, RoundKey, FullRound, LastRound, KeyAdded;
    var states := RoundsMean(block, w, 9);
    RoundMeans(states[9], w, 10);
  }

  // ----- The key schedule ---------------------------------------------------

  /** The power of x that is added in every fourth word. */
  ghost predicate IsPower(j: nat, b: bv8)
    requires j >= 1
    decreases j
  {
    if j == 1 then b == 1 else exists a :: IsPower(j - 1, a) && b == Mul(a, 2)
  }

  /** The byte j made of b in the word that gets the power i: substituted, and with its constant first. */
  ghost predicate TwistsTo(b: bv8, i: nat, j: nat, t: bv8)
    requires i >= 1
  {
    exists s, c :: Substitutes(b, s) && IsPower(i, c) && t == if j == 0 then Add(s, c) else s
  }

  /** Byte j of word i is that of four words before plus that of the word before; in every fourth
      word the latter is rotated, substituted and given its constant (section 5.2). */
  ghost predicate FollowsInSchedule(w: Schedule, i: nat, j: nat)
    requires 4 <= i < 44 && j < 4
  {
    if i % 4 != 0 then w[4 * i + j] == Add(w[4 * i - 16 + j], w[4 * i - 4 + j])
    else AddsTwisted(w[4 * i - 16 + j], w[4 * i - 4 + (j + 1) % 4], i / 4, j, w[4 * i + j])
  }

  ghost predicate AddsTwisted(a: bv8, b: bv8, i: nat, j: nat, sum: bv8)
    requires i >= 1
  {
    exists t :: TwistsTo(b, i, j, t) && sum == Add(a, t)
  }

  ghost predicate Expands(key: State, w: Schedule) {
    && w[..16] == key
    && forall i, j :: 4 <= i < 44 && 0 <= j < 4 ==> FollowsInSchedule(w, i, j)
  }

  lemma {:induction false} RoundConstantIsPower(j: nat)
    requires j >= 1
    ensures IsPower(j, RoundConstant(j))
  {
    hide Mul;
    if j > 1 {
      RoundConstantIsPower(j - 1);
    }
  }

  lemma WordFollows(key: State, i: nat, j: nat)
    requires 4 <= i < 44 && j < 4
    ensures FollowsInSchedule(Words(key, 44), i, j)
  {
    hide Words, SBOX, Substitutes, RoundConstant, Twisted, XorWord, IsPower, Add, KeyWord;
    var w: Schedule := Words(key, 44);
    WordsAt(key, 44, i);
    WordsAt(key, 44, i - 1);
    WordsAt(key, 44, i - 4);
    WordByte(w, i, j);
    WordByte(w, i - 1, j);
    WordByte(w, i - 1, (j + 1) % 4);
    WordByte(w, i - 4, j);
    WordIs(key, i);
    if i % 4 == 0 {
      var from := KeyWord(key, i - 1);
      TableSubstitutes(from[(j + 1) % 4]);
      RoundConstantIsPower(i / 4);
      TwistedAt(from, RoundConstant(i / 4), j);
      XorWordAt(KeyWord(key, i - 4), Twisted(from, RoundConstant(i / 4)), j);
      assert TwistsTo(w[4 * i - 4 + (j + 1) % 4], i / 4, j, Twisted(from, RoundConstant(i / 4))[j]);
    } else {
      XorWordAt(KeyWord(key, i - 4), KeyWord(key, i - 1), j);
    }
  }

  lemma WordIs(key: State, i: nat)
    requires 4 <= i < 44
    ensures KeyWord(key, i)
         == XorWord(KeyWord(key, i - 4),
                    if i % 4 == 0 then Twisted(KeyWord(key, i - 1), RoundConstant(i / 4)) else KeyWord(key, i - 1))
  {
    hide XorWord, Twisted, RoundConstant;
  }

  lemma WordByte(w: Schedule, i: nat, j: nat)
    requires i < 44 && j < 4
    ensures w[4 * i + j] == w[4 * i..4 * i + 4][j]
  {
  }

  lemma TwistedAt(t: Word, constant: bv8, j: nat)
    requires j < 4
    ensures Twisted(t, constant)[j]
         == if j == 0 then Add(SBOX[t[(j + 1) % 4] as int], constant) else SBOX[t[(j + 1) % 4] as int]
  {
    hide SBOX, Add;
  }

  lemma XorWordAt(a: Word, b: Word, j: nat)
    requires j < 4
    ensures XorWord(a, b)[j] == Add(a[j], b[j])
  {
    hide Add;
  }

  /** The schedule, and so the code, is the expansion FIPS 197 asks for. */
  lemma WordsMean(key: State)
    ensures Expands(key, Words(key, 44))
  {
    hide Words, FollowsInSchedule;
    forall i, j | 4 <= i < 44 && 0 <= j < 4 ensures FollowsInSchedule(Words(key, 44), i, j) {
      WordFollows(key, i, j);
    }
    FirstWords(key, 44);
  }

  lemma {:induction false} FirstWords(key: State, n: nat)
    requires 4 <= n <= 44
    ensures Words(key, n)[..16] == key
  {
    hide KeyWord;
    if n == 4 {
      KeyIsItsWords(key);
    } else {
      FirstWords(key, n - 1);
    }
  }

  // ----- Counter mode -------------------------------------------------------

  /** n as eight bytes, the most significant first. */
  ghost predicate CountsTo(c: Bytes, n: nat) {
    |c| == 8 && ValueOf(c) == n
  }

  /** The block encrypted for the n-th 16 bytes: the nonce and the counter. */
  ghost predicate IsKeystream(w: Schedule, nonce: Nonce, n: nat, ks: State) {
    exists c: Bytes :: CountsTo(c, n) && |nonce + c| == 16 && Enciphers(nonce + c, w, ks)
  }

  /** Every byte of the output is that of the input plus the key byte at its place. */
  ghost predicate IsCtr(w: Schedule, nonce: Nonce, data: Bytes, out: Bytes) {
    |out| == |data| && forall i :: 0 <= i < |data| ==> ByteEnciphered(w, nonce, data, out, i)
  }

  ghost predicate ByteEnciphered(w: Schedule, nonce: Nonce, data: Bytes, out: Bytes, i: nat)
    requires i < |data| == |out|
  {
    exists ks :: IsKeystream(w, nonce, i / 16, ks) && out[i] == Add(data[i], ks[i % 16])
  }

  lemma CtrMeans(w: Schedule, data: Bytes, nonce: Nonce)
    requires Fits(data)
    ensures IsCtr(w, nonce, data, Ctr(w, data, nonce))
  {
    hide Cipher, Enciphers, Add;
    forall i | 0 <= i < |data| ensures ByteEnciphered(w, nonce, data, Ctr(w, data, nonce), i) {
      var n := i / 16;
      CounterMeans(n);
      CipherMeans(CounterBlock(nonce, n), w);
      assert IsKeystream(w, nonce, n, Cipher(CounterBlock(nonce, n), w));
    }
  }

  lemma CounterMeans(n: nat)
    requires n < COUNTERS
    ensures CountsTo(BigEndian(n, 8), n)
  {
    assert COUNTERS == Power256(8);
    BigEndianIsExact(n, 8);
  }

  /** Processing enciphers every input of at most 2^68 bytes, and raises for a longer one. */
  lemma ProcessMeans(w: Schedule, data: Bytes, nonce: Bytes)
    requires data != [] ==> |nonce| == 8
    ensures data == [] ==> Processed(w, data, nonce) == Some([])
    ensures data != [] ==>
              && (Processed(w, data, nonce).Some? <==> |data| <= 16 * 0x1_0000_0000_0000_0000)
              && (Processed(w, data, nonce).Some? ==> IsCtr(w, nonce, data, Processed(w, data, nonce).value))
  {
    if data != [] && Fits(data) {
      CtrMeans(w, data, nonce);
    }
    hide Ctr, IsCtr;
  }

  // ----- Hexadecimal text ---------------------------------------------------

  /** The two lower-case digits of every byte, in order. */
  lemma {:induction false} HexMeans(data: Bytes, i: nat)
    requires i < |data|
    ensures HexOf(data)[2 * i] == "0123456789abcdef"[(data[i] >> 4) as int]
    ensures HexOf(data)[2 * i + 1] == "0123456789abcdef"[(data[i] & 0x0F) as int]
  {
    if i > 0 {
      HexMeans(data[1..], i - 1);
    }
  }

  /** A digit of value n, in lower or upper case. */
  ghost predicate IsHexDigit(c: char, n: bv8) {
    if n < 10 then c as int == '0' as int + n as int
    else n < 16 && (c as int == 'a' as int + n as int - 10 || c as int == 'A' as int + n as int - 10)
  }

  lemma NibbleMeans(c: char, n: bv8)
    ensures Nibble(c) == Some(n) <==> IsHexDigit(c, n)
  {
    if '0' <= c <= '9' {
      SmallBack(c as int - '0' as int, n);
    } else if 'a' <= c <= 'f' {
      SmallBack(c as int - 'a' as int + 10, n);
    } else if 'A' <= c <= 'F' {
      SmallBack(c as int - 'A' as int + 10, n);
    }
  }

  lemma SmallBack(k: nat, n: bv8)
    requires k < 16
    ensures (k as bv8) as int == k && (k < 10 <==> k as bv8 < 10) && k as bv8 < 16
    ensures n as int == k ==> n == k as bv8
  {
    HalfBack(k);
    if {
      case k == 0 => case k == 1 => case k == 2 => case k == 3 => case k == 4 => case k == 5 => case k == 6 => case k == 7 =>
      case k == 8 => case k == 9 => case k == 10 => case k == 11 => case k == 12 => case k == 13 => case k == 14 => case k == 15 =>
    }
  }

  /** The two digits of every byte, in order, and nothing else. */
  ghost predicate Spells(t: Text, data: Bytes) {
    |t| == 2 * |data| && forall i :: 0 <= i < |data| ==> ByteSpelled(t[2 * i], t[2 * i + 1], data[i])
  }

  ghost predicate ByteSpelled(high: char, low: char, b: bv8) {
    IsHexDigit(high, b >> 4) && IsHexDigit(low, b & 0x0F)
  }

  lemma ByteIsSpelled(high: char, low: char, b: bv8)
    ensures ByteSpelled(high, low, b)
       <==> Nibble(high).Some? && Nibble(low).Some? && b == (Nibble(high).value << 4) | Nibble(low).value
  {
    NibbleMeans(high, b >> 4);
    NibbleMeans(low, b & 0x0F);
    NibblesJoin(b);
    if Nibble(high).Some? && Nibble(low).Some? {
      NibbleMeans(high, Nibble(high).value);
      NibbleMeans(low, Nibble(low).value);
      DigitIsSmall(high, Nibble(high).value);
      DigitIsSmall(low, Nibble(low).value);
      HalvesApart(Nibble(high).value, Nibble(low).value);
    }
    hide Nibble, IsHexDigit;
  }

  lemma DigitIsSmall(c: char, n: bv8)
    requires IsHexDigit(c, n)
    ensures n < 16
  {
  }

  /** Text without white space reads as exactly the bytes it spells, in either case, and any other
      such text raises. */
  lemma {:induction false} UnhexMeans(t: Text, data: Bytes)
    requires forall c :: c in t ==> !IsSpace(c)
    ensures Unhex(t) == Some(data) <==> Spells(t, data)
  {
    hide IsSpace, ByteSpelled;
    if |t| >= 2 {
      assert t[0] in t;
      forall b ensures ByteSpelled(t[0], t[1], b)
         <==> Nibble(t[0]).Some? && Nibble(t[1]).Some? && b == (Nibble(t[0]).value << 4) | Nibble(t[1]).value
      {
        ByteIsSpelled(t[0], t[1], b);
      }
      hide Nibble;
      if data != [] {
        UnhexMeans(t[2..], data[1..]);
        SpellsStep(t, data);
        assert data == [data[0]] + data[1..];
      }
    } else if |t| == 1 {
      assert t[0] in t;
    }
  }

  lemma SpellsStep(t: Text, data: Bytes)
    requires |t| >= 2 && data != []
    ensures Spells(t, data) <==> ByteSpelled(t[0], t[1], data[0]) && Spells(t[2..], data[1..])
  {
    hide ByteSpelled;
    if ByteSpelled(t[0], t[1], data[0]) && Spells(t[2..], data[1..]) {
      forall i | 0 <= i < |data| ensures ByteSpelled(t[2 * i], t[2 * i + 1], data[i]) {
        if i > 0 {
          assert ByteSpelled(t[2..][2 * (i - 1)], t[2..][2 * (i - 1) + 1], data[1..][i - 1]);
        }
      }
    }
    if Spells(t, data) {
      forall i | 0 <= i < |data| - 1 ensures ByteSpelled(t[2..][2 * i], t[2..][2 * i + 1], data[1..][i]) {
        assert ByteSpelled(t[2 * (i + 1)], t[2 * (i + 1) + 1], data[i + 1]);
      }
    }
  }

  // ----- Encrypted fields ---------------------------------------------------

  /** The parts of a ciphertext: salt, nonce, the enciphered bytes under the key derived from the
      salt, and a tag over nonce and enciphered bytes under the key derived for integrity. */
  ghost predicate IsCiphertext(h: Host, masterKey: Bytes, plain: Bytes, salt: Salt, nonce: Nonce, data: Bytes) {
    exists w: Schedule, c: Bytes ::
      && Expands(h.hmac(masterKey, salt)[..16], w) && IsCtr(w, nonce, plain, c)
      && data == salt + nonce + c
                 + h.hmac(h.hmac(masterKey, salt + [0x2D, 0x69, 0x6E, 0x74, 0x65, 0x67, 0x72, 0x69, 0x74, 0x79]), nonce + c)
  }

  /** Encrypting gives the hexadecimal text of such a ciphertext of the text's bytes. */
  lemma EncryptMeans(h: Host, masterKey: Bytes, text: Text, salt: Salt, nonce: Nonce)
    ensures Encrypted(h, masterKey, text, salt, nonce).Some? <==> |h.encode(text)| <= 16 * 0x1_0000_0000_0000_0000
    ensures Encrypted(h, masterKey, text, salt, nonce).Some? ==>
              exists data :: IsCiphertext(h, masterKey, h.encode(text), salt, nonce, data)
                             && Encrypted(h, masterKey, text, salt, nonce) == Some(HexOf(data))
  {
    hide Processed, IsCtr, Expands, Words, HexOf;
    var w, plain := KeySchedule(h, masterKey, salt), h.encode(text);
    WordsMean(h.hmac(masterKey, salt)[..16]);
    ProcessMeans(w, plain, nonce);
    if Processed(w, plain, nonce).Some? {
      var c := Processed(w, plain, nonce).value;
      assert IsCtr(w, nonce, plain, c) by { NothingIsCtr(w, nonce); }
      assert IsCiphertext(h, masterKey, plain, salt, nonce, Framed(h, masterKey, salt, nonce, c));
    }
  }

  lemma NothingIsCtr(w: Schedule, nonce: Nonce)
    ensures IsCtr(w, nonce, [], [])
  {
  }
}
