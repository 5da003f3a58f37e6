/**
 CTR mode over the block cipher, and hexadecimal text.
 */
module Crypto {
  import opened Json
  import opened Galois
  import opened Aes

  // ----- CTR mode -----------------------------------------------------------

  /** A number below 256 as a byte, half by half. */
  function ByteOf(n: nat): bv8
    requires n < 256
  {
    (((n / 16) as bv8) << 4) | (n % 16) as bv8
  }

  function NumberOf(b: bv8): nat {
    16 * (b >> 4) as int + (b & 0x0F) as int
  }

  /** n in k bytes, the most significant first. */
  function BigEndian(n: nat, k: nat): (b: Bytes)
    ensures |b| == k
  {
    if k == 0 then [] else BigEndian(n / 256, k - 1) + [ByteOf(n % 256)]
  }

  function ValueOf(b: Bytes): nat {
    if b == [] then 0 else 256 * ValueOf(b[..|b| - 1]) + NumberOf(b[|b| - 1])
  }

  function Power256(k: nat): nat {
    if k == 0 then 1 else 256 * Power256(k - 1)
  }

  lemma HalfBack(n: nat)
    requires n < 16
    ensures (n as bv8) as int == n && n as bv8 < 16
  {
    if {
      case n == 0 => case n == 1 => case n == 2 => case n == 3 => case n == 4 => case n == 5 => case n == 6 =>
      case n == 7 => case n == 8 => case n == 9 => case n == 10 => case n == 11 => case n == 12 => case n == 13 =>
      case n == 14 => case n == 15 =>
    }
  }

  lemma HalvesApart(high: bv8, low: bv8)
    requires high < 16 && low < 16
    ensures ((high << 4) | low) >> 4 == high && ((high << 4) | low) & 0x0F == low
  {
  }

  lemma ByteBack(n: nat)
    requires n < 256
    ensures NumberOf(ByteOf(n)) == n
  {
    HalfBack(n / 16);
    HalfBack(n % 16);
    HalvesApart((n / 16) as bv8, (n % 16) as bv8);
  }

  /** Packing loses nothing as long as the number fits. */
  lemma {:induction false} BigEndianIsExact(n: nat, k: nat)
    requires n < Power256(k)
    ensures ValueOf(BigEndian(n, k)) == n
  {
    if k > 0 {
      BigEndianIsExact(n / 256, k - 1);
      var init, last := BigEndian(n / 256, k - 1), ByteOf(n % 256);
      ByteBack(n % 256);
      assert BigEndian(n, k) == init + [last];
      hide BigEndian, ByteOf, NumberOf;
      assert (init + [last])[..k - 1] == init;
    }
  }

  type Nonce = n: Bytes | |n| == 8 witness seq(8, i => 0)

  const COUNTERS: nat := 0x1_0000_0000_0000_0000

  /** The block encrypted for the i-th 16 bytes (section 6.5 of NIST SP 800-38A). */
  function CounterBlock(nonce: Nonce, i: nat): State {
    nonce + BigEndian(i, 8)
  }

  function KeyByte(w: Schedule, nonce: Nonce, i: nat): bv8 {
    Cipher(CounterBlock(nonce, i / 16), w)[i % 16]
  }

  /** Every byte plus the key byte at its position. */
  function Ctr(w: Schedule, data: Bytes, nonce: Nonce): (r: Bytes)
    ensures |r| == |data|
  {
    seq(|data|, i requires 0 <= i < |data| => Add(data[i], KeyByte(w, nonce, i)))
  }

  lemma AddCancels(a: bv8, b: bv8)
    ensures Add(Add(a, b), b) == a
  {
  }

  /** Processing twice gives the data back. */
  lemma CtrUndoesItself(w: Schedule, data: Bytes, nonce: Nonce)
    ensures Ctr(w, Ctr(w, data, nonce), nonce) == data
  {
    hide Add, KeyByte;
    var once := Ctr(w, data, nonce);
    var twice := Ctr(w, once, nonce);
    forall i | 0 <= i < |data| ensures twice[i] == data[i] {
      AddCancels(data[i], KeyByte(w, nonce, i));
    }
  }

  /** Counters do not repeat within a message, so neither do the blocks encrypted. */
  lemma CounterBlocksDiffer(nonce: Nonce, i: nat, j: nat)
    requires i < COUNTERS && j < COUNTERS && CounterBlock(nonce, i) == CounterBlock(nonce, j)
    ensures i == j
  {
    assert COUNTERS == Power256(8);
    BigEndianIsExact(i, 8);
    BigEndianIsExact(j, 8);
    assert CounterBlock(nonce, i)[8..] == BigEndian(i, 8) && CounterBlock(nonce, j)[8..] == BigEndian(j, 8);
  }

  /** Whether the 8-byte counter suffices; packing a larger one raises. */
  predicate Fits(data: Bytes) {
    |data| <= 16 * COUNTERS
  }

  function Processed(w: Schedule, data: Bytes, nonce: Bytes): Option<Bytes>
    requires data != [] ==> |nonce| == 8
  {
    if data == [] then Some([]) else if Fits(data) then Some(Ctr(w, data, nonce)) else None
  }

  class PureAESCTR {
    const expandedKey: Schedule

    constructor (key: State)
      ensures expandedKey == Words(key, 44)
    {
      var w := ExpandKey(key);
      expandedKey := w;
    }

    /** `process`; a nonce is only looked at when there is data. None is the error of `struct.pack`. */
    method Process(data: Bytes, nonce: Bytes) returns (result: Option<Bytes>)
      requires data != [] ==> |nonce| == 8
      ensures result == Processed(expandedKey, data, nonce)
    {
      hide Ctr, Cipher;
      var out: Bytes := [];
      var counter := 0;
      var i := 0;
      while i < |data|
        invariant i == 16 * counter && |out| == (if i < |data| then i else |data|)
        invariant data != [] ==> out == Ctr(expandedKey, data, nonce)[..|out|]
        invariant counter <= COUNTERS && i < |data| + 16
      {
        if counter >= COUNTERS {
          return None;
        }
        var keystream := EncryptBlock(CounterBlock(nonce, counter), expandedKey);
        out := AddChunk(data, nonce, counter, keystream, out);
        i, counter := i + 16, counter + 1;
      }
      assert data == [] ==> out == [];
      assert data != [] ==> out == Ctr(expandedKey, data, nonce);
      result := Some(out);
    }

    /** The inner loop: up to 16 bytes of data plus the bytes of one encrypted counter. */
    method AddChunk(data: Bytes, ghost nonce: Nonce, counter: nat, keystream: State, out: Bytes) returns (longer: Bytes)
      requires 16 * counter < |data| && out == Ctr(expandedKey, data, nonce)[..16 * counter]
      requires keystream == Cipher(CounterBlock(nonce, counter), expandedKey)
      ensures longer == Ctr(expandedKey, data, nonce)[..if 16 * counter + 16 < |data| then 16 * counter + 16 else |data|]
    {
      hide Cipher, CounterBlock, Add, KeyByte;
      var from := 16 * counter;
      var chunk := data[from..if from + 16 < |data| then from + 16 else |data|];
      longer := out;
      for j := 0 to |chunk|
        invariant longer == Ctr(expandedKey, data, nonce)[..from + j]
      {
        KeyByteAt(expandedKey, nonce, counter, j);
        longer := longer + [Add(chunk[j], keystream[j])];
      }
    }
  }

  lemma KeyByteAt(w: Schedule, nonce: Nonce, counter: nat, j: nat)
    requires j < 16
    ensures KeyByte(w, nonce, 16 * counter + j) == Cipher(CounterBlock(nonce, counter), w)[j]
  {
    hide Cipher, CounterBlock;
  }

  // ----- Hex ----------------------------------------------------------------

  const DIGITS := "0123456789abcdef"

  function HexOf(data: Bytes): (t: Text)
    ensures |t| == 2 * |data|
  {
    if data == [] then ""
    else [DIGITS[(data[0] >> 4) as int], DIGITS[(data[0] & 0x0F) as int]] + HexOf(data[1..])
  }

  function Nibble(c: char): Option<bv8> {
    if '0' <= c <= '9' then Some((c as int - '0' as int) as bv8)
    else if 'a' <= c <= 'f' then Some((c as int - 'a' as int + 10) as bv8)
    else if 'A' <= c <= 'F' then Some((c as int - 'A' as int + 10) as bv8)
    else None
  }

  predicate IsSpace(c: char) {
    c in {' ', '\t', '\n', '\r', 11 as char, 12 as char}
  }

  /** `bytes.fromhex`: white space may stand between bytes; None when it raises. */
  function Unhex(t: Text): (r: Option<Bytes>)
    ensures r.Some? ==> 2 * |r.value| <= |t|
  {
    if t == "" then Some([])
    else if IsSpace(t[0]) then Unhex(t[1..])
    else if |t| == 1 then None
    else
      var high :- Nibble(t[0]);
      var low :- Nibble(t[1]);
      var rest :- Unhex(t[2..]);
      Some([(high << 4) | low] + rest)
  }

  lemma DecimalDigit(n: bv8)
    requires n < 10
    ensures var c := DIGITS[n as int]; '0' <= c <= '9' && c as int - '0' as int == n as int && !IsSpace(c)
  {
    if {
      case n == 0 => case n == 1 => case n == 2 => case n == 3 => case n == 4 =>
      case n == 5 => case n == 6 => case n == 7 => case n == 8 => case n == 9 =>
    }
  }

  lemma LetterDigit(n: bv8)
    requires 10 <= n < 16
    ensures var c := DIGITS[n as int]; 'a' <= c <= 'f' && c as int - 'a' as int + 10 == n as int && !IsSpace(c)
  {
    if {
      case n == 10 => case n == 11 => case n == 12 => case n == 13 => case n == 14 => case n == 15 =>
    }
  }

  lemma NibbleOfDigit(n: bv8)
    requires n < 16
    ensures Nibble(DIGITS[n as int]) == Some(n) && !IsSpace(DIGITS[n as int])
  {
    if n < 10 {
      DecimalDigit(n);
      hide DIGITS, IsSpace;
    } else {
      LetterDigit(n);
      hide DIGITS, IsSpace;
    }
  }

  lemma NibblesJoin(b: bv8)
    ensures ((b >> 4) << 4) | (b & 0x0F) == b && b >> 4 < 16 && b & 0x0F < 16
  {
  }

  lemma {:induction false} UnhexOfHex(data: Bytes)
    ensures Unhex(HexOf(data)) == Some(data)
  {
    if data != [] {
      var b, t := data[0], HexOf(data);
      NibblesJoin(b);
      NibbleOfDigit(b >> 4);
      NibbleOfDigit(b & 0x0F);
      UnhexOfHex(data[1..]);
      assert t[2..] == HexOf(data[1..]);
      hide Nibble, IsSpace, DIGITS;
      assert data == [b] + data[1..];
    }
  }
}
