/**
 The framing of encrypted fields: hex over salt, nonce, ciphertext and, in the
 newer form, a tag; and what decrypting makes of either form.
 */
module CryptoManagers {
  import opened Json
  import opened Blocks
  import opened Aes
  import opened Crypto

  type Digest = d: Bytes | |d| == 32 witness seq(32, i => 0)

  type Salt = s: Bytes | |s| == 16 witness seq(16, i => 0)

  /** What is called but not defined: HMAC-SHA256, and UTF-8 both ways. */
  datatype Host = Host(hmac: (Bytes, Bytes) -> Digest, encode: Text -> Bytes, decode: Bytes -> Option<Text>)

  /** UTF-8 decodes what it encoded, and only that. */
  ghost predicate TextRoundTrips(h: Host) {
    (forall t :: h.decode(h.encode(t)) == Some(t)) && (forall b :: h.decode(b).Some? ==> h.encode(h.decode(b).value) == b)
  }

  /** The bytes of "-integrity". */
  const INTEGRITY: Bytes := [0x2D, 0x69, 0x6E, 0x74, 0x65, 0x67, 0x72, 0x69, 0x74, 0x79]

  function KeySchedule(h: Host, masterKey: Bytes, salt: Bytes): Schedule {
    Words(h.hmac(masterKey, salt)[..16], 44)
  }

  function Tag(h: Host, masterKey: Bytes, salt: Bytes, body: Bytes): Digest {
    h.hmac(h.hmac(masterKey, salt + INTEGRITY), body)
  }

  /** `data[from:to]`, which never raises. */
  function Slice(data: Bytes, from: nat, to: nat): Bytes
    requires from <= to
  {
    if |data| < from then [] else if |data| < to then data[from..] else data[from..to]
  }

  /** The new form of a ciphertext. */
  function Framed(h: Host, masterKey: Bytes, salt: Salt, nonce: Nonce, c: Bytes): Bytes {
    salt + nonce + c + Tag(h, masterKey, salt, nonce + c)
  }

  function Encrypted(h: Host, masterKey: Bytes, text: Text, salt: Salt, nonce: Nonce): Option<Text> {
    var c :- Processed(KeySchedule(h, masterKey, salt), h.encode(text), nonce);
    Some(HexOf(Framed(h, masterKey, salt, nonce, c)))
  }

  /** Whether the last 32 bytes are the tag of what comes before. */
  predicate IsTagged(h: Host, masterKey: Bytes, data: Bytes) {
    |data| >= 56
    && data[|data| - 32..] == Tag(h, masterKey, data[..16], data[16..24] + data[24..|data| - 32])
  }

  function Body(h: Host, masterKey: Bytes, data: Bytes): Bytes {
    if IsTagged(h, masterKey, data) then data[24..|data| - 32] else Slice(data, 24, if |data| < 24 then 24 else |data|)
  }

  function Opened(h: Host, masterKey: Bytes, data: Bytes): Option<Text> {
    var plain :- Processed(KeySchedule(h, masterKey, Slice(data, 0, 16)), Body(h, masterKey, data), Slice(data, 16, 24));
    h.decode(plain)
  }

  function Decrypted(h: Host, masterKey: Bytes, hex: Text): Option<Text> {
    var data :- Unhex(hex);
    Opened(h, masterKey, data)
  }

  class CryptoManager {
    const h: Host
    const masterKey: Bytes

    constructor (h: Host, masterKey: Bytes)
      requires |masterKey| == 32
      ensures this.h == h && this.masterKey == masterKey
    {
      this.h, this.masterKey := h, masterKey;
    }

    /** Salt and nonce are the random bytes drawn; None when `struct.pack` raises. */
    method Encrypt(text: Text, salt: Salt, nonce: Nonce) returns (hex: Option<Text>)
      ensures hex == Encrypted(h, masterKey, text, salt, nonce)
    {
      hide Words, Processed, HexOf;
      var aes := new PureAESCTR(h.hmac(masterKey, salt)[..16]);
      var ciphertext := aes.Process(h.encode(text), nonce);
      if ciphertext.None? {
        return None;
      }
      var integrityKey := h.hmac(masterKey, salt + INTEGRITY);
      var tag := h.hmac(integrityKey, nonce + ciphertext.value);
      hex := Some(HexOf(salt + nonce + ciphertext.value + tag));
    }

    method Decrypt(hex: Text) returns (text: Option<Text>)
      ensures text == Decrypted(h, masterKey, hex)
    {
      hide Words, Processed, Unhex;
      var data := Unhex(hex);
      if data.None? {
        return None;
      }
      var bytes := data.value;
      var salt, nonce := Slice(bytes, 0, 16), Slice(bytes, 16, 24);
      var integrityKey := h.hmac(masterKey, salt + INTEGRITY);
      var ciphertext := Slice(bytes, 24, if |bytes| < 24 then 24 else |bytes|);
      if |bytes| >= 56 {
        var body, stored := bytes[24..|bytes| - 32], bytes[|bytes| - 32..];
        if h.hmac(integrityKey, nonce + body) == stored {
          ciphertext := body;
        }
      }
      var aes := new PureAESCTR(h.hmac(masterKey, salt)[..16]);
      var plain := aes.Process(ciphertext, nonce);
      if plain.None? {
        return None;
      }
      text := h.decode(plain.value);
    }
  }

  // ----- Round trips --------------------------------------------------------

  lemma ProcessedTwice(w: Schedule, data: Bytes, nonce: Nonce)
    requires Fits(data)
    ensures Processed(w, data, nonce).Some?
    ensures |Processed(w, data, nonce).value| == |data|
    ensures Processed(w, Processed(w, data, nonce).value, nonce) == Some(data)
  {
    hide Ctr;
    CtrUndoesItself(w, data, nonce);
  }

  lemma FrameParts(h: Host, masterKey: Bytes, salt: Salt, nonce: Nonce, c: Bytes, end: Bytes)
    ensures var data := salt + nonce + c + end;
            Slice(data, 0, 16) == salt && Slice(data, 16, 24) == nonce && data[24..] == c + end
  {
    var data := salt + nonce + c + end;
    assert data[..16] == salt && data[16..24] == nonce;
  }

  /** Every text is decrypted to itself, whatever salt and nonce were drawn. */
  lemma DecryptUndoesEncrypt(h: Host, masterKey: Bytes, text: Text, salt: Salt, nonce: Nonce)
    requires TextRoundTrips(h) && Fits(h.encode(text))
    ensures var hex := Encrypted(h, masterKey, text, salt, nonce);
            hex.Some? && Decrypted(h, masterKey, hex.value) == Some(text)
  {
    var w := KeySchedule(h, masterKey, salt);
    ProcessedTwice(w, h.encode(text), nonce);
    var c := Processed(w, h.encode(text), nonce).value;
    var tag := Tag(h, masterKey, salt, nonce + c);
    var data := Framed(h, masterKey, salt, nonce, c);
    UnhexOfHex(data);
    FrameParts(h, masterKey, salt, nonce, c, tag);
    hide Processed, KeySchedule, Tag, HexOf, Unhex;
    assert data[24..|data| - 32] == c && data[|data| - 32..] == tag;
    assert IsTagged(h, masterKey, data);
  }

  /** The old form of a ciphertext, without a tag. */
  function Legacy(h: Host, masterKey: Bytes, text: Text, salt: Salt, nonce: Nonce): Option<Bytes> {
    var c :- Processed(KeySchedule(h, masterKey, salt), h.encode(text), nonce);
    Some(salt + nonce + c)
  }

  /**
   The old form, of any length, decrypts to its text too, exactly when its last 32
   bytes do not happen to be the tag of the rest.
   */
  lemma LegacyDecryptsIff(h: Host, masterKey: Bytes, text: Text, salt: Salt, nonce: Nonce)
    requires TextRoundTrips(h) && Fits(h.encode(text))
    ensures var data := Legacy(h, masterKey, text, salt, nonce);
            && data.Some?
            && (Decrypted(h, masterKey, HexOf(data.value)) == Some(text) <==> !IsTagged(h, masterKey, data.value))
  {
    var w := KeySchedule(h, masterKey, salt);
    var plain := h.encode(text);
    ProcessedTwice(w, plain, nonce);
    var c := Processed(w, plain, nonce).value;
    var data := salt + nonce + c;
    UnhexOfHex(data);
    LegacyParts(h, masterKey, salt, nonce, c);
    var body := Body(h, masterKey, data);
    hide KeySchedule, IsTagged, HexOf, Unhex, Body, Processed, Slice;
    if |body| < |plain| {
      ShorterIsAnother(h, w, text, body, nonce);
    }
  }

  lemma LegacyParts(h: Host, masterKey: Bytes, salt: Salt, nonce: Nonce, c: Bytes)
    ensures var data, body := salt + nonce + c, Body(h, masterKey, salt + nonce + c);
            && Slice(data, 0, 16) == salt && Slice(data, 16, 24) == nonce
            && (if IsTagged(h, masterKey, data) then |body| == |c| - 32 else body == c)
  {
    var data := salt + nonce + c;
    assert data[..16] == salt && data[16..24] == nonce && data[24..] == c;
    hide Tag;
  }

  /** A body that is too short does not decrypt to the text. */
  lemma ShorterIsAnother(h: Host, w: Schedule, text: Text, body: Bytes, nonce: Nonce)
    requires TextRoundTrips(h) && Fits(h.encode(text)) && |body| < |h.encode(text)|
    ensures Processed(w, body, nonce).Some? && h.decode(Processed(w, body, nonce).value) != Some(text)
  {
    ProcessedTwice(w, body, nonce);
  }

  // ----- What other code may rely on ----------------------------------------

  /** Texts that decode to fewer than 24 bytes decrypt alike under every key. */
  lemma ShortTextsIgnoreTheKey(h: Host, one: Bytes, two: Bytes, hex: Text)
    requires |hex| < 48
    ensures Decrypted(h, one, hex) == Decrypted(h, two, hex)
  {
    hide Unhex, KeySchedule, Ctr;
  }

  /** A ciphertext is long, and never reads as a "plain:" text. */
  lemma CiphertextsLookApart(h: Host, masterKey: Bytes, text: Text, salt: Salt, nonce: Nonce)
    requires Fits(h.encode(text))
    ensures var hex := Encrypted(h, masterKey, text, salt, nonce);
            hex.Some? && |hex.value| == 112 + 2 * |h.encode(text)| && !IsPlain(hex.value)
  {
    ProcessedTwice(KeySchedule(h, masterKey, salt), h.encode(text), nonce);
    var c := Processed(KeySchedule(h, masterKey, salt), h.encode(text), nonce).value;
    HexDigitsOnly(Framed(h, masterKey, salt, nonce, c));
    hide Processed, KeySchedule, Tag, HexOf;
  }

  lemma HexDigitsOnly(data: Bytes)
    requires data != []
    ensures HexOf(data)[0] != 'p'
  {
    NibblesJoin(data[0]);
    NibbleOfDigit(data[0] >> 4);
  }
}
