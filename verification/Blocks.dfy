/**
 Ledger blocks, the cryptographic and serialization primitives they are built
 from, and the hash-field conventions shared by every reader and writer.
 */
module Blocks {
  import opened Json

  /** A ledger entry: its stored hash and its data dictionary. */
  datatype Entry = Entry(hash: Text, data: Data)

  /** A block dictionary; `entries` is kept apart because it alone is nested. */
  datatype Block = Block(fields: Data, entries: Option<seq<Entry>>)

  /** One field of an entry's data as the content hash sees it: taken as it is,
      decrypted, or encrypted but not decryptable. */
  datatype Cell = Plain(v: Value) | Clear(t: Text) | Opaque(v: Value)

  /** What the ledger calls but does not define. HMAC, SHA-256, JSON
      serialization, key derivation and the cipher are arbitrary functions; a
      lemma that needs one of their properties says so. */
  datatype Primitives = Primitives(
    seal: (Bytes, Text) -> Text,                // CryptoManager.seal under a master key
    mac: (Text, Bytes) -> Text,                 // CryptoManager.mac under an identity secret
    sha: Text -> Text,                          // SHA-256, hex
    dumpBlock: Block -> Text,                   // json.dumps(block, sort_keys=True)
    dumpData: Data -> Text,                     // json.dumps(data, sort_keys=True)
    dumpIndented: Data -> Text,                 // json.dumps(data, sort_keys=True, indent=2)
    dumpUnsorted: Data -> Text,                 // json.dumps(data, indent=2)
    encrypt: (Bytes, Text, nat) -> Text,        // the last argument is the randomness drawn
    decrypt: (Bytes, Text) -> Option<Text>,     // None when the text is not hex or not UTF-8
    deriveKey: (Bytes, int) -> Bytes,           // derive_mk(seed, version)
    sorted: seq<Value> -> Option<seq<Value>>,   // None when the values do not compare
    keyOrder: set<Field> -> seq<Field>,         // insertion order of a dictionary's keys
    nineFields: map<Field, Cell> -> Option<Data>, // the fixed fields hashed before v0.4.0
    scriptFields: map<Field, Cell> -> Option<Data>, // the same fields as the migration script reads them
    parseVersion: Text -> Option<seq<int>>,     // "0.4.0" as integers
    showInt: int -> Text,                       // str(n)
    parseInt: Text -> Option<int>,              // int(text), None when it raises
    showValue: Value -> Text,                   // f"{value}" of a list or a dictionary
    listAbove: (seq<Value>, seq<Value>) -> Option<bool>, // one list > another, None when it raises
    pausedTime: Text -> Option<int>,            // the total of the closed pauses in a JSON list
    dumpPauses: Text -> Text,                   // json.dumps(json.loads(text))
    dayOf: int -> Option<Text>,                 // the ISO date (UTC) of an epoch in milliseconds
    parseDate: Text -> Option<CivilDate>,       // strptime(text, "%Y-%m-%d")
    monthText: YearMonth -> Text,               // f"{year}-{month:02d}"
    parseMonth: Text -> Option<YearMonth>)      // the two numbers around "-"

  /** A calendar date. */
  datatype CivilDate = CivilDate(year: int, month: int, day: int)

  datatype YearMonth = YearMonth(year: int, month: int)

  /** HMAC digests are never empty. */
  ghost predicate SealsAreNonEmpty(p: Primitives) {
    (forall k, t :: p.seal(k, t) != "") && (forall t, k :: p.mac(t, k) != "")
  }

  /** A seal determines the block it was computed over, whatever the key. */
  ghost predicate SealsAreInjective(p: Primitives) {
    forall k, l, b, c :: p.seal(k, p.dumpBlock(b)) == p.seal(l, p.dumpBlock(c)) ==> b == c
  }

  /** Decryption undoes encryption, for every randomness; a ciphertext is longer
      than 40 characters and never looks like a "plain:" text. */
  ghost predicate DecryptsOwnCiphertexts(p: Primitives) {
    forall k, t, r ::
      && p.decrypt(k, p.encrypt(k, t, r)) == Some(t)
      && |p.encrypt(k, t, r)| > 40 && !IsPlain(p.encrypt(k, t, r))
  }

  /** Printed integers read back as themselves. */
  ghost predicate IntegersRoundTrip(p: Primitives) {
    forall n :: p.parseInt(p.showInt(n)) == Some(n)
  }

  const PLAIN := "plain:"

  /** `text.startswith("plain:")`. */
  predicate IsPlain(t: Text) {
    |t| >= 6 && t[..6] == PLAIN
  }

  /** A dictionary lists exactly its own keys. */
  ghost predicate OrdersKeys(p: Primitives) {
    forall s: set<Field>, f :: f in p.keyOrder(s) <==> f in s
  }

  /** Get the type of a block, "day" when it has none. */
  function TypeOf(b: Block): Value {
    if Type in b.fields then b.fields[Type] else Str("day")
  }

  predicate IsDay(b: Block) {
    TypeOf(b) == Str("day")
  }

  predicate IsGenesis(b: Block) {
    TypeOf(b) == Str("genesis")
  }

  /** The hash of a block whatever its type: the first truthy hash field, or "". */
  function GetBlockHash(b: Block): Value {
    Or(Get(b.fields, BlockHash),
       Or(Get(b.fields, DayHash),
          Or(Get(b.fields, MonthHash),
             Or(Get(b.fields, YearHash), Str("")))))
  }

  /** The field a block's own seal is stored in. */
  function HashKey(b: Block): Field {
    if IsGenesis(b) && BlockHash in b.fields then BlockHash
    else if TypeOf(b) == Str("month_summary") then MonthHash
    else if TypeOf(b) == Str("year_summary") then YearHash
    else DayHash
  }

  /** The part of a block its seal covers when `hashKey` holds the seal. */
  function SealedBody(b: Block, hashKey: Field): Block {
    Block(b.fields - {hashKey, IdentitySeal, Signature, FormatVersion, KeyVersion}, b.entries)
  }

  function SealOf(p: Primitives, key: Bytes, body: Block): Text {
    p.seal(key, p.dumpBlock(body))
  }

  /** sha256 of sort+indent2 JSON, the canonical entry hash. */
  function CanonicalEntryHash(p: Primitives, d: Data): Text {
    p.sha(p.dumpIndented(d))
  }

  /** sha256 of sort+compact JSON. */
  function CompactEntryHash(p: Primitives, d: Data): Text {
    p.sha(p.dumpData(d))
  }

  /** An entry hash in any of the three accepted serializations. */
  predicate EntryHashAccepted(p: Primitives, d: Data, stored: Text) {
    || stored == CanonicalEntryHash(p, d)
    || stored == CompactEntryHash(p, d)
    || stored == p.sha(p.dumpUnsorted(d))
  }

  /** Whether a writer with this secret signs its blocks. */
  predicate Signs(secret: Option<Bytes>) {
    secret.Some? && secret.value != []
  }

  /** A block built from `body`: its seal in `hashKey`, and an identity seal if
      the writer has a secret. */
  function SealedBlock(p: Primitives, key: Bytes, secret: Option<Bytes>, body: Data,
                       entries: Option<seq<Entry>>, hashKey: Field): Block
  {
    var hash := p.seal(key, p.dumpBlock(Block(body, entries)));
    var sealed := body[hashKey := Str(hash)];
    Block(if Signs(secret) then sealed[IdentitySeal := Str(p.mac(hash, secret.value))] else sealed, entries)
  }

  /** The hash a writer links to: like GetBlockHash, but the last operand of the
      `or` chain is the year hash itself. */
  function PrevLink(b: Block): Value {
    Or(Get(b.fields, BlockHash),
       Or(Get(b.fields, DayHash),
          Or(Get(b.fields, MonthHash), Get(b.fields, YearHash))))
  }
}
