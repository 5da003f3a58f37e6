/**
 Key rotation over whole runs: any interleaving of day blocks, soft rotations
 and hard rotations leaves a chain the verifier accepts.
 */
module RotationRuns {
  import opened Json
  import opened Blocks
  import opened ContentHashes
  import opened Chain
  import opened KeyRotation

  /** What the theorems need of the primitives. */
  ghost predicate Sound(p: Primitives) {
    SealsAreNonEmpty(p) && DecryptsOwnCiphertexts(p) && ShortTextsDecryptAlike(p)
  }

  /** A ledger during a run. `held` records, for every version since the start,
      the genesis hash in force while that version was current. */
  datatype State = State(chain: seq<Block>, seed: Bytes, held: map<int, Value>)

  const DAY_FIELDS: set<Field> :=
    {Type, DayIndex, Date, PrevHash, KeyVersion, DayHash, IdentitySeal}

  function VersionOf(b: Block): int {
    var kv := KeyVersionOf(b);
    if kv.Some? then kv.value else 0
  }

  /** The verifier the ledger is checked with at its current version. */
  function CurrentVerifier(p: Primitives, secret: Option<Bytes>, s: State): Verifier
    requires s.chain != []
  {
    var n := VersionOf(s.chain[0]);
    Verifier(p, p.deriveKey(s.seed, n), secret, Some(KeysUpTo(p, s.seed, n)))
  }

  /** Genesis can be rotated: its secrets decrypt and its version is a string. */
  predicate Rotatable(p: Primitives, key: Bytes, g: Block) {
    var identity := Get(g.fields, Identity);
    && identity.Obj?
    && DecryptValue(p, key, Get(identity.members, SecretFallback)).Some?
    && (Enc(RecoverySeed) in identity.members ==>
          DecryptValue(p, key, identity.members[Enc(RecoverySeed)]).Some?)
    && (FormatVersion in g.fields ==> g.fields[FormatVersion].Str?)
  }

  predicate GenesisSealed(p: Primitives, g: Block, key: Bytes) {
    && Get(g.fields, Type) == Str("genesis") && BlockHash in g.fields
    && g.fields[BlockHash] == Str(SealOf(p, key, SealedBody(g, BlockHash)))
  }

  /** Genesis stores, for every other version, the hash it had then. */
  ghost predicate RemembersHashes(g: Block, n: int, held: map<int, Value>) {
    && n in held && held[n] == Get(g.fields, BlockHash)
    && forall w :: w in held && w != n ==> PrevBlockHash(w) in g.fields && g.fields[PrevBlockHash(w)] == held[w]
  }

  ghost predicate HoldsPastHashes(g: Block, n: int, held: map<int, Value>) {
    && RemembersHashes(g, n, held)
    && (forall w :: w in held ==> w <= n && Truthy(held[w]))
    && (forall w :: w >= n ==> PrevBlockHash(w) !in g.fields)
  }

  ghost predicate GenesisInv(p: Primitives, g: Block, seed: Bytes, held: map<int, Value>) {
    var n := VersionOf(g);
    && n >= 1
    && GenesisSealed(p, g, p.deriveKey(seed, n))
    && Rotatable(p, p.deriveKey(seed, n), g)
    && HoldsPastHashes(g, n, held)
  }

  ghost predicate EntriesInv(p: Primitives, key: Bytes, es: seq<Entry>) {
    forall e | e in es :: EntryValid(p, key, true, e) && Decryptable(p, key, e.data)
  }

  ghost predicate DayInv(p: Primitives, secret: Option<Bytes>, b: Block, seed: Bytes, n: int) {
    var key := p.deriveKey(seed, VersionOf(b));
    && Get(b.fields, Type) == Str("day") && b.fields.Keys <= DAY_FIELDS && b.entries.Some?
    && PrevHash in b.fields && KeyVersionOf(b).Some? && 1 <= VersionOf(b) <= n
    && DayHash in b.fields && b.fields[DayHash] == Str(SealOf(p, key, SealedBody(b, DayHash)))
    && Get(b.fields, IdentitySeal)
       == (if Signs(secret) then Str(p.mac(b.fields[DayHash].s, secret.value)) else Null)
    && EntriesInv(p, key, b.entries.value)
  }

  /** The predecessor hash block i stores. */
  function StoredLink(s: State, i: int): Value
    requires 1 <= i < |s.chain|
  {
    if i == 1 then
      if VersionOf(s.chain[1]) in s.held then s.held[VersionOf(s.chain[1])] else Null
    else Get(s.chain[i - 1].fields, DayHash)
  }

  ghost predicate Inv(p: Primitives, secret: Option<Bytes>, s: State) {
    && s.chain != [] && secret.Some?
    && GenesisInv(p, s.chain[0], s.seed, s.held)
    && (|s.chain| > 1 ==> VersionOf(s.chain[1]) in s.held)
    && (forall i :: 1 <= i < |s.chain| ==>
          && DayInv(p, secret, s.chain[i], s.seed, VersionOf(s.chain[0]))
          && Get(s.chain[i].fields, PrevHash) == StoredLink(s, i))
  }

  lemma DayHashOf(p: Primitives, secret: Option<Bytes>, b: Block, seed: Bytes, n: int)
    requires SealsAreNonEmpty(p) && DayInv(p, secret, b, seed, n)
    ensures GetBlockHash(b) == b.fields[DayHash] && HashKey(b) == DayHash
  {
    assert BlockHash !in DAY_FIELDS;
  }

  /** Genesis answers every version in `held` with the hash it had then. */
  lemma GenesisLink(p: Primitives, secret: Option<Bytes>, s: State, w: int)
    requires SealsAreNonEmpty(p) && Inv(p, secret, s)
    requires w in s.held && 1 <= w
    ensures LinkHash(CurrentVerifier(p, secret, s), s.chain[0], Int(w)) == s.held[w]
  {
    var g, n := s.chain[0], VersionOf(s.chain[0]);
    assert HashKey(g) == BlockHash;
    if w == n {
      assert KeysUpTo(p, s.seed, n)[n] == p.deriveKey(s.seed, n);
    }
  }

  /** Every state satisfying the invariant verifies. */
  lemma InvariantImpliesAccepted(p: Primitives, secret: Option<Bytes>, s: State)
    requires Sound(p) && Inv(p, secret, s)
    ensures Accepted(CurrentVerifier(p, secret, s), s.chain)
  {
    var v := CurrentVerifier(p, secret, s);
    var n := VersionOf(s.chain[0]);
    forall i | 1 <= i < |s.chain| ensures StepOk(v, s.chain[0], s.chain[i - 1], s.chain[i]) {
      DayAccepted(p, secret, s, i);
    }
  }

  /** A day block's seal, entries, identity seal and version pass on their own. */
  lemma DayPasses(p: Primitives, secret: Option<Bytes>, b: Block, seed: Bytes, n: int, v: Verifier)
    requires SealsAreNonEmpty(p) && DayInv(p, secret, b, seed, n)
    requires v == Verifier(p, p.deriveKey(seed, n), secret, Some(KeysUpTo(p, seed, n)))
    ensures SealValid(v, b) && HashKey(b) == DayHash
    ensures BlockKey(v, b) == Some(p.deriveKey(seed, VersionOf(b)))
    ensures Truthy(IdentitySealOf(b)) ==>
              secret.Some? && IdentitySealOf(b) == Str(p.mac(b.fields[DayHash].s, secret.value))
    ensures VersionIn(b) == Int(VersionOf(b)) && VersionOf(b) <= n
  {
    DayHashOf(p, secret, b, seed, n);
    assert KeysUpTo(p, seed, n)[VersionOf(b)] == p.deriveKey(seed, VersionOf(b));
    assert Signature !in DAY_FIELDS;
    assert Get(b.fields, Signature) == Null;
  }

  lemma DayLinked(p: Primitives, secret: Option<Bytes>, s: State, i: int)
    requires Sound(p) && Inv(p, secret, s) && 1 <= i < |s.chain|
    ensures Get(s.chain[i].fields, PrevHash)
         == LinkHash(CurrentVerifier(p, secret, s), s.chain[i - 1], VersionIn(s.chain[i]))
  {
    if i == 1 {
      GenesisLink(p, secret, s, VersionOf(s.chain[i]));
    } else {
      DayHashOf(p, secret, s.chain[i - 1], s.seed, VersionOf(s.chain[0]));
    }
  }

  lemma DayAccepted(p: Primitives, secret: Option<Bytes>, s: State, i: int)
    requires Sound(p) && Inv(p, secret, s) && 1 <= i < |s.chain|
    ensures StepOk(CurrentVerifier(p, secret, s), s.chain[0], s.chain[i - 1], s.chain[i])
  {
    hide GenesisInv, DayInv, EntryValid, SealValid, LinkHash, IdentitySealOf, BlockKey, HashKey, VersionOf, VersionIn,
      WithinGenesis, KeysUpTo, RequiresContentHash, Truthy, StoredLink;
    var b, n := s.chain[i], VersionOf(s.chain[0]);
    DayPasses(p, secret, b, s.seed, n, CurrentVerifier(p, secret, s));
    DayLinked(p, secret, s, i);
    DayEntriesPass(p, secret, b, s.seed, n);
    DayWithinGenesis(p, s.chain[0], b);
  }

  lemma DayEntriesPass(p: Primitives, secret: Option<Bytes>, b: Block, seed: Bytes, n: int)
    requires DayInv(p, secret, b, seed, n)
    ensures PrevHash in b.fields && 1 <= VersionOf(b)
    ensures forall e, required | e in EntriesOf(b) :: EntryValid(p, p.deriveKey(seed, VersionOf(b)), required, e)
  {
    hide EntryHashAccepted, ContentHashValid, Decryptable, SealedBody;
  }

  lemma DayWithinGenesis(p: Primitives, g: Block, b: Block)
    requires VersionIn(b) == Int(VersionOf(b)) && 1 <= VersionOf(b) <= VersionOf(g)
    ensures WithinGenesis(p, g, b)
  {
  }

  // ----- Steps ------------------------------------------------------------

  datatype Op =
    | AppendDay(datas: seq<Data>, date: Text)      // a day committed at the current version
    | Soft(draws: Draws)
    | Hard(newSeed: Bytes, draws: Draws)           // with the same seed or, on a passphrase change, a new one

  function RotationOf(p: Primitives, secret: Option<Bytes>, s: State, newSeed: Bytes, draws: Draws): Rotation
    requires s.chain != []
  {
    var n := VersionOf(s.chain[0]);
    Rotation(p, n, p.deriveKey(s.seed, n), p.deriveKey(newSeed, n + 1), secret, KeysUpTo(p, s.seed, n), draws)
  }

  predicate Committable(p: Primitives, key: Bytes, datas: seq<Data>) {
    forall d | d in datas :: ComputedContentHash(p, key, d).Some?
  }

  /** The data dictionaries with their content hashes stored. */
  function Committed(p: Primitives, key: Bytes, datas: seq<Data>): (out: seq<Data>)
    requires Committable(p, key, datas)
    ensures |out| == |datas|
  {
    seq(|datas|, i requires 0 <= i < |datas| =>
      datas[i][ContentHash := ComputedContentHash(p, key, datas[i]).value])
  }

  function Appended(p: Primitives, secret: Option<Bytes>, s: State, datas: seq<Data>, date: Text): State
    requires s.chain != []
    requires Committable(p, p.deriveKey(s.seed, VersionOf(s.chain[0])), datas)
  {
    var n := VersionOf(s.chain[0]);
    var key := p.deriveKey(s.seed, n);
    var last := s.chain[|s.chain| - 1];
    s.(chain := s.chain + [DayBlock(p, key, secret, Committed(p, key, datas), GetBlockHash(last), date,
                                    NextDayIndex(s.chain), Some(n))])
  }

  function Rotated(s: State, chain: seq<Block>, seed: Bytes): State
    requires s.chain != []
  {
    if chain == [] then s
    else State(chain, seed, s.held[VersionOf(s.chain[0]) + 1 := Get(chain[0].fields, BlockHash)])
  }

  /** One operation; a refused one leaves the ledger alone. */
  function Step(p: Primitives, secret: Option<Bytes>, s: State, op: Op): State
    requires s.chain != []
  {
    match op
    case AppendDay(datas, date) =>
      if Committable(p, p.deriveKey(s.seed, VersionOf(s.chain[0])), datas)
      then Appended(p, secret, s, datas, date) else s
    case Soft(draws) =>
      (match SoftRotated(RotationOf(p, secret, s, s.seed, draws), s.chain)
       case Some(chain) => Rotated(s, chain, s.seed)
       case None => s)
    case Hard(newSeed, draws) =>
      var r := RotationOf(p, secret, s, newSeed, draws);
      if !PreValidated(r, s.chain) then s
      else
        match HardRotated(r, s.chain)
        case Some(chain) => Rotated(s, chain, newSeed)
        case None => s
  }

  // ----- Appending --------------------------------------------------------

  lemma CommittedEntriesInv(p: Primitives, key: Bytes, datas: seq<Data>)
    requires Committable(p, key, datas)
    ensures EntriesInv(p, key, HashedEntries(p, Committed(p, key, datas)))
  {
    var es := HashedEntries(p, Committed(p, key, datas));
    forall e | e in es ensures EntryValid(p, key, true, e) && Decryptable(p, key, e.data) {
      HashedEntryIn(p, Committed(p, key, datas), e);
      var i :| 0 <= i < |datas| && e.data == Committed(p, key, datas)[i];
      CommittedDataValid(p, key, datas[i]);
    }
  }

  lemma CommittedDataValid(p: Primitives, key: Bytes, d: Data)
    requires ComputedContentHash(p, key, d).Some?
    ensures var d' := d[ContentHash := ComputedContentHash(p, key, d).value];
            ContentHashValid(p, key, d') && Decryptable(p, key, d')
  {
    StoredContentHashIsValid(p, key, d);
    forall f | f in d && LooksEncrypted(f, d[f]) ensures p.decrypt(key, d[f].s).Some? {
      assert f in Resolve(p, key, d) && !Resolve(p, key, d)[f].Opaque?;
    }
  }

  lemma AppendedDayInv(p: Primitives, secret: Option<Bytes>, seed: Bytes, n: int, datas: seq<Data>,
                       prevHash: Value, date: Text, index: int)
    requires n >= 1 && Committable(p, p.deriveKey(seed, n), datas)
    ensures DayInv(p, secret, DayBlock(p, p.deriveKey(seed, n), secret, Committed(p, p.deriveKey(seed, n), datas),
                                       prevHash, date, index, Some(n)), seed, n)
  {
    var key := p.deriveKey(seed, n);
    DayBlockIsSealed(p, key, secret, Committed(p, key, datas), prevHash, date, index, Some(n));
    DayBlockShape(p, key, secret, Committed(p, key, datas), prevHash, date, index, n);
    CommittedEntriesInv(p, key, datas);
    hide DayBlock, EntriesInv, Committed, HashedEntries, SealedBody, SealOf, Get;
  }

  lemma DayBlockShape(p: Primitives, key: Bytes, secret: Option<Bytes>, datas: seq<Data>, prevHash: Value, date: Text,
                      index: int, n: int)
    ensures var b := DayBlock(p, key, secret, datas, prevHash, date, index, Some(n));
            && Get(b.fields, Type) == Str("day") && b.fields.Keys <= DAY_FIELDS && PrevHash in b.fields
            && KeyVersionOf(b) == Some(n) && VersionOf(b) == n
            && DayHash in b.fields && b.fields[DayHash].Str? && b.entries == Some(HashedEntries(p, datas))
            && Get(b.fields, IdentitySeal)
               == (if Signs(secret) then Str(p.mac(b.fields[DayHash].s, secret.value)) else Null)
  {
    hide HashedEntries;
  }

  lemma AppendKeepsInv(p: Primitives, secret: Option<Bytes>, s: State, datas: seq<Data>, date: Text)
    requires Sound(p) && Inv(p, secret, s)
    requires Committable(p, p.deriveKey(s.seed, VersionOf(s.chain[0])), datas)
    ensures Inv(p, secret, Appended(p, secret, s, datas, date))
  {
    var m := |s.chain|;
    var b := Appended(p, secret, s, datas, date).chain[m];
    AppendedDayInv(p, secret, s.seed, VersionOf(s.chain[0]), datas, GetBlockHash(s.chain[m - 1]), date,
                   NextDayIndex(s.chain));
    AppendedLinks(p, secret, s, datas, date);
    hide DayInv, GenesisInv, DayBlock;
    ExtendInv(p, secret, s, b);
  }

  function LastLink(s: State): Value
    requires s.chain != []
  {
    if |s.chain| == 1 then Get(s.chain[0].fields, BlockHash) else Get(s.chain[|s.chain| - 1].fields, DayHash)
  }

  lemma LastHashIsLink(p: Primitives, secret: Option<Bytes>, s: State)
    requires Sound(p) && Inv(p, secret, s)
    ensures GetBlockHash(s.chain[|s.chain| - 1]) == LastLink(s) && VersionOf(s.chain[0]) in s.held
  {
    hide Rotatable;
    var m := |s.chain|;
    if m > 1 {
      assert DayInv(p, secret, s.chain[m - 1], s.seed, VersionOf(s.chain[0]));
      DayHashOf(p, secret, s.chain[m - 1], s.seed, VersionOf(s.chain[0]));
    }
  }

  /** The new block carries the current version and names the last hash. */
  lemma AppendedLinks(p: Primitives, secret: Option<Bytes>, s: State, datas: seq<Data>, date: Text)
    requires Sound(p) && Inv(p, secret, s)
    requires Committable(p, p.deriveKey(s.seed, VersionOf(s.chain[0])), datas)
    ensures var s' := Appended(p, secret, s, datas, date);
            var b := s'.chain[|s.chain|];
            && VersionOf(b) == VersionOf(s.chain[0]) && VersionOf(b) in s.held
            && s' == s.(chain := s.chain + [b])
            && Get(b.fields, PrevHash) == StoredLink(s', |s.chain|)
  {
    hide DayInv, GenesisInv, DayBlock, GetBlockHash, StoredLink, Committable;
    var n, m := VersionOf(s.chain[0]), |s.chain|;
    var key := p.deriveKey(s.seed, n);
    LastHashIsLink(p, secret, s);
    DayBlockFields(p, key, secret, Committed(p, key, datas), GetBlockHash(s.chain[m - 1]), date,
                   NextDayIndex(s.chain), Some(n));
    LinkOfNewBlock(p, s, Appended(p, secret, s, datas, date).chain[m]);
  }

  lemma LinkOfNewBlock(p: Primitives, s: State, b: Block)
    requires s.chain != [] && GenesisInv(p, s.chain[0], s.seed, s.held)
    requires VersionOf(b) == VersionOf(s.chain[0])
    ensures StoredLink(s.(chain := s.chain + [b]), |s.chain|)
         == LastLink(s)
  {
    var s' := s.(chain := s.chain + [b]);
    assert s'.chain[|s.chain|] == b && s'.chain[|s.chain| - 1] == s.chain[|s.chain| - 1];
  }

  /** A day block at the current version that names the last hash extends the chain. */
  lemma ExtendInv(p: Primitives, secret: Option<Bytes>, s: State, b: Block)
    requires Inv(p, secret, s) && DayInv(p, secret, b, s.seed, VersionOf(s.chain[0]))
    requires VersionOf(b) == VersionOf(s.chain[0]) && VersionOf(b) in s.held
    requires Get(b.fields, PrevHash) == StoredLink(s.(chain := s.chain + [b]), |s.chain|)
    ensures Inv(p, secret, s.(chain := s.chain + [b]))
  {
    hide DayInv, GenesisInv, Get;
    var s' := s.(chain := s.chain + [b]);
    assert s'.chain[0] == s.chain[0];
    forall i | 1 <= i < |s'.chain|
      ensures DayInv(p, secret, s'.chain[i], s'.seed, VersionOf(s.chain[0]))
      ensures Get(s'.chain[i].fields, PrevHash) == StoredLink(s', i)
    {
      if i < |s.chain| {
        assert s'.chain[i] == s.chain[i];
        assert StoredLink(s', i) == StoredLink(s, i);
      }
    }
  }

  // ----- Rotating genesis -------------------------------------------------

  /** The old rotation context that state `s` gives rise to. */
  ghost predicate RotatesFrom(r: Rotation, p: Primitives, secret: Option<Bytes>, g: Block, seed: Bytes, newSeed: Bytes) {
    var n := VersionOf(g);
    && r.p == p && r.current == n && r.secret == secret && secret.Some?
    && r.oldKey == p.deriveKey(seed, n) && r.newKey == p.deriveKey(newSeed, n + 1)
    && r.oldKeys == KeysUpTo(p, seed, n)
  }

  /** A rotatable identity rotates, to one holding the same secrets. */
  lemma IdentityRotates(r: Rotation, g: Block)
    requires DecryptsOwnCiphertexts(r.p) && Rotatable(r.p, r.oldKey, g)
    ensures RotatedIdentity(r, g).Some?
    ensures var before, after := g.fields[Identity].members, RotatedIdentity(r, g).value;
            && after.Obj? && after.members.Keys == before.Keys
            && (forall f | f in before && f != SecretFallback && f != Enc(RecoverySeed) ::
                  after.members[f] == before[f])
            && (forall f | f in before && (f == SecretFallback || f == Enc(RecoverySeed)) ::
                  && DecryptValue(r.p, r.oldKey, before[f]).Some?
                  && DecryptValue(r.p, r.newKey, after.members[f]) == DecryptValue(r.p, r.oldKey, before[f]))
  {
    hide DecryptsOwnCiphertexts, DecryptValue;
    HoldsSecret(r.p, r.oldKey, g);
    var before := g.fields[Identity].members;
    var secret := DecryptValue(r.p, r.oldKey, before[SecretFallback]).value;
    FreshDecrypts(r.p, r.newKey, secret, r.draws(0, 0, SecretFallback));
    if Enc(RecoverySeed) in before {
      var recovery := DecryptValue(r.p, r.oldKey, before[Enc(RecoverySeed)]).value;
      FreshDecrypts(r.p, r.newKey, recovery, r.draws(0, 0, Enc(RecoverySeed)));
    }
  }

  lemma HoldsSecret(p: Primitives, key: Bytes, g: Block)
    requires Rotatable(p, key, g)
    ensures Identity in g.fields && SecretFallback in g.fields[Identity].members
  {
  }

  lemma FreshDecrypts(p: Primitives, key: Bytes, t: Text, draw: nat)
    requires DecryptsOwnCiphertexts(p)
    ensures DecryptValue(p, key, Str(p.encrypt(key, t, draw))) == Some(t)
  {
  }

  /** Genesis with its identity rotated and its old hash set aside. */
  function NextGenesis(r: Rotation, g: Block): Option<Block> {
    var identity :- RotatedIdentity(r, g);
    RekeyedGenesis(r, WithIdentity(g, identity), Get(g.fields, BlockHash))
  }

  lemma GenesisRotates(r: Rotation, p: Primitives, secret: Option<Bytes>, g: Block,
                       seed: Bytes, newSeed: Bytes, held: map<int, Value>)
    requires Sound(p) && GenesisInv(p, g, seed, held) && RotatesFrom(r, p, secret, g, seed, newSeed)
    ensures NextGenesis(r, g).Some?
    ensures var g' := NextGenesis(r, g).value;
            && VersionOf(g') == VersionOf(g) + 1
            && GenesisInv(p, g', newSeed, held[VersionOf(g) + 1 := Get(g'.fields, BlockHash)])
  {
    hide Rotatable, HoldsPastHashes, RotatedIdentity, RekeyedGenesis, SealedBody;
    RekeyedIsRotatable(r, g);
    var w := WithIdentity(g, RotatedIdentity(r, g).value);
    RekeyedSeal(r, w, Get(g.fields, BlockHash));
    RekeyedHistory(r, g, held);
  }

  lemma RekeyedHistory(r: Rotation, g: Block, held: map<int, Value>)
    requires NextGenesis(r, g).Some? && HoldsPastHashes(g, r.current, held)
    requires Truthy(Get(NextGenesis(r, g).value.fields, BlockHash))
    ensures var g' := NextGenesis(r, g).value;
            && VersionOf(g') == r.current + 1 && Get(g'.fields, Type) == Get(g.fields, Type)
            && HoldsPastHashes(g', r.current + 1, held[r.current + 1 := Get(g'.fields, BlockHash)])
  {
    hide RotatedIdentity, RekeyedGenesis;
    RekeyedPast(r, WithIdentity(g, RotatedIdentity(r, g).value), Get(g.fields, BlockHash));
    PastHashesGrow(g, NextGenesis(r, g).value, r.current, held);
  }

  lemma RekeyedIsRotatable(r: Rotation, g: Block)
    requires DecryptsOwnCiphertexts(r.p) && Rotatable(r.p, r.oldKey, g)
    requires r.secret.Some? && Truthy(Get(g.fields, BlockHash))
    ensures NextGenesis(r, g).Some? && Rotatable(r.p, r.newKey, NextGenesis(r, g).value)
  {
    IdentityRotates(r, g);
    RekeyedFields(r, WithIdentity(g, RotatedIdentity(r, g).value), Get(g.fields, BlockHash));
    assert NextGenesis(r, g).value.fields[Identity] == RotatedIdentity(r, g).value;
    hide RotatedIdentity, RekeyedGenesis;
  }

  /** Setting the current hash aside and taking a new one keeps the record. */
  lemma PastHashesGrow(g: Block, g': Block, n: int, held: map<int, Value>)
    requires HoldsPastHashes(g, n, held) && Truthy(Get(g'.fields, BlockHash))
    requires Get(g'.fields, PrevBlockHash(n)) == Get(g.fields, BlockHash)
    requires forall w :: w != n ==>
               && (PrevBlockHash(w) in g'.fields <==> PrevBlockHash(w) in g.fields)
               && Get(g'.fields, PrevBlockHash(w)) == Get(g.fields, PrevBlockHash(w))
    ensures HoldsPastHashes(g', n + 1, held[n + 1 := Get(g'.fields, BlockHash)])
  {
  }

  lemma RekeyedSeal(r: Rotation, w: Block, held: Value)
    requires RekeyedGenesis(r, w, held).Some?
    ensures var g' := RekeyedGenesis(r, w, held).value;
            && BlockHash in g'.fields
            && g'.fields[BlockHash] == Str(SealOf(r.p, r.newKey, SealedBody(g', BlockHash)))
  {
    var g', fields := RekeyedGenesis(r, w, held).value, BumpedFields(r, w.fields, held).value;
    assert SealedBody(g', BlockHash).fields == SealedBody(Block(fields, w.entries), BlockHash).fields;
  }

  lemma RekeyedPast(r: Rotation, w: Block, held: Value)
    requires RekeyedGenesis(r, w, held).Some? && Truthy(held)
    ensures var g' := RekeyedGenesis(r, w, held).value;
            && VersionOf(g') == r.current + 1 && Get(g'.fields, Type) == Get(w.fields, Type)
            && Get(g'.fields, PrevBlockHash(r.current)) == held
            && (forall v :: v != r.current ==>
                  && Get(g'.fields, PrevBlockHash(v)) == Get(w.fields, PrevBlockHash(v))
                  && (PrevBlockHash(v) in g'.fields <==> PrevBlockHash(v) in w.fields))
  {
  }

  /** What re-keying a genesis block changes. */
  lemma RekeyedFields(r: Rotation, w: Block, held: Value)
    requires r.secret.Some? && Truthy(held) && (FormatVersion in w.fields ==> w.fields[FormatVersion].Str?)
    ensures RekeyedGenesis(r, w, held).Some?
    ensures var f, f' := w.fields, RekeyedGenesis(r, w, held).value.fields;
            && f'.Keys == f.Keys + {KeyVersion, PrevBlockHash(r.current), BlockHash, IdentitySeal}
                          + (if FormatVersion in f' then {FormatVersion} else {})
            && f'[KeyVersion] == Int(r.current + 1) && f'[PrevBlockHash(r.current)] == held
            && (FormatVersion in f' ==> f'[FormatVersion].Str?)
            && (forall k | k in f && k !in {KeyVersion, PrevBlockHash(r.current), BlockHash, IdentitySeal, FormatVersion} ::
                  f'[k] == f[k])
  {
    hide RekeyedGenesis, BumpedFields, Truthy;
    BumpedIs(r, w.fields, held);
    RekeyedSeals(r, w, held);
  }

  /** The versions and the past hash, before sealing. */
  lemma BumpedIs(r: Rotation, f: Data, held: Value)
    requires Truthy(held) && (FormatVersion in f ==> f[FormatVersion].Str?)
    ensures BumpedFields(r, f, held).Some?
    ensures var f' := BumpedFields(r, f, held).value;
            && f'.Keys == f.Keys + {KeyVersion, PrevBlockHash(r.current)} + (if FormatVersion in f' then {FormatVersion} else {})
            && f'[KeyVersion] == Int(r.current + 1) && f'[PrevBlockHash(r.current)] == held
            && (FormatVersion in f' ==> f'[FormatVersion].Str?)
            && (forall k | k in f && k !in {KeyVersion, PrevBlockHash(r.current), FormatVersion} :: f'[k] == f[k])
  {
  }

  /** Sealing adds the two seals to the bumped fields. */
  lemma RekeyedSeals(r: Rotation, w: Block, held: Value)
    requires r.secret.Some? && BumpedFields(r, w.fields, held).Some?
    ensures RekeyedGenesis(r, w, held).Some?
    ensures var bumped, f' := BumpedFields(r, w.fields, held).value, RekeyedGenesis(r, w, held).value.fields;
            && f'.Keys == bumped.Keys + {BlockHash, IdentitySeal}
            && forall k | k in bumped && k !in {BlockHash, IdentitySeal} :: f'[k] == bumped[k]
  {
    hide BumpedFields;
  }

  lemma DayInvAtLaterVersion(p: Primitives, secret: Option<Bytes>, b: Block, seed: Bytes, n: int)
    requires DayInv(p, secret, b, seed, n)
    ensures DayInv(p, secret, b, seed, n + 1) && VersionOf(b) <= n
  {
    hide EntriesInv;
  }

  lemma SoftChain(r: Rotation, chain: seq<Block>)
    requires chain != [] && NextGenesis(r, chain[0]).Some?
    ensures SoftRotated(r, chain) == Some([NextGenesis(r, chain[0]).value] + chain[1..])
  {
    hide RotatedIdentity, RekeyedGenesis;
  }

  /** A soft rotation succeeds, raises the version by one and touches no day block. */
  lemma SoftKeepsInv(p: Primitives, secret: Option<Bytes>, s: State, draws: Draws)
    requires Sound(p) && Inv(p, secret, s)
    ensures var c := SoftRotated(RotationOf(p, secret, s, s.seed, draws), s.chain);
            && c.Some? && |c.value| == |s.chain| && c.value[1..] == s.chain[1..]
            && VersionOf(c.value[0]) == VersionOf(s.chain[0]) + 1
            && SameSecrets(p, p.deriveKey(s.seed, VersionOf(s.chain[0])), s.chain[0],
                           p.deriveKey(s.seed, VersionOf(s.chain[0]) + 1), c.value[0])
            && OnlyMovedOn(s.chain[0], c.value[0], VersionOf(s.chain[0]))
            && Inv(p, secret, Rotated(s, c.value, s.seed))
  {
    hide DayInv, GenesisInv, SoftRotated, NextGenesis, Get, VersionOf, Sound, StoredLink, SameSecrets, OnlyMovedOn;
    var r := RotationOf(p, secret, s, s.seed, draws);
    SecretsMove(p, secret, s, r, s.seed);
    GenesisRotates(r, p, secret, s.chain[0], s.seed, s.seed, s.held);
    SoftChain(r, s.chain);
    var c := SoftRotated(r, s.chain).value;
    var hash := Get(c[0].fields, BlockHash);
    assert c[1..] == s.chain[1..];
    SameDaysKeepInv(p, secret, s, Rotated(s, c, s.seed), hash);
  }

  lemma SecretsMove(p: Primitives, secret: Option<Bytes>, s: State, r: Rotation, newSeed: Bytes)
    requires Sound(p) && Inv(p, secret, s) && RotatesFrom(r, p, secret, s.chain[0], s.seed, newSeed)
    ensures var n := VersionOf(s.chain[0]);
            && NextGenesis(r, s.chain[0]).Some?
            && SameSecrets(p, p.deriveKey(s.seed, n), s.chain[0], p.deriveKey(newSeed, n + 1), NextGenesis(r, s.chain[0]).value)
            && OnlyMovedOn(s.chain[0], NextGenesis(r, s.chain[0]).value, n)
  {
    hide DayInv, Rotatable, NextGenesis, SameSecrets, OnlyMovedOn, SealedBody, StoredLink;
    NextGenesisKeepsSecrets(r, s.chain[0]);
    NextGenesisKeepsRest(r, s.chain[0]);
  }

  lemma SameDaysKeepInv(p: Primitives, secret: Option<Bytes>, s: State, s': State, hash: Value)
    requires Inv(p, secret, s) && |s'.chain| == |s.chain| && s'.seed == s.seed
    requires forall i :: 1 <= i < |s.chain| ==> s'.chain[i] == s.chain[i]
    requires VersionOf(s'.chain[0]) == VersionOf(s.chain[0]) + 1
    requires GenesisInv(p, s'.chain[0], s'.seed, s'.held)
    requires s'.held == s.held[VersionOf(s.chain[0]) + 1 := hash]
    ensures Inv(p, secret, s')
  {
    hide GenesisInv, DayInv, Get, VersionOf;
    var n := VersionOf(s.chain[0]);
    forall i | 1 <= i < |s'.chain|
      ensures DayInv(p, secret, s'.chain[i], s'.seed, n + 1)
      ensures Get(s'.chain[i].fields, PrevHash) == StoredLink(s', i)
    {
      assert Get(s.chain[i].fields, PrevHash) == StoredLink(s, i);
      DayInvAtLaterVersion(p, secret, s.chain[i], s.seed, n);
    }
  }

  // ----- Hard rotation ----------------------------------------------------

  /** Two data dictionaries that decrypt alike, each under its own key: encrypted texts of more than
      40 characters hold the same text, and everything else is the same value. */
  predicate SamePlaintext(p: Primitives, key: Bytes, d: Data, newKey: Bytes, d': Data) {
    && d'.Keys == d.Keys && Resolve(p, newKey, d') == Resolve(p, key, d) && Get(d', ContentHash) == Get(d, ContentHash)
    && forall f | f in d ::
         if f.Enc? && d[f].Str? && |d[f].s| > 40
         then d'[f].Str? && |d'[f].s| > 40 && p.decrypt(newKey, d'[f].s) == p.decrypt(key, d[f].s)
         else d'[f] == d[f]
  }

  predicate SameEntries(p: Primitives, key: Bytes, es: seq<Entry>, newKey: Bytes, es': seq<Entry>) {
    |es'| == |es| && forall j :: 0 <= j < |es| ==> SamePlaintext(p, key, es[j].data, newKey, es'[j].data)
  }

  lemma ReencryptionKeepsPlaintext(r: Rotation, key: Bytes, d: Data, i: nat, j: nat)
    requires Sound(r.p) && Decryptable(r.p, key, d)
    ensures var d' := Reencrypted(r, key, d, i, j);
            && SamePlaintext(r.p, key, d, r.newKey, d') && Decryptable(r.p, r.newKey, d')
            && (ContentHashValid(r.p, key, d) ==> ContentHashValid(r.p, r.newKey, d'))
  {
    var d' := Reencrypted(r, key, d, i, j);
    forall f | f in d && f != ContentHash
      ensures CellOf(r.p, r.newKey, f, d'[f]) == CellOf(r.p, key, f, d[f])
    {
      assert d'[f] == ReencryptedValue(r, key, f, d[f], r.draws(i, j, f));
    }
    assert Resolve(r.p, r.newKey, d') == Resolve(r.p, key, d);
    assert d'.Keys == d.Keys;
    forall f | f in d
      ensures if f.Enc? && d[f].Str? && |d[f].s| > 40
              then d'[f].Str? && |d'[f].s| > 40 && r.p.decrypt(r.newKey, d'[f].s) == r.p.decrypt(key, d[f].s)
              else d'[f] == d[f]
    {
      assert d'[f] == ReencryptedValue(r, key, f, d[f], r.draws(i, j, f));
    }
  }

  lemma EntriesDecrypt(p: Primitives, key: Bytes, es: seq<Entry>)
    requires EntriesInv(p, key, es)
    ensures AllDecryptable(p, key, es)
  {
  }

  /** Adding one re-encrypted entry to a list already re-encrypted. */
  lemma EntryAdded(p: Primitives, key: Bytes, es: seq<Entry>, newKey: Bytes, es': seq<Entry>, e: Entry)
    requires es != [] && EntriesInv(p, newKey, es') && SameEntries(p, key, es[..|es| - 1], newKey, es')
    requires EntryValid(p, newKey, true, e) && Decryptable(p, newKey, e.data)
    requires SamePlaintext(p, key, es[|es| - 1].data, newKey, e.data)
    ensures EntriesInv(p, newKey, es' + [e]) && SameEntries(p, key, es, newKey, es' + [e])
  {
    hide EntryValid, Decryptable, SamePlaintext;
    forall j | 0 <= j < |es| ensures SamePlaintext(p, key, es[j].data, newKey, (es' + [e])[j].data) {
      assert j < |es| - 1 ==> es[j] == es[..|es| - 1][j];
    }
  }

  lemma {:induction false} ReencryptedEntriesInv(r: Rotation, key: Bytes, es: seq<Entry>, i: nat)
    requires Sound(r.p) && EntriesInv(r.p, key, es)
    ensures AllDecryptable(r.p, key, es)
    ensures EntriesInv(r.p, r.newKey, ReencryptedEntries(r, key, es, i))
    ensures SameEntries(r.p, key, es, r.newKey, ReencryptedEntries(r, key, es, i))
  {
    EntriesDecrypt(r.p, key, es);
    if es != [] {
      var j := |es| - 1;
      assert es[j] in es && EntriesInv(r.p, key, es[..j]);
      ReencryptedEntriesInv(r, key, es[..j], i);
      ReencryptionKeepsPlaintext(r, key, es[j].data, i, j);
      var d := Reencrypted(r, key, es[j].data, i, j);
      assert EntryValid(r.p, r.newKey, true, Entry(CanonicalEntryHash(r.p, d), d));
      hide EntriesInv, SameEntries, SamePlaintext, ContentHashValid, Decryptable, Reencrypted, AllDecryptable;
      EntryAdded(r.p, key, es, r.newKey, ReencryptedEntries(r, key, es[..j], i), Entry(CanonicalEntryHash(r.p, d), d));
    }
  }

  /** One day block rewritten: sealed at the new version, same plaintext, and
      linked through the hash map. */
  lemma RekeyedDayInv(r: Rotation, secret: Option<Bytes>, b: Block, g: Block, seed: Bytes, newSeed: Bytes,
                      i: nat, newHash: map<Value, Value>)
    requires Sound(r.p) && RotatesFrom(r, r.p, secret, g, seed, newSeed) && VersionOf(g) >= 1
    requires DayInv(r.p, secret, b, seed, r.current)
    ensures OldBlockKey(r, b, r.current) == r.p.deriveKey(seed, VersionOf(b)) == OldBlockKey(r, b, 1)
    ensures AllDecryptable(r.p, OldBlockKey(r, b, r.current), EntriesOf(b))
    ensures var b' := RekeyedDay(r, b, i, newHash);
            && DayInv(r.p, secret, b', newSeed, r.current + 1) && VersionOf(b') == r.current + 1
            && Get(b'.fields, PrevHash) == Relinked(Get(b.fields, PrevHash), newHash) && OnlyResealed(b, b')
            && SameEntries(r.p, r.p.deriveKey(seed, VersionOf(b)), EntriesOf(b), r.newKey, EntriesOf(b'))
  {
    hide EntriesInv, SameEntries, AllDecryptable;
    OldKeyOfDay(r, secret, b, seed);
    ReencryptedEntriesInv(r, r.p.deriveKey(seed, VersionOf(b)), EntriesOf(b), i);
    RekeyedDaySealed(r, b, i, newHash);
    RekeyedDayFields(r, b, i, newHash);
    hide RekeyedDay;
  }

  lemma OldKeyOfDay(r: Rotation, secret: Option<Bytes>, b: Block, seed: Bytes)
    requires DayInv(r.p, secret, b, seed, r.current) && r.oldKeys == KeysUpTo(r.p, seed, r.current)
    ensures OldBlockKey(r, b, r.current) == OldBlockKey(r, b, 1) == r.p.deriveKey(seed, VersionOf(b))
  {
    assert KeysUpTo(r.p, seed, r.current)[VersionOf(b)] == r.p.deriveKey(seed, VersionOf(b));
    hide EntriesInv;
  }

  /** A day block rewritten keeps every field but its version, its link and its seals. */
  ghost predicate OnlyResealed(b: Block, b': Block) {
    AgreeBut(b.fields, b'.fields, {KeyVersion, PrevHash, DayHash, IdentitySeal})
  }

  lemma RekeyedDayFields(r: Rotation, b: Block, i: nat, newHash: map<Value, Value>)
    requires AllDecryptable(r.p, OldBlockKey(r, b, r.current), EntriesOf(b))
    requires b.fields.Keys <= DAY_FIELDS && PrevHash in b.fields
    ensures var b' := RekeyedDay(r, b, i, newHash);
            && Get(b'.fields, Type) == Get(b.fields, Type) && b'.fields.Keys <= DAY_FIELDS && OnlyResealed(b, b')
            && PrevHash in b'.fields && KeyVersionOf(b') == Some(r.current + 1)
            && Get(b'.fields, PrevHash) == Relinked(Get(b.fields, PrevHash), newHash)
            && DayHash in b'.fields && b'.fields[DayHash].Str?
            && Get(b'.fields, IdentitySeal)
               == (if Signs(r.secret) then Str(r.p.mac(b'.fields[DayHash].s, r.secret.value))
                   else Get(b.fields, IdentitySeal))
            && b'.entries == Some(ReencryptedEntries(r, OldBlockKey(r, b, r.current), EntriesOf(b), i))
  {
    hide ReencryptedEntries, AllDecryptable, OldBlockKey;
  }

  lemma RekeyedDaySealed(r: Rotation, b: Block, i: nat, newHash: map<Value, Value>)
    requires AllDecryptable(r.p, OldBlockKey(r, b, r.current), EntriesOf(b))
    requires b.fields.Keys <= DAY_FIELDS
    ensures var b' := RekeyedDay(r, b, i, newHash);
            DayHash in b'.fields && b'.fields[DayHash] == Str(SealOf(r.p, r.newKey, SealedBody(b', DayHash)))
  {
    hide ReencryptedEntries, AllDecryptable, OldBlockKey;
    var b' := RekeyedDay(r, b, i, newHash);
    assert Signature !in DAY_FIELDS && FormatVersion !in DAY_FIELDS;
    var linked := b.fields[KeyVersion := Int(r.current + 1)];
    linked := if PrevHash in linked then linked[PrevHash := Relinked(linked[PrevHash], newHash)] else linked;
    assert SealedBody(b', DayHash).fields == linked - {DayHash, KeyVersion, IdentitySeal};
  }

  /** The old-to-new map takes the hash block i+1 used to name to the new hash of
      block i. Only the latest write per hash matters, so equal hashes of
      different blocks do no harm. */
  ghost predicate MapsLast(s: State, done: Progress, i: nat)
    requires i < |s.chain| && |done.blocks| == i + 1
  {
    if i == 0 then
      forall w :: w in s.held ==>
        s.held[w] in done.newHash && done.newHash[s.held[w]] == Get(done.blocks[0].fields, BlockHash)
    else
      var former := Get(s.chain[i].fields, DayHash);
      former in done.newHash && done.newHash[former] == Get(done.blocks[i].fields, DayHash)
  }

  /** Block i of a rewritten chain. */
  ghost predicate RewrittenDay(p: Primitives, secret: Option<Bytes>, s: State, newSeed: Bytes, blocks: seq<Block>, i: nat)
    requires 1 <= i < |blocks| && i < |s.chain|
  {
    var N := VersionOf(s.chain[0]) + 1;
    && DayInv(p, secret, blocks[i], newSeed, N) && VersionOf(blocks[i]) == N && OnlyResealed(s.chain[i], blocks[i])
    && Get(blocks[i].fields, PrevHash)
       == Get(blocks[i - 1].fields, if i == 1 then BlockHash else DayHash)
    && SameEntries(p, p.deriveKey(s.seed, VersionOf(s.chain[i])), EntriesOf(s.chain[i]),
                   p.deriveKey(newSeed, N), EntriesOf(blocks[i]))
  }

  lemma GenesisStep(r: Rotation, p: Primitives, secret: Option<Bytes>, s: State, newSeed: Bytes)
    requires Sound(p) && Inv(p, secret, s) && RotatesFrom(r, p, secret, s.chain[0], s.seed, newSeed)
    ensures RotatedIdentity(r, s.chain[0]).Some? && NextGenesis(r, s.chain[0]).Some?
    ensures var w := WithIdentity(s.chain[0], RotatedIdentity(r, s.chain[0]).value);
            var step := HardStep(r, w, Progress([], map[]), 0, w);
            && step.Some? && step.value.blocks == [NextGenesis(r, s.chain[0]).value]
            && MapsLast(s, step.value, 0)
  {
    hide DayInv, Sound, RotatesFrom, RotatedIdentity, RekeyedGenesis, Rotatable;
    var g := s.chain[0];
    GenesisRotates(r, p, secret, g, s.seed, newSeed, s.held);
    var w := WithIdentity(g, RotatedIdentity(r, g).value);
    assert Get(w.fields, Type) == Get(g.fields, Type) && Get(w.fields, BlockHash) == Get(g.fields, BlockHash);
    var done := HardStep(r, w, Progress([], map[]), 0, w).value;
    hide GenesisSealed;
    forall v | v in s.held
      ensures s.held[v] in done.newHash && done.newHash[s.held[v]] == Get(done.blocks[0].fields, BlockHash)
    {
      HeldHashIsMapped(w, VersionOf(g), s.held, v, done.blocks[0].fields[BlockHash]);
    }
  }

  lemma HeldHashIsMapped(w: Block, n: int, held: map<int, Value>, v: int, hash: Value)
    requires v in held && RemembersHashes(w, n, held)
    ensures held[v] in GenesisHashes(w, hash) && GenesisHashes(w, hash)[held[v]] == hash
  {
    if v != n {
      assert PrevBlockHash(v) in w.fields;
    }
  }

  /** What the invariant says of block i. */
  lemma InvAt(p: Primitives, secret: Option<Bytes>, s: State, i: nat)
    requires Sound(p) && Inv(p, secret, s) && 1 <= i < |s.chain|
    ensures VersionOf(s.chain[0]) >= 1 && DayInv(p, secret, s.chain[i], s.seed, VersionOf(s.chain[0]))
    ensures Get(s.chain[i].fields, PrevHash) == StoredLink(s, i) && Truthy(StoredLink(s, i))
    ensures Truthy(Get(s.chain[i].fields, DayHash)) && IsExplicitDay(s.chain[i])
    ensures i == 1 ==> VersionOf(s.chain[1]) in s.held
  {
    hide EntriesInv, Rotatable;
    assert DayInv(p, secret, s.chain[i], s.seed, VersionOf(s.chain[0]));
    if i > 1 {
      assert DayInv(p, secret, s.chain[i - 1], s.seed, VersionOf(s.chain[0]));
    }
  }

  lemma StoredLinkIsMapped(p: Primitives, secret: Option<Bytes>, s: State, done: Progress, i: nat)
    requires Sound(p) && Inv(p, secret, s) && 1 <= i < |s.chain| && |done.blocks| == i
    requires MapsLast(s, done, i - 1)
    ensures Relinked(Get(s.chain[i].fields, PrevHash), done.newHash)
         == Get(done.blocks[i - 1].fields, if i == 1 then BlockHash else DayHash)
  {
    hide Inv, DayInv, VersionOf;
    InvAt(p, secret, s, i);
  }

  /** One day block of the loop: rewritten, linked, and its hash entered in the map. */
  lemma DayStep(r: Rotation, p: Primitives, secret: Option<Bytes>, s: State, newSeed: Bytes, g: Block,
                done: Progress, i: nat)
    requires Sound(p) && Inv(p, secret, s) && RotatesFrom(r, p, secret, s.chain[0], s.seed, newSeed)
    requires 1 <= i < |s.chain| && |done.blocks| == i && MapsLast(s, done, i - 1)
    ensures AllDecryptable(p, OldBlockKey(r, s.chain[i], 1), EntriesOf(s.chain[i]))
    ensures var step := HardStep(r, g, done, i, s.chain[i]);
            && step.Some? && |step.value.blocks| == i + 1 && step.value.blocks[..i] == done.blocks
            && RewrittenDay(p, secret, s, newSeed, step.value.blocks, i)
            && MapsLast(s, step.value, i)
  {
    hide Inv, DayInv, VersionOf, SameEntries, AllDecryptable, RekeyedDay, Relinked, EntriesOf, OldBlockKey;
    var b := s.chain[i];
    InvAt(p, secret, s, i);
    RekeyedDayInv(r, secret, b, s.chain[0], s.seed, newSeed, i, done.newHash);
    StoredLinkIsMapped(p, secret, s, done, i);
    DayStepValue(r, g, done, i, b);
  }

  lemma DayStepValue(r: Rotation, g: Block, done: Progress, i: nat, b: Block)
    requires IsExplicitDay(b) && AllDecryptable(r.p, OldBlockKey(r, b, r.current), EntriesOf(b))
    requires Truthy(Get(b.fields, DayHash)) && |done.blocks| == i
    ensures var b' := RekeyedDay(r, b, i, done.newHash);
            && DayHash in b'.fields
            && HardStep(r, g, done, i, b)
               == Some(Progress(done.blocks + [b'], done.newHash[Get(b.fields, DayHash) := b'.fields[DayHash]]))
  {
    hide AllDecryptable, OldBlockKey, EntriesOf, ReencryptedEntries;
  }

  /** The invariant of the rewriting loop. */
  lemma {:induction false} HardPrefix(r: Rotation, p: Primitives, secret: Option<Bytes>, s: State, newSeed: Bytes, n: nat)
    requires Sound(p) && Inv(p, secret, s) && RotatesFrom(r, p, secret, s.chain[0], s.seed, newSeed)
    requires 1 <= n <= |s.chain|
    ensures RotatedIdentity(r, s.chain[0]).Some? && NextGenesis(r, s.chain[0]).Some?
    ensures var w := WithIdentity(s.chain[0], RotatedIdentity(r, s.chain[0]).value);
            var done := HardUpTo(r, s.chain[0 := w], n);
            && done.Some? && |done.value.blocks| == n
            && done.value.blocks[0] == NextGenesis(r, s.chain[0]).value
            && (forall i :: 1 <= i < n ==> RewrittenDay(p, secret, s, newSeed, done.value.blocks, i))
            && MapsLast(s, done.value, n - 1)
  {
    hide Inv, DayInv, GenesisInv, RotatedIdentity, NextGenesis, HardStep, MapsLast, RotatesFrom, RewrittenDay, Sound;
    GenesisStep(r, p, secret, s, newSeed);
    var w := WithIdentity(s.chain[0], RotatedIdentity(r, s.chain[0]).value);
    var chain := s.chain[0 := w];
    if n == 1 {
      assert HardUpTo(r, chain, 0) == Some(Progress([], map[]));
    } else {
      HardPrefix(r, p, secret, s, newSeed, n - 1);
      var before := HardUpTo(r, chain, n - 1).value;
      DayStep(r, p, secret, s, newSeed, chain[0], before, n - 1);
      var after := HardUpTo(r, chain, n).value;
      assert chain[n - 1] == s.chain[n - 1];
      forall i | 1 <= i < n ensures RewrittenDay(p, secret, s, newSeed, after.blocks, i) {
        if i < n - 1 {
          assert RewrittenDay(p, secret, s, newSeed, before.blocks, i);
          RewrittenDayInPrefix(p, secret, s, newSeed, before.blocks, after.blocks, i);
        }
      }
      assert after.blocks[0] == before.blocks[0];
    }
  }

  lemma RewrittenDayInPrefix(p: Primitives, secret: Option<Bytes>, s: State, newSeed: Bytes,
                             shorter: seq<Block>, longer: seq<Block>, i: nat)
    requires 1 <= i < |shorter| < |longer| && i < |s.chain| && longer[..|shorter|] == shorter
    requires RewrittenDay(p, secret, s, newSeed, shorter, i)
    ensures RewrittenDay(p, secret, s, newSeed, longer, i)
  {
    hide DayInv, SameEntries;
    assert longer[i] == shorter[i] && longer[i - 1] == shorter[i - 1];
  }

  /** Genesis before and after: the same identity secrets, each under its own key. */
  predicate SameSecrets(p: Primitives, key: Bytes, g: Block, newKey: Bytes, g': Block) {
    var before, after := Get(g.fields, Identity), Get(g'.fields, Identity);
    && before.Obj? && after.Obj? && before.members.Keys == after.members.Keys
    && (forall f | f in before.members && f != SecretFallback && f != Enc(RecoverySeed) ::
          after.members[f] == before.members[f])
    && (forall f | f in before.members && (f == SecretFallback || f == Enc(RecoverySeed)) ::
          DecryptValue(p, newKey, after.members[f]) == DecryptValue(p, key, before.members[f]))
  }

  /** A genesis block at the version after n keeps every field but its identity, its versions, its
      seals and the place where the hash of version n is set aside. */
  ghost predicate OnlyMovedOn(g: Block, g': Block, n: int) {
    && AgreeBut(g.fields, g'.fields, {Identity, KeyVersion, FormatVersion, BlockHash, IdentitySeal, PrevBlockHash(n)})
    && g'.entries == g.entries
  }

  lemma NextGenesisKeepsRest(r: Rotation, g: Block)
    requires NextGenesis(r, g).Some?
    ensures OnlyMovedOn(g, NextGenesis(r, g).value, r.current)
  {
    hide RotatedIdentity, RekeyedGenesis;
    var w := WithIdentity(g, RotatedIdentity(r, g).value);
    RekeyingKeepsRest(r, w, Get(g.fields, BlockHash));
    assert AgreeBut(g.fields, w.fields, {Identity});
  }

  lemma RekeyingKeepsRest(r: Rotation, w: Block, held: Value)
    requires RekeyedGenesis(r, w, held).Some?
    ensures var g' := RekeyedGenesis(r, w, held).value;
            && AgreeBut(w.fields, g'.fields, {KeyVersion, FormatVersion, BlockHash, IdentitySeal, PrevBlockHash(r.current)})
            && g'.entries == w.entries
  {
    var bumped := BumpedFields(r, w.fields, held).value;
    assert AgreeBut(w.fields, bumped, {KeyVersion, FormatVersion, PrevBlockHash(r.current)});
    hide BumpedFields, SealedBody, Truthy;
  }

  lemma NextGenesisKeepsSecrets(r: Rotation, g: Block)
    requires DecryptsOwnCiphertexts(r.p) && Rotatable(r.p, r.oldKey, g)
    requires r.secret.Some? && Truthy(Get(g.fields, BlockHash))
    ensures NextGenesis(r, g).Some? && SameSecrets(r.p, r.oldKey, g, r.newKey, NextGenesis(r, g).value)
  {
    IdentityRotates(r, g);
    RekeyedFields(r, WithIdentity(g, RotatedIdentity(r, g).value), Get(g.fields, BlockHash));
    assert NextGenesis(r, g).value.fields[Identity] == RotatedIdentity(r, g).value;
    hide RotatedIdentity, RekeyedGenesis;
  }

  ghost predicate SameContents(p: Primitives, s: State, newSeed: Bytes, c: seq<Block>)
    requires s.chain != []
  {
    var n := VersionOf(s.chain[0]);
    && |c| == |s.chain|
    && SameSecrets(p, p.deriveKey(s.seed, n), s.chain[0], p.deriveKey(newSeed, n + 1), c[0])
    && OnlyMovedOn(s.chain[0], c[0], n)
    && (forall i :: 1 <= i < |c| ==> OnlyResealed(s.chain[i], c[i]) && VersionOf(c[i]) == n + 1)
    && forall i :: 1 <= i < |c| ==>
         SameEntries(p, p.deriveKey(s.seed, VersionOf(s.chain[i])), EntriesOf(s.chain[i]),
                     p.deriveKey(newSeed, n + 1), EntriesOf(c[i]))
  }

  /** A hard rotation succeeds, raises the version by one, and every secret and
      every entry field decrypts to what it did before. */
  lemma HardKeepsInv(p: Primitives, secret: Option<Bytes>, s: State, newSeed: Bytes, draws: Draws)
    requires Sound(p) && Inv(p, secret, s)
    ensures var r := RotationOf(p, secret, s, newSeed, draws);
            var c := HardRotated(r, s.chain);
            && PreValidated(r, s.chain) && c.Some? && |c.value| == |s.chain|
            && SameContents(p, s, newSeed, c.value)
            && VersionOf(c.value[0]) == VersionOf(s.chain[0]) + 1
            && Inv(p, secret, Rotated(s, c.value, newSeed))
  {
    var r := RotationOf(p, secret, s, newSeed, draws);
    EntriesPreValidated(p, secret, s, r, newSeed);
    HardChain(r, p, secret, s, newSeed);
    var c := HardRotated(r, s.chain).value;
    hide DayInv, SameEntries, SameSecrets, HardRotated, GenesisInv, PreValidated, VersionOf, RotationOf, OnlyMovedOn,
      OnlyResealed;
    hide Inv, RewrittenDay, SameContents;
    RewrittenChainInv(p, secret, s, newSeed, c);
    RewrittenSaysTheSame(p, secret, s, newSeed, c);
  }

  lemma RewrittenSaysTheSame(p: Primitives, secret: Option<Bytes>, s: State, newSeed: Bytes, c: seq<Block>)
    requires s.chain != [] && |c| == |s.chain|
    requires forall i :: 1 <= i < |c| ==> RewrittenDay(p, secret, s, newSeed, c, i)
    requires var n := VersionOf(s.chain[0]);
             && SameSecrets(p, p.deriveKey(s.seed, n), s.chain[0], p.deriveKey(newSeed, n + 1), c[0])
             && OnlyMovedOn(s.chain[0], c[0], n)
    ensures SameContents(p, s, newSeed, c)
  {
    hide DayInv, SameEntries, SameSecrets, OnlyMovedOn, OnlyResealed, VersionOf;
    forall i | 1 <= i < |c|
      ensures OnlyResealed(s.chain[i], c[i]) && VersionOf(c[i]) == VersionOf(s.chain[0]) + 1
      ensures SameEntries(p, p.deriveKey(s.seed, VersionOf(s.chain[i])), EntriesOf(s.chain[i]),
                          p.deriveKey(newSeed, VersionOf(s.chain[0]) + 1), EntriesOf(c[i]))
    {
      assert RewrittenDay(p, secret, s, newSeed, c, i);
    }
  }

  /** The blocks a hard rotation writes. */
  lemma HardChain(r: Rotation, p: Primitives, secret: Option<Bytes>, s: State, newSeed: Bytes)
    requires Sound(p) && Inv(p, secret, s) && RotatesFrom(r, p, secret, s.chain[0], s.seed, newSeed)
    ensures HardRotated(r, s.chain).Some?
    ensures var c, n := HardRotated(r, s.chain).value, VersionOf(s.chain[0]);
            && |c| == |s.chain| && VersionOf(c[0]) == n + 1 && OnlyMovedOn(s.chain[0], c[0], n)
            && GenesisInv(p, c[0], newSeed, s.held[n + 1 := Get(c[0].fields, BlockHash)])
            && SameSecrets(p, p.deriveKey(s.seed, n), s.chain[0], p.deriveKey(newSeed, n + 1), c[0])
            && forall i :: 1 <= i < |c| ==> RewrittenDay(p, secret, s, newSeed, c, i)
  {
    hide DayInv, Rotatable, RotatedIdentity, NextGenesis, SameSecrets, HardUpTo, RewrittenDay, SealedBody;
    HardPrefix(r, p, secret, s, newSeed, |s.chain|);
    GenesisRotates(r, p, secret, s.chain[0], s.seed, newSeed, s.held);
    NextGenesisKeepsSecrets(r, s.chain[0]);
    NextGenesisKeepsRest(r, s.chain[0]);
  }

  lemma EntriesPreValidated(p: Primitives, secret: Option<Bytes>, s: State, r: Rotation, newSeed: Bytes)
    requires Sound(p) && Inv(p, secret, s) && RotatesFrom(r, p, secret, s.chain[0], s.seed, newSeed)
    ensures PreValidated(r, s.chain)
  {
    hide DayInv, AllDecryptable, OldBlockKey, EntriesInv, Rotatable;
    forall b | b in s.chain && IsExplicitDay(b) ensures AllDecryptable(p, OldBlockKey(r, b, 1), EntriesOf(b)) {
      var i :| 0 <= i < |s.chain| && s.chain[i] == b;
      if i > 0 {
        RekeyedDayInv(r, secret, b, s.chain[0], s.seed, newSeed, i, map[]);
      }
    }
  }

  lemma RewrittenChainInv(p: Primitives, secret: Option<Bytes>, s: State, newSeed: Bytes, c: seq<Block>)
    requires s.chain != [] && |c| == |s.chain| && secret.Some? && VersionOf(c[0]) == VersionOf(s.chain[0]) + 1
    requires forall i :: 1 <= i < |c| ==> RewrittenDay(p, secret, s, newSeed, c, i)
    requires GenesisInv(p, c[0], newSeed, s.held[VersionOf(s.chain[0]) + 1 := Get(c[0].fields, BlockHash)])
    ensures Inv(p, secret, Rotated(s, c, newSeed))
  {
    hide DayInv, SameEntries, GenesisInv;
    var s' := Rotated(s, c, newSeed);
    forall i | 1 <= i < |c|
      ensures DayInv(p, secret, c[i], newSeed, VersionOf(c[0])) && Get(c[i].fields, PrevHash) == StoredLink(s', i)
    {
      assert RewrittenDay(p, secret, s, newSeed, c, i);
    }
    if |c| > 1 {
      assert RewrittenDay(p, secret, s, newSeed, c, 1);
    }
  }

  // ----- Runs -------------------------------------------------------------

  function Run(p: Primitives, secret: Option<Bytes>, s: State, ops: seq<Op>): (s': State)
    requires s.chain != []
    ensures s'.chain != []
  {
    if ops == [] then s
    else
      var before := Run(p, secret, s, ops[..|ops| - 1]);
      var after := Step(p, secret, before, ops[|ops| - 1]);
      if after.chain == [] then before else after
  }

  function Rotations(ops: seq<Op>): nat {
    if ops == [] then 0 else Rotations(ops[..|ops| - 1]) + if ops[|ops| - 1].AppendDay? then 0 else 1
  }

  /** A freshly sealed genesis at version 1 or above starts a run. */
  lemma FreshGenesisStartsARun(p: Primitives, secret: Option<Bytes>, g: Block, seed: Bytes)
    requires SealsAreNonEmpty(p) && secret.Some? && VersionOf(g) >= 1
    requires GenesisSealed(p, g, p.deriveKey(seed, VersionOf(g))) && Rotatable(p, p.deriveKey(seed, VersionOf(g)), g)
    requires forall w :: w >= VersionOf(g) ==> PrevBlockHash(w) !in g.fields
    ensures Inv(p, secret, State([g], seed, map[VersionOf(g) := Get(g.fields, BlockHash)]))
  {
    hide Rotatable;
  }

  lemma StepKeepsInv(p: Primitives, secret: Option<Bytes>, s: State, op: Op)
    requires Sound(p) && Inv(p, secret, s)
    ensures var s' := Step(p, secret, s, op);
            && Inv(p, secret, s')
            && VersionOf(s'.chain[0]) == VersionOf(s.chain[0]) + (if op.AppendDay? then 0 else 1)
            && (forall w | w <= VersionOf(s.chain[0]) && w in s.held :: w in s'.held && s'.held[w] == s.held[w])
  {
    hide DayInv, GenesisInv, SoftRotated, HardRotated, DayBlock, SameContents, PreValidated;
    match op
    case AppendDay(datas, date) =>
      if Committable(p, p.deriveKey(s.seed, VersionOf(s.chain[0])), datas) {
        AppendKeepsInv(p, secret, s, datas, date);
        assert Step(p, secret, s, op).chain[0] == s.chain[0];
      }
    case Soft(draws) => SoftKeepsInv(p, secret, s, draws);
    case Hard(newSeed, draws) => HardKeepsInv(p, secret, s, newSeed, draws);
  }

  /** Over every run the ledger verifies, and every rotation raises the version. */
  lemma {:induction false} RunsVerify(p: Primitives, secret: Option<Bytes>, s: State, ops: seq<Op>)
    requires Sound(p) && Inv(p, secret, s)
    ensures var s' := Run(p, secret, s, ops);
            && Inv(p, secret, s') && Accepted(CurrentVerifier(p, secret, s'), s'.chain)
            && VersionOf(s'.chain[0]) == VersionOf(s.chain[0]) + Rotations(ops)
  {
    InvNonEmpty(p, secret, s);
    hide Inv, Step, VersionOf, Accepted, CurrentVerifier;
    if ops != [] {
      var before := Run(p, secret, s, ops[..|ops| - 1]);
      RunsVerify(p, secret, s, ops[..|ops| - 1]);
      StepKeepsInv(p, secret, before, ops[|ops| - 1]);
      InvNonEmpty(p, secret, Step(p, secret, before, ops[|ops| - 1]));
    }
    InvariantImpliesAccepted(p, secret, Run(p, secret, s, ops));
  }

  lemma InvNonEmpty(p: Primitives, secret: Option<Bytes>, s: State)
    requires Inv(p, secret, s)
    ensures s.chain != []
  {
  }

  lemma {:induction false} HeldOnlyGrows(p: Primitives, secret: Option<Bytes>, s: State, ops: seq<Op>, w: int)
    requires Sound(p) && Inv(p, secret, s) && w in s.held && w <= VersionOf(s.chain[0])
    ensures var s' := Run(p, secret, s, ops); w in s'.held && s'.held[w] == s.held[w]
  {
    if ops != [] {
      var before := Run(p, secret, s, ops[..|ops| - 1]);
      HeldOnlyGrows(p, secret, s, ops[..|ops| - 1], w);
      RunsVerify(p, secret, s, ops[..|ops| - 1]);
      hide Inv, Accepted, CurrentVerifier, Step;
      StepKeepsInv(p, secret, before, ops[|ops| - 1]);
    }
  }

  /** Once a version is past, genesis stores under its name the hash genesis had
      while that version was current. */
  lemma GenesisRemembersEveryVersion(p: Primitives, secret: Option<Bytes>, s: State, first: seq<Op>, rest: seq<Op>)
    requires Sound(p) && Inv(p, secret, s) && Rotations(rest) > 0
    ensures var mid := Run(p, secret, s, first);
            var end := Run(p, secret, mid, rest);
            Get(end.chain[0].fields, PrevBlockHash(VersionOf(mid.chain[0]))) == Get(mid.chain[0].fields, BlockHash)
  {
    hide Accepted, DayInv, Step, Rotatable, GenesisSealed;
    var mid := Run(p, secret, s, first);
    RunsVerify(p, secret, s, first);
    RunsVerify(p, secret, mid, rest);
    HeldOnlyGrows(p, secret, mid, rest, VersionOf(mid.chain[0]));
  }

  /** The command's guards let every ledger of a run rotate, so a rotation by the
      command is a step of the run. */
  lemma CommandIsReady(cmd: RotateKeysCommand, s: State, draws: Draws)
    requires Sound(cmd.p) && Inv(cmd.p, cmd.secret, s) && cmd.DecryptSeed() == s.seed
    requires cmd.currentKeyVersion.Some? ==> VersionOf(s.chain[0]) <= cmd.currentKeyVersion.value
    ensures cmd.ReadinessOf(s.chain) == Ready
    ensures cmd.RotationAt(CurrentVersion(s.chain[0]).value, draws)
         == RotationOf(cmd.p, cmd.secret, s, cmd.seed, draws)
  {
    hide Accepted, DayInv, HoldsPastHashes, GenesisSealed, VerdictFrom;
    InvariantImpliesAccepted(cmd.p, cmd.secret, s);
    VerifyAcceptsIff(CurrentVerifier(cmd.p, cmd.secret, s), s.chain);
  }
}
