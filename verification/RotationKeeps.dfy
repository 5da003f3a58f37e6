/**
 What a key rotation changes in a chain and what it leaves alone, field by
 field: for every chain a rotation can rewrite, and over every run.
 */
module RotationKeeps {
  import opened Json
  import opened TextOrder
  import opened Blocks
  import opened ContentHashes
  import opened Chain
  import opened Acceptance
  import opened KeyRotation
  import opened RotationRuns
  import W = Written

  // ----- Genesis ------------------------------------------------------------

  /** The secrets of an identity, moved from one key to the other; the rest is the same. */
  ghost predicate IdentityMoved(r: Rotation, before: Value, after: Value) {
    && before.Obj? && after.Obj? && before.members.Keys == after.members.Keys && SecretFallback in before.members
    && forall f | f in before.members ::
         if f == SecretFallback || f == Enc(RecoverySeed) then TextMoved(r, r.oldKey, before.members[f], after.members[f])
         else after.members[f] == before.members[f]
  }

  /** A ciphertext under `key` and a fresh one of the same text under the new key. */
  ghost predicate TextMoved(r: Rotation, key: Bytes, v: Value, v': Value) {
    exists t, draw :: v.Str? && r.p.decrypt(key, v.s) == Some(t) && v' == Str(r.p.encrypt(r.newKey, t, draw))
  }

  lemma IdentityMoves(r: Rotation, g: Block)
    requires RotatedIdentity(r, g).Some?
    ensures IdentityMoved(r, Get(g.fields, Identity), RotatedIdentity(r, g).value)
  {
    var before, after := Get(g.fields, Identity), RotatedIdentity(r, g).value;
    FreshMoves(r, before.members[SecretFallback], r.draws(0, 0, SecretFallback));
    if Enc(RecoverySeed) in before.members {
      FreshMoves(r, before.members[Enc(RecoverySeed)], r.draws(0, 0, Enc(RecoverySeed)));
    }
    hide DecryptValue, TextMoved;
  }

  lemma FreshMoves(r: Rotation, v: Value, draw: nat)
    ensures DecryptValue(r.p, r.oldKey, v).Some? ==>
              TextMoved(r, r.oldKey, v, Str(r.p.encrypt(r.newKey, DecryptValue(r.p, r.oldKey, v).value, draw)))
  {
  }

  /** The format version after a rotation: at least 0.5.0 in the order of texts. */
  ghost predicate VersionRaised(before: Data, after: Value) {
    if FormatVersion in before && before[FormatVersion].Str? && !TextLess(before[FormatVersion].s, "0.5.0")
    then after == before[FormatVersion] else after == Str("0.5.0")
  }

  /** A genesis block at the next version: sealed and signed under the new key, its old hash set
      aside under the old version, everything else as it was. */
  ghost predicate MovedOn(r: Rotation, w: Block, held: Value, g: Block) {
    && AgreeBut(w.fields, g.fields, {KeyVersion, FormatVersion, BlockHash, IdentitySeal, PrevBlockHash(r.current)})
    && g.entries == w.entries
    && Get(g.fields, KeyVersion) == Int(r.current + 1)
    && Get(g.fields, PrevBlockHash(r.current)) == (if Truthy(held) then held else Get(w.fields, PrevBlockHash(r.current)))
    && VersionRaised(w.fields, Get(g.fields, FormatVersion))
    && r.secret.Some?
    && exists s :: Get(g.fields, BlockHash) == Str(s) && IsSealOf(r.p, r.newKey, g, BlockHash, s)
                   && Get(g.fields, IdentitySeal) == Str(r.p.mac(s, r.secret.value))
  }

  lemma BumpingIs(r: Rotation, f: Data, held: Value)
    requires BumpedFields(r, f, held).Some?
    ensures var f' := BumpedFields(r, f, held).value;
            && AgreeBut(f, f', {KeyVersion, FormatVersion, PrevBlockHash(r.current)})
            && Get(f', KeyVersion) == Int(r.current + 1) && VersionRaised(f, Get(f', FormatVersion))
            && Get(f', PrevBlockHash(r.current)) == if Truthy(held) then held else Get(f, PrevBlockHash(r.current))
  {
    assert TextLess("0.0.0", "0.5.0") by {
      assert DiffersFirst("0.0.0", "0.5.0", 2);
      TextLessIs("0.0.0", "0.5.0");
    }
    hide TextLess, Truthy;
  }

  lemma GenesisMovesOn(r: Rotation, w: Block, held: Value)
    requires RekeyedGenesis(r, w, held).Some?
    ensures MovedOn(r, w, held, RekeyedGenesis(r, w, held).value)
  {
    BumpingIs(r, w.fields, held);
    var fields, g := BumpedFields(r, w.fields, held).value, RekeyedGenesis(r, w, held).value;
    RekeyedSeal(r, w, held);
    SealIs(r.p, r.newKey, g, BlockHash, g.fields[BlockHash].s);
    SignedWith(r, w, held);
    hide BumpedFields, VersionRaised, IsSealOf, RekeyedGenesis, SealedBody;
    AddedSeals(fields, g.fields, w.fields, r.current);
  }

  lemma SignedWith(r: Rotation, w: Block, held: Value)
    requires RekeyedGenesis(r, w, held).Some?
    ensures r.secret.Some?
    ensures var fields, g := BumpedFields(r, w.fields, held).value, RekeyedGenesis(r, w, held).value;
            && g.entries == w.entries && AgreeBut(fields, g.fields, {BlockHash, IdentitySeal})
            && Get(g.fields, BlockHash).Str?
            && Get(g.fields, IdentitySeal) == Str(r.p.mac(g.fields[BlockHash].s, r.secret.value))
  {
    hide BumpedFields, SealedBody;
  }

  lemma AddedSeals(fields: Data, sealed: Data, before: Data, n: int)
    requires AgreeBut(fields, sealed, {BlockHash, IdentitySeal})
    requires AgreeBut(before, fields, {KeyVersion, FormatVersion, PrevBlockHash(n)})
    ensures AgreeBut(before, sealed, {KeyVersion, FormatVersion, BlockHash, IdentitySeal, PrevBlockHash(n)})
    ensures Get(sealed, KeyVersion) == Get(fields, KeyVersion) && Get(sealed, FormatVersion) == Get(fields, FormatVersion)
    ensures Get(sealed, PrevBlockHash(n)) == Get(fields, PrevBlockHash(n))
  {
  }

  // ----- Day blocks ---------------------------------------------------------

  /** The key the entries of a block are read with: that of its version, or of the one assumed. */
  ghost predicate ReadsWith(r: Rotation, b: Block, assumed: int, key: Bytes) {
    var version := if KeyVersion in b.fields then b.fields[KeyVersion] else Int(assumed);
    if exists n :: IsNumber(version, n) && n in r.oldKeys
    then exists n :: IsNumber(version, n) && n in r.oldKeys && key == r.oldKeys[n]
    else key == r.oldKey
  }

  lemma ReadingKeyIs(r: Rotation, b: Block, assumed: int)
    ensures ReadsWith(r, b, assumed, OldBlockKey(r, b, assumed))
  {
    forall v, n ensures IsNumber(v, n) <==> NumberOf(v) == Some(n) {
      NumberIs(v, n);
    }
    hide IsNumber, NumberOf;
  }

  /** An entry moved to the new key: encrypted texts of more than 40 characters anew, every other
      field as it was, the hash in the indented layout. */
  ghost predicate EntryMoved(r: Rotation, key: Bytes, e: Entry, e': Entry) {
    && e'.data.Keys == e.data.Keys
    && (forall f | f in e.data ::
          if f.Enc? && e.data[f].Str? && |e.data[f].s| > 40 then TextMoved(r, key, e.data[f], e'.data[f])
          else e'.data[f] == e.data[f])
    && e'.hash == r.p.sha(r.p.dumpIndented(e'.data))
  }

  ghost predicate EntriesMoved(r: Rotation, key: Bytes, es: seq<Entry>, es': seq<Entry>) {
    |es'| == |es| && forall j :: 0 <= j < |es| ==> EntryMoved(r, key, es[j], es'[j])
  }

  lemma EntryMoves(r: Rotation, key: Bytes, e: Entry, i: nat, j: nat)
    requires Decryptable(r.p, key, e.data)
    ensures var d := Reencrypted(r, key, e.data, i, j); EntryMoved(r, key, e, Entry(CanonicalEntryHash(r.p, d), d))
  {
    var d := Reencrypted(r, key, e.data, i, j);
    forall f | f in e.data
      ensures if f.Enc? && e.data[f].Str? && |e.data[f].s| > 40 then TextMoved(r, key, e.data[f], d[f]) else d[f] == e.data[f]
    {
      assert d[f] == ReencryptedValue(r, key, f, e.data[f], r.draws(i, j, f));
    }
    hide TextMoved;
  }

  lemma {:induction false} EntriesMove(r: Rotation, key: Bytes, es: seq<Entry>, i: nat)
    requires AllDecryptable(r.p, key, es)
    ensures EntriesMoved(r, key, es, ReencryptedEntries(r, key, es, i))
  {
    hide EntryMoved, Reencrypted, Decryptable, CanonicalEntryHash;
    if es != [] {
      var n := |es| - 1;
      EntriesMove(r, key, es[..n], i);
      EntryMoves(r, key, es[n], i, n);
      var out := ReencryptedEntries(r, key, es, i);
      assert out[..n] == ReencryptedEntries(r, key, es[..n], i);
      forall j | 0 <= j < |es| ensures EntryMoved(r, key, es[j], out[j]) {
        if j < n {
          assert es[..n][j] == es[j] && out[..n][j] == out[j];
        }
      }
    }
  }

  /** A day block rewritten: its entries moved, re-linked, re-sealed and signed under the new key,
      every other field as it was. */
  ghost predicate DayMoved(r: Rotation, b: Block, b': Block) {
    && AgreeBut(b.fields, b'.fields, {KeyVersion, PrevHash, DayHash, IdentitySeal})
    && (PrevHash in b.fields <==> PrevHash in b'.fields) && Get(b'.fields, KeyVersion) == Int(r.current + 1)
    && b'.entries.Some?
    && (exists key :: ReadsWith(r, b, r.current, key)
                      && EntriesMoved(r, key, if b.entries.Some? then b.entries.value else [], b'.entries.value))
    && Get(b'.fields, DayHash)
       == Str(r.p.seal(r.newKey, r.p.dumpBlock(Block(b'.fields - {DayHash, KeyVersion, IdentitySeal}, b'.entries))))
    && Get(b'.fields, IdentitySeal)
       == if r.secret.Some? && r.secret.value != [] then Str(r.p.mac(b'.fields[DayHash].s, r.secret.value))
          else Get(b.fields, IdentitySeal)
  }

  lemma DayMoves(r: Rotation, b: Block, i: nat, newHash: map<Value, Value>)
    requires AllDecryptable(r.p, OldBlockKey(r, b, r.current), EntriesOf(b))
    ensures DayMoved(r, b, RekeyedDay(r, b, i, newHash))
  {
    hide ReadsWith, EntriesMoved, ReencryptedEntries, OldBlockKey, AllDecryptable;
    ReadingKeyIs(r, b, r.current);
    EntriesMove(r, OldBlockKey(r, b, r.current), EntriesOf(b), i);
    RekeyedDayIs(r, b, i, newHash);
    hide RekeyedDay;
  }

  lemma RekeyedDayIs(r: Rotation, b: Block, i: nat, newHash: map<Value, Value>)
    requires AllDecryptable(r.p, OldBlockKey(r, b, r.current), EntriesOf(b))
    ensures var b' := RekeyedDay(r, b, i, newHash);
            && AgreeBut(b.fields, b'.fields, {KeyVersion, PrevHash, DayHash, IdentitySeal})
            && (PrevHash in b.fields <==> PrevHash in b'.fields) && Get(b'.fields, KeyVersion) == Int(r.current + 1)
            && b'.entries == Some(ReencryptedEntries(r, OldBlockKey(r, b, r.current), EntriesOf(b), i))
            && Get(b'.fields, DayHash)
               == Str(r.p.seal(r.newKey, r.p.dumpBlock(Block(b'.fields - {DayHash, KeyVersion, IdentitySeal}, b'.entries))))
            && Get(b'.fields, IdentitySeal)
               == if r.secret.Some? && r.secret.value != [] then Str(r.p.mac(b'.fields[DayHash].s, r.secret.value))
                  else Get(b.fields, IdentitySeal)
  {
    hide ReencryptedEntries, AllDecryptable, OldBlockKey, Relinked;
    var b' := RekeyedDay(r, b, i, newHash);
    var linked := b.fields[KeyVersion := Int(r.current + 1)];
    linked := if PrevHash in linked then linked[PrevHash := Relinked(linked[PrevHash], newHash)] else linked;
    assert b'.fields - {DayHash, KeyVersion, IdentitySeal} == linked - {DayHash, KeyVersion, IdentitySeal};
  }

  // ----- Whole chains -------------------------------------------------------

  /** Block i of a rewritten chain. Blocks that are neither genesis nor explicit days, summaries
      among them, get the new version and nothing else. */
  ghost predicate Rewritten(r: Rotation, chain: seq<Block>, c: seq<Block>, i: nat)
    requires i < |chain| == |c|
  {
    if Get(chain[i].fields, Type) == Str("genesis") then MovedOn(r, chain[i], Get(chain[0].fields, BlockHash), c[i])
    else if Get(chain[i].fields, Type) == Str("day") then DayMoved(r, chain[i], c[i])
    else c[i] == Block(chain[i].fields[KeyVersion := Int(r.current + 1)], chain[i].entries)
  }

  lemma StepRewrites(r: Rotation, genesis: Block, done: Progress, i: nat, b: Block)
    requires HardStep(r, genesis, done, i, b).Some?
    ensures var blocks := HardStep(r, genesis, done, i, b).value.blocks;
            && |blocks| == |done.blocks| + 1 && blocks[..|done.blocks|] == done.blocks
            && var b' := blocks[|done.blocks|];
               if Get(b.fields, Type) == Str("genesis") then MovedOn(r, b, Get(genesis.fields, BlockHash), b')
               else if Get(b.fields, Type) == Str("day") then DayMoved(r, b, b')
               else b' == Block(b.fields[KeyVersion := Int(r.current + 1)], b.entries)
  {
    hide MovedOn, DayMoved, RekeyedGenesis, RekeyedDay, OldBlockKey, AllDecryptable, GenesisHashes;
    if Get(b.fields, Type) == Str("genesis") {
      GenesisMovesOn(r, b, Get(genesis.fields, BlockHash));
    } else if Get(b.fields, Type) == Str("day") {
      DayMoves(r, b, i, done.newHash);
    }
  }

  lemma {:induction false} LoopRewrites(r: Rotation, chain: seq<Block>, n: nat)
    requires chain != [] && n <= |chain| && HardUpTo(r, chain, n).Some?
    ensures |HardUpTo(r, chain, n).value.blocks| == n
    ensures forall i :: 0 <= i < n ==> Rewritten(r, chain[..n], HardUpTo(r, chain, n).value.blocks, i)
  {
    hide HardStep, MovedOn, DayMoved, Get;
    if n > 0 {
      LoopRewrites(r, chain, n - 1);
      var done := HardUpTo(r, chain, n - 1).value;
      StepRewrites(r, chain[0], done, n - 1, chain[n - 1]);
      var blocks := HardUpTo(r, chain, n).value.blocks;
      forall i | 0 <= i < n ensures Rewritten(r, chain[..n], blocks, i) {
        if i < n - 1 {
          assert Rewritten(r, chain[..n - 1], done.blocks, i);
          assert blocks[i] == blocks[..n - 1][i];
        }
      }
    }
  }

  /** The chain a rotation starts from, its genesis with the identity moved. */
  ghost predicate StartsFrom(r: Rotation, chain: seq<Block>, moved: seq<Block>) {
    && |moved| == |chain| > 0 && moved[1..] == chain[1..]
    && moved[0].entries == chain[0].entries && AgreeBut(chain[0].fields, moved[0].fields, {Identity})
    && IdentityMoved(r, Get(chain[0].fields, Identity), Get(moved[0].fields, Identity))
  }

  lemma IdentityStarts(r: Rotation, chain: seq<Block>)
    requires chain != [] && RotatedIdentity(r, chain[0]).Some?
    ensures StartsFrom(r, chain, chain[0 := WithIdentity(chain[0], RotatedIdentity(r, chain[0]).value)])
  {
    IdentityMoves(r, chain[0]);
    hide RotatedIdentity, IdentityMoved;
  }

  /** What a soft rotation does to any chain: genesis moves on, no other block is touched. */
  lemma SoftRewrites(r: Rotation, chain: seq<Block>)
    requires chain != [] && SoftRotated(r, chain).Some?
    ensures var c := SoftRotated(r, chain).value;
            && |c| == |chain| && c[1..] == chain[1..]
            && exists moved: seq<Block> :: StartsFrom(r, chain, moved) && MovedOn(r, moved[0], Get(chain[0].fields, BlockHash), c[0])
  {
    hide RotatedIdentity, RekeyedGenesis, MovedOn, StartsFrom;
    var identity := RotatedIdentity(r, chain[0]).value;
    IdentityStarts(r, chain);
    GenesisMovesOn(r, WithIdentity(chain[0], identity), Get(chain[0].fields, BlockHash));
    var moved := chain[0 := WithIdentity(chain[0], identity)];
    assert moved[0] == WithIdentity(chain[0], identity);
    hide WithIdentity;
  }

  /** What a hard rotation does to any chain, block by block. */
  lemma HardRewrites(r: Rotation, chain: seq<Block>)
    requires chain != [] && HardRotated(r, chain).Some?
    ensures var c := HardRotated(r, chain).value;
            && |c| == |chain|
            && exists moved: seq<Block> :: StartsFrom(r, chain, moved) && forall i :: 0 <= i < |c| ==> Rewritten(r, moved, c, i)
  {
    hide RotatedIdentity, HardUpTo, Rewritten, StartsFrom;
    IdentityStarts(r, chain);
    var moved := chain[0 := WithIdentity(chain[0], RotatedIdentity(r, chain[0]).value)];
    LoopRewrites(r, moved, |chain|);
    assert moved[..|chain|] == moved;
  }

  // ----- Whole runs ---------------------------------------------------------

  function KeyAt(p: Primitives, s: State, b: Block): Bytes {
    p.deriveKey(s.seed, VersionOf(b))
  }

  /** A block of the old chain and the same one later: of genesis the identity's secrets and every
      field that is neither a version, a seal nor a hash set aside; of a day its entries and every
      field but version, link and seals. */
  ghost predicate GenesisKept(p: Primitives, s: State, s': State)
    requires s.chain != [] && s'.chain != []
  {
    var g, g' := s.chain[0], s'.chain[0];
    && SameSecrets(p, KeyAt(p, s, g), g, KeyAt(p, s', g'), g') && g'.entries == g.entries
    && forall f: Field :: !f.PrevBlockHash? && f !in {Identity, KeyVersion, FormatVersion, BlockHash, IdentitySeal} ==>
                     (f in g.fields <==> f in g'.fields) && Get(g.fields, f) == Get(g'.fields, f)
  }

  ghost predicate DayKept(p: Primitives, s: State, s': State, i: nat)
    requires i < |s.chain| && i < |s'.chain|
  {
    && OnlyResealed(s.chain[i], s'.chain[i])
    && SameEntries(p, KeyAt(p, s, s.chain[i]), EntriesOf(s.chain[i]), KeyAt(p, s', s'.chain[i]), EntriesOf(s'.chain[i]))
  }

  ghost predicate SaysTheSame(p: Primitives, s: State, s': State) {
    && 0 < |s.chain| <= |s'.chain| && GenesisKept(p, s, s')
    && forall i: nat :: 1 <= i < |s.chain| ==> DayKept(p, s, s', i)
  }

  lemma SaysItself(p: Primitives, secret: Option<Bytes>, s: State)
    requires Inv(p, secret, s)
    ensures SaysTheSame(p, s, s)
  {
    hide DayInv, GenesisSealed, HoldsPastHashes, StoredLink;
  }

  lemma SecretsCompose(p: Primitives, k: Bytes, a: Block, l: Bytes, b: Block, m: Bytes, c: Block)
    requires SameSecrets(p, k, a, l, b) && SameSecrets(p, l, b, m, c)
    ensures SameSecrets(p, k, a, m, c)
  {
    hide DecryptValue;
  }

  lemma EntriesCompose(p: Primitives, k: Bytes, a: seq<Entry>, l: Bytes, b: seq<Entry>, m: Bytes, c: seq<Entry>)
    requires SameEntries(p, k, a, l, b) && SameEntries(p, l, b, m, c)
    ensures SameEntries(p, k, a, m, c)
  {
    hide Resolve;
    forall j | 0 <= j < |a| ensures SamePlaintext(p, k, a[j].data, m, c[j].data) {
      assert SamePlaintext(p, k, a[j].data, l, b[j].data) && SamePlaintext(p, l, b[j].data, m, c[j].data);
    }
  }

  lemma SayingComposes(p: Primitives, a: State, b: State, c: State)
    requires SaysTheSame(p, a, b) && SaysTheSame(p, b, c)
    ensures SaysTheSame(p, a, c)
  {
    hide SameSecrets, SameEntries, KeyAt, OnlyResealed, DayKept;
    SecretsCompose(p, KeyAt(p, a, a.chain[0]), a.chain[0], KeyAt(p, b, b.chain[0]), b.chain[0], KeyAt(p, c, c.chain[0]), c.chain[0]);
    forall i: nat | 1 <= i < |a.chain| ensures DayKept(p, a, c, i) {
      assert DayKept(p, a, b, i) && DayKept(p, b, c, i);
      DayKeptComposes(p, a, b, c, i);
    }
  }

  lemma DayKeptComposes(p: Primitives, a: State, b: State, c: State, i: nat)
    requires i < |a.chain| && i < |b.chain| && i < |c.chain| && DayKept(p, a, b, i) && DayKept(p, b, c, i)
    ensures DayKept(p, a, c, i)
  {
    hide SameEntries, KeyAt;
    EntriesCompose(p, KeyAt(p, a, a.chain[i]), EntriesOf(a.chain[i]), KeyAt(p, b, b.chain[i]), EntriesOf(b.chain[i]),
                   KeyAt(p, c, c.chain[i]), EntriesOf(c.chain[i]));
  }

  /** Days that are left alone, under the same seed, are kept. */
  lemma DaysLeftAlone(p: Primitives, s: State, s': State)
    requires SaysTheSame(p, s, s) && |s.chain| <= |s'.chain| && s'.seed == s.seed
    requires forall i :: 1 <= i < |s.chain| ==> s'.chain[i] == s.chain[i]
    ensures forall i: nat :: 1 <= i < |s.chain| ==> DayKept(p, s, s', i)
  {
    hide OnlyResealed, SameEntries, GenesisKept, VersionOf;
    forall i: nat | 1 <= i < |s.chain| ensures DayKept(p, s, s', i) {
      assert DayKept(p, s, s, i);
    }
  }

  lemma SoftSaysTheSame(p: Primitives, secret: Option<Bytes>, s: State, draws: KeyRotation.Draws)
    requires Sound(p) && Inv(p, secret, s)
    ensures var c := SoftRotated(RotationOf(p, secret, s, s.seed, draws), s.chain);
            c.Some? && SaysTheSame(p, s, Rotated(s, c.value, s.seed))
  {
    hide SoftRotated, DayInv, GenesisInv, SameEntries, SameSecrets, RotationOf;
    SoftKeepsInv(p, secret, s, draws);
    SaysItself(p, secret, s);
    var c := SoftRotated(RotationOf(p, secret, s, s.seed, draws), s.chain).value;
    hide Inv, VersionOf, DayKept;
    assert forall i :: 1 <= i < |c| ==> c[i] == c[1..][i - 1] == s.chain[i];
    DaysLeftAlone(p, s, Rotated(s, c, s.seed));
  }

  lemma HardSaysTheSame(p: Primitives, secret: Option<Bytes>, s: State, newSeed: Bytes, draws: KeyRotation.Draws)
    requires Sound(p) && Inv(p, secret, s)
    ensures var c := HardRotated(RotationOf(p, secret, s, newSeed, draws), s.chain);
            c.Some? && c.value != [] && SaysTheSame(p, s, Rotated(s, c.value, newSeed))
  {
    hide HardRotated, DayInv, GenesisInv, SameEntries, SameSecrets, RotationOf, PreValidated;
    HardKeepsInv(p, secret, s, newSeed, draws);
    var c := HardRotated(RotationOf(p, secret, s, newSeed, draws), s.chain).value;
    hide Inv, OnlyResealed, VersionOf;
  }

  lemma AppendSaysTheSame(p: Primitives, secret: Option<Bytes>, s: State, datas: seq<Data>, date: Text)
    requires Inv(p, secret, s) && Committable(p, p.deriveKey(s.seed, VersionOf(s.chain[0])), datas)
    ensures SaysTheSame(p, s, RotationRuns.Appended(p, secret, s, datas, date))
  {
    hide DayBlock, Inv, OnlyResealed, SameEntries, SameSecrets;
    SaysItself(p, secret, s);
    var s' := RotationRuns.Appended(p, secret, s, datas, date);
    assert forall i :: 0 <= i < |s.chain| ==> s'.chain[i] == s.chain[i];
    hide DayKept;
    DaysLeftAlone(p, s, s');
  }

  /** Whatever a run appends and rotates, what the ledger said before it still says: the secrets
      and every other field of genesis, and of every day its date, its number, its other fields
      and the plaintext of its entries. */
  lemma {:induction false} RunsSayTheSame(p: Primitives, secret: Option<Bytes>, s: State, ops: seq<Op>)
    requires Sound(p) && Inv(p, secret, s)
    ensures SaysTheSame(p, s, Run(p, secret, s, ops))
  {
    InvNonEmpty(p, secret, s);
    hide Inv, Accepted, CurrentVerifier, SaysTheSame;
    if ops == [] {
      SaysItself(p, secret, s);
    } else {
      var init, op := ops[..|ops| - 1], ops[|ops| - 1];
      var before := Run(p, secret, s, init);
      RunsSayTheSame(p, secret, s, init);
      RunsVerify(p, secret, s, init);
      StepSaysTheSame(p, secret, before, op);
      LongerIsNotEmpty(p, before, Step(p, secret, before, op));
      SayingComposes(p, s, before, Step(p, secret, before, op));
    }
  }

  lemma LongerIsNotEmpty(p: Primitives, s: State, s': State)
    requires SaysTheSame(p, s, s')
    ensures s'.chain != []
  {
  }

  lemma StepSaysTheSame(p: Primitives, secret: Option<Bytes>, s: State, op: Op)
    requires Sound(p) && Inv(p, secret, s) && s.chain != []
    ensures SaysTheSame(p, s, Step(p, secret, s, op))
  {
    hide Inv, SoftRotated, HardRotated, RotationRuns.Appended, SaysTheSame, PreValidated, Committable, RotationOf;
    SaysItself(p, secret, s);
    match op
    case AppendDay(datas, date) =>
      if Committable(p, p.deriveKey(s.seed, VersionOf(s.chain[0])), datas) {
        AppendSaysTheSame(p, secret, s, datas, date);
      }
    case Soft(draws) => SoftSaysTheSame(p, secret, s, draws);
    case Hard(newSeed, draws) => HardSaysTheSame(p, secret, s, newSeed, draws);
  }

  // ----- The days a run appends ---------------------------------------------

  /** A day appended during a run: at the current version, linked to the last block, numbered after
      it, and otherwise what every writer of days writes. */
  lemma AppendWrites(p: Primitives, secret: Option<Bytes>, s: State, datas: seq<Data>, date: Text)
    requires s.chain != [] && Committable(p, p.deriveKey(s.seed, VersionOf(s.chain[0])), datas)
    ensures var s', last, key := RotationRuns.Appended(p, secret, s, datas, date), s.chain[|s.chain| - 1], KeyAt(p, s, s.chain[0]);
            && |s'.chain| == |s.chain| + 1 && s.chain <= s'.chain
            && var b := s'.chain[|s.chain|];
               && Get(b.fields, KeyVersion) == Int(VersionOf(s.chain[0]))
               && exists link, es ::
                    && HasHash(last, link) && W.AreHashed(p, Committed(p, key, datas), es)
                    && W.IsDayAfter(p, key, secret, last, link, date, es, Block(b.fields - {KeyVersion}, b.entries))
  {
    hide HasHash, W.AreHashed, W.IsDayAfter, SealedBlock, DayBlock, DayFields, NextDayIndex, GetBlockHash, HashedEntries,
      Committed, VersionOf, ComputedContentHash;
    var last, key, n := s.chain[|s.chain| - 1], KeyAt(p, s, s.chain[0]), VersionOf(s.chain[0]);
    var link, es := GetBlockHash(last), HashedEntries(p, Committed(p, key, datas));
    HashIs(last, link);
    W.HashedIs(p, Committed(p, key, datas));
    W.DayBuilt(p, key, secret, s.chain, link, date, es);
    VersionedDay(p, key, secret, Committed(p, key, datas), link, date, NextDayIndex(s.chain), n);
  }

  lemma VersionedDay(p: Primitives, key: Bytes, secret: Option<Bytes>, datas: seq<Data>, link: Value, date: Text, index: int, n: int)
    ensures var b := DayBlock(p, key, secret, datas, link, date, index, Some(n));
            && Get(b.fields, KeyVersion) == Int(n)
            && Block(b.fields - {KeyVersion}, b.entries)
               == SealedBlock(p, key, secret, DayFields(link, date, index), Some(HashedEntries(p, datas)), DayHash)
  {
    var built := SealedBlock(p, key, secret, DayFields(link, date, index), Some(HashedEntries(p, datas)), DayHash);
    assert KeyVersion !in built.fields;
    hide SealedBlock, HashedEntries;
    assert built.fields[KeyVersion := Int(n)] - {KeyVersion} == built.fields;
  }

  lemma AppendNumbers(p: Primitives, secret: Option<Bytes>, s: State, datas: seq<Data>, date: Text, from: nat)
    requires s.chain != [] && Committable(p, p.deriveKey(s.seed, VersionOf(s.chain[0])), datas)
    requires W.NumberedFrom(s.chain, from)
    ensures W.NumberedFrom(RotationRuns.Appended(p, secret, s, datas, date).chain, from)
  {
    hide HasHash, W.AreHashed, W.SealedAndSigned, RotationRuns.Appended;
    AppendWrites(p, secret, s, datas, date);
    var c := RotationRuns.Appended(p, secret, s, datas, date).chain;
    var b, last := c[|s.chain|], s.chain[|s.chain| - 1];
    assert W.NumberedAfter(last, Block(b.fields - {KeyVersion}, b.entries));
    assert c[|s.chain| - 1] == last;
    W.NumberedOn(s.chain, c, from);
  }

  lemma RotationKeepsNumbers(p: Primitives, s: State, s': State, from: nat)
    requires SaysTheSame(p, s, s') && |s'.chain| == |s.chain| && W.NumberedFrom(s.chain, from)
    ensures W.NumberedFrom(s'.chain, from)
  {
    hide SameSecrets, SameEntries;
    forall i | 0 <= i < |s.chain|
      ensures Get(s'.chain[i].fields, Type) == Get(s.chain[i].fields, Type)
      ensures Get(s'.chain[i].fields, DayIndex) == Get(s.chain[i].fields, DayIndex)
    {
      if i > 0 {
        assert DayKept(p, s, s', i);
      }
    }
    hide SaysTheSame, Get;
    forall i | 1 <= i < |s'.chain| && from <= i && Get(s'.chain[i].fields, Type) == Str("day")
      ensures W.NumberedAfter(s'.chain[i - 1], s'.chain[i])
    {
      assert W.NumberedAfter(s.chain[i - 1], s.chain[i]);
    }
  }

  /** Over every run the days it appended stay numbered: each has the number after that of the day
      right before it, and 1 after anything else. */
  lemma {:induction false} RunsNumberDays(p: Primitives, secret: Option<Bytes>, s: State, ops: seq<Op>)
    requires Sound(p) && Inv(p, secret, s)
    ensures W.NumberedFrom(Run(p, secret, s, ops).chain, |s.chain|)
  {
    InvNonEmpty(p, secret, s);
    hide Inv, Accepted, CurrentVerifier, SaysTheSame, W.NumberedFrom;
    if ops == [] {
      assert W.NumberedFrom(s.chain, |s.chain|) by { NothingToNumber(s.chain); }
    } else {
      var init, op := ops[..|ops| - 1], ops[|ops| - 1];
      var before := Run(p, secret, s, init);
      RunsNumberDays(p, secret, s, init);
      RunsVerify(p, secret, s, init);
      StepSaysTheSame(p, secret, before, op);
      StepNumbers(p, secret, before, op, |s.chain|);
    }
  }

  lemma NothingToNumber(chain: seq<Block>)
    ensures W.NumberedFrom(chain, |chain|)
  {
  }

  lemma StepNumbers(p: Primitives, secret: Option<Bytes>, s: State, op: Op, from: nat)
    requires Sound(p) && Inv(p, secret, s) && s.chain != [] && W.NumberedFrom(s.chain, from)
    ensures W.NumberedFrom(Step(p, secret, s, op).chain, from)
  {
    hide Inv, SoftRotated, HardRotated, RotationRuns.Appended, SaysTheSame, PreValidated, Committable, RotationOf, W.NumberedFrom,
      SameContents;
    match op
    case AppendDay(datas, date) =>
      if Committable(p, p.deriveKey(s.seed, VersionOf(s.chain[0])), datas) {
        AppendNumbers(p, secret, s, datas, date, from);
      }
    case Soft(draws) =>
      SoftSaysTheSame(p, secret, s, draws);
      SoftKeepsInv(p, secret, s, draws);
      var c := SoftRotated(RotationOf(p, secret, s, s.seed, draws), s.chain).value;
      RotationKeepsNumbers(p, s, Rotated(s, c, s.seed), from);
    case Hard(newSeed, draws) =>
      HardSaysTheSame(p, secret, s, newSeed, draws);
      HardKeepsInv(p, secret, s, newSeed, draws);
      var c := HardRotated(RotationOf(p, secret, s, newSeed, draws), s.chain).value;
      RotationKeepsNumbers(p, s, Rotated(s, c, newSeed), from);
  }

  // ----- The command's guards -----------------------------------------------

  /** The ledger is readable with this seed, at this version of genesis. */
  ghost predicate Readable(p: Primitives, seed: Bytes, genesis: Block, n: int) {
    && (if KeyVersion in genesis.fields then genesis.fields[KeyVersion] == Int(n) else n == 1)
    && exists m, v, t ::
         Get(genesis.fields, Identity) == Obj(m) && SecretFallback in m && m[SecretFallback] == Str(v)
         && p.decrypt(p.deriveKey(seed, n), v) == Some(t)
  }

  /** The verifier a rotation runs first: keys for versions 1 to n of the seed. */
  ghost predicate ChecksWith(v: Verifier, p: Primitives, seed: Bytes, secret: Option<Bytes>, n: int) {
    && v.p == p && v.key == p.deriveKey(seed, n) && v.secret == secret && v.versions.Some?
    && forall w :: (w in v.versions.value <==> 1 <= w <= n) && (1 <= w <= n ==> v.versions.value[w] == p.deriveKey(seed, w))
  }

  /** The ledger verifies, with the keys of versions 1 to n of the seed. */
  ghost predicate Verifies(p: Primitives, seed: Bytes, secret: Option<Bytes>, n: int, chain: seq<Block>) {
    exists v :: ChecksWith(v, p, seed, secret, n)
                && forall i :: 1 <= i < |chain| ==> Acceptable(v, chain[0], chain[i - 1], chain[i])
  }

  /** A rotation starts exactly on a ledger that is readable with the old seed, or with the seed
      when no old one is given, is not ahead of the version the caller names, and verifies. */
  lemma ReadyIs(cmd: RotateKeysCommand, chain: seq<Block>)
    ensures cmd.ReadinessOf(chain) == Ready <==>
            && chain != []
            && var seed := if cmd.oldSeed.Some? && |cmd.oldSeed.value| > 0 then cmd.oldSeed.value else cmd.seed;
               exists n ::
                 && Readable(cmd.p, seed, chain[0], n) && (cmd.currentKeyVersion.Some? ==> n <= cmd.currentKeyVersion.value)
                 && Verifies(cmd.p, seed, cmd.secret, n, chain)
  {
    hide VerdictFrom, Readable, Verifies;
    if chain != [] {
      SeedFitsIs(cmd, chain[0]);
      var n := CurrentVersion(chain[0]);
      if n.Some? {
        VerifiesIs(cmd.p, cmd.DecryptSeed(), cmd.secret, n.value, chain);
        assert Readable(cmd.p, cmd.DecryptSeed(), chain[0], n.value) <==> cmd.SeedFits(chain[0]);
      }
    }
  }

  lemma VerifiesIs(p: Primitives, seed: Bytes, secret: Option<Bytes>, n: int, chain: seq<Block>)
    ensures Verifies(p, seed, secret, n, chain)
       <==> VerdictFrom(Verifier(p, p.deriveKey(seed, n), secret, Some(KeysUpTo(p, seed, n))), chain, 1) == Accepts
  {
    hide Acceptable, VerdictFrom, ChecksWith;
    var v := Verifier(p, p.deriveKey(seed, n), secret, Some(KeysUpTo(p, seed, n)));
    VerifyIs(v, chain);
    CheckerIs(p, seed, secret, n);
    assert ChecksWith(v, p, seed, secret, n);
  }

  lemma SeedFitsIs(cmd: RotateKeysCommand, g: Block)
    ensures forall n :: Readable(cmd.p, cmd.DecryptSeed(), g, n) <==> CurrentVersion(g) == Some(n) && cmd.SeedFits(g)
  {
    forall n ensures Readable(cmd.p, cmd.DecryptSeed(), g, n) <==> CurrentVersion(g) == Some(n) && cmd.SeedFits(g) {
      if CurrentVersion(g) == Some(n) && cmd.SeedFits(g) {
        var m := Get(g.fields, Identity).members;
        assert Get(g.fields, Identity) == Obj(m) && m[SecretFallback] == Str(m[SecretFallback].s);
      }
    }
  }

  lemma CheckerIs(p: Primitives, seed: Bytes, secret: Option<Bytes>, n: int)
    ensures forall v :: ChecksWith(v, p, seed, secret, n)
                        <==> v == Verifier(p, p.deriveKey(seed, n), secret, Some(KeysUpTo(p, seed, n)))
  {
    forall v ensures ChecksWith(v, p, seed, secret, n)
                     <==> v == Verifier(p, p.deriveKey(seed, n), secret, Some(KeysUpTo(p, seed, n)))
    {
      if ChecksWith(v, p, seed, secret, n) {
        assert v.versions.value == KeysUpTo(p, seed, n);
      }
    }
  }

  /** The text of field f of an entry of b, encrypted and of more than 40 characters. */
  ghost predicate HoldsCiphertext(b: Block, e: Entry, f: Field, t: Text) {
    && Get(b.fields, Type) == Str("day") && b.entries.Some? && e in b.entries.value
    && f.Enc? && f in e.data && e.data[f] == Str(t) && |t| > 40
  }

  /** A hard rotation goes ahead exactly when every encrypted text of more than 40 characters in a
      day decrypts with the key of the day's version, 1 if it names none. */
  lemma PreValidatedIs(r: Rotation, chain: seq<Block>)
    ensures PreValidated(r, chain) <==>
            forall b, e, f, t | b in chain && HoldsCiphertext(b, e, f, t) ::
              exists key :: ReadsWith(r, b, 1, key) && r.p.decrypt(key, t).Some?
  {
    hide ReadsWith, OldBlockKey, AllDecryptable, HoldsCiphertext;
    forall b ensures ReadsWith(r, b, 1, OldBlockKey(r, b, 1)) {
      ReadingKeyIs(r, b, 1);
    }
    forall b, key | ReadsWith(r, b, 1, key) ensures key == OldBlockKey(r, b, 1) {
      ReadingKeyIsUnique(r, b, 1, key);
    }
    forall b ensures IsExplicitDay(b) && !AllDecryptable(r.p, OldBlockKey(r, b, 1), EntriesOf(b))
                     <==> exists e, f, t :: HoldsCiphertext(b, e, f, t) && r.p.decrypt(OldBlockKey(r, b, 1), t).None? {
      CiphertextsDecrypt(r.p, OldBlockKey(r, b, 1), b);
    }
  }

  lemma CiphertextsDecrypt(p: Primitives, key: Bytes, b: Block)
    ensures IsExplicitDay(b) && !AllDecryptable(p, key, EntriesOf(b))
            <==> exists e, f, t :: HoldsCiphertext(b, e, f, t) && p.decrypt(key, t).None?
  {
    if IsExplicitDay(b) && !AllDecryptable(p, key, EntriesOf(b)) {
      var e :| e in EntriesOf(b) && !Decryptable(p, key, e.data);
      var f :| f in e.data && LooksEncrypted(f, e.data[f]) && p.decrypt(key, e.data[f].s).None?;
      assert HoldsCiphertext(b, e, f, e.data[f].s);
    }
    if e, f, t :| HoldsCiphertext(b, e, f, t) && p.decrypt(key, t).None? {
      assert !Decryptable(p, key, e.data);
    }
  }

  lemma ReadingKeyIsUnique(r: Rotation, b: Block, assumed: int, key: Bytes)
    requires ReadsWith(r, b, assumed, key)
    ensures key == OldBlockKey(r, b, assumed)
  {
    forall v, n ensures IsNumber(v, n) <==> NumberOf(v) == Some(n) {
      NumberIs(v, n);
    }
    hide IsNumber, NumberOf;
  }
}
