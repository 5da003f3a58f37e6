/**
 Master-key rotation. A soft rotation re-seals genesis alone; a hard rotation
 re-encrypts and re-seals the whole chain. Either may change the seed's version.
 */
module KeyRotation {
  import opened Json
  import opened TextOrder
  import opened Blocks
  import opened ContentHashes
  import opened Chain

  /** The randomness each encryption draws: by block, by entry, by field. */
  type Draws = (nat, nat, Field) -> nat

  /** One rotation from version `current` to the next. */
  datatype Rotation = Rotation(
    p: Primitives, current: int, oldKey: Bytes, newKey: Bytes,
    secret: Option<Bytes>, oldKeys: map<int, Bytes>, draws: Draws)

  /** Short texts hold no ciphertext body, so they decrypt alike under every key. */
  ghost predicate ShortTextsDecryptAlike(p: Primitives) {
    forall k, l, t :: |t| <= 40 ==> p.decrypt(k, t) == p.decrypt(l, t)
  }

  /** The lookup covering versions 1 to `current`. */
  function KeysUpTo(p: Primitives, seed: Bytes, current: int): map<int, Bytes> {
    map v | 1 <= v <= current :: p.deriveKey(seed, v)
  }

  // ----- Genesis ----------------------------------------------------------

  /** The identity dictionary with its two secrets moved to the new key. */
  function RotatedIdentity(r: Rotation, genesis: Block): Option<Value> {
    var identity := Get(genesis.fields, Identity);
    if !identity.Obj? || SecretFallback !in identity.members then None
    else
      var secret :- DecryptValue(r.p, r.oldKey, identity.members[SecretFallback]);
      var m := identity.members[SecretFallback := Str(r.p.encrypt(r.newKey, secret, r.draws(0, 0, SecretFallback)))];
      if Enc(RecoverySeed) !in m then Some(Obj(m))
      else
        var recovery :- DecryptValue(r.p, r.oldKey, m[Enc(RecoverySeed)]);
        Some(Obj(m[Enc(RecoverySeed) := Str(r.p.encrypt(r.newKey, recovery, r.draws(0, 0, Enc(RecoverySeed))))]))
  }

  /** Genesis fields after the version bumps, with the hash it held stored away. */
  function BumpedFields(r: Rotation, fields: Data, held: Value): Option<Data> {
    var fv := if FormatVersion in fields then fields[FormatVersion] else Str("0.0.0");
    if !fv.Str? then None
    else
      var bumped := fields[KeyVersion := Int(r.current + 1)];
      var versioned := if TextLess(fv.s, "0.5.0") then bumped[FormatVersion := Str("0.5.0")] else bumped;
      Some(if Truthy(held) then versioned[PrevBlockHash(r.current) := held] else versioned)
  }

  /** A genesis block moved to the next version and sealed with the new key. */
  function RekeyedGenesis(r: Rotation, genesis: Block, held: Value): Option<Block> {
    var fields :- BumpedFields(r, genesis.fields, held);
    if r.secret.None? then None
    else
      var hash := SealOf(r.p, r.newKey, SealedBody(Block(fields, genesis.entries), BlockHash));
      Some(Block(fields[BlockHash := Str(hash)][IdentitySeal := Str(r.p.mac(hash, r.secret.value))], genesis.entries))
  }

  function WithIdentity(genesis: Block, identity: Value): Block {
    genesis.(fields := genesis.fields[Identity := identity])
  }

  function SoftRotated(r: Rotation, chain: seq<Block>): Option<seq<Block>>
    requires chain != []
  {
    var identity :- RotatedIdentity(r, chain[0]);
    var genesis :- RekeyedGenesis(r, WithIdentity(chain[0], identity), Get(chain[0].fields, BlockHash));
    Some([genesis] + chain[1..])
  }

  // ----- Hard rotation ----------------------------------------------------

  /** Whether the rotation treats a field as ciphertext. */
  predicate LooksEncrypted(f: Field, v: Value) {
    f.Enc? && v.Str? && |v.s| > 40
  }

  predicate Decryptable(p: Primitives, key: Bytes, d: Data) {
    forall f | f in d && LooksEncrypted(f, d[f]) :: p.decrypt(key, d[f].s).Some?
  }

  function ReencryptedValue(r: Rotation, key: Bytes, f: Field, v: Value, draw: nat): Value
    requires LooksEncrypted(f, v) ==> r.p.decrypt(key, v.s).Some?
  {
    if LooksEncrypted(f, v) then Str(r.p.encrypt(r.newKey, r.p.decrypt(key, v.s).value, draw)) else v
  }

  function Reencrypted(r: Rotation, key: Bytes, d: Data, i: nat, j: nat): Data
    requires Decryptable(r.p, key, d)
  {
    map f | f in d :: ReencryptedValue(r, key, f, d[f], r.draws(i, j, f))
  }

  predicate AllDecryptable(p: Primitives, key: Bytes, es: seq<Entry>) {
    forall e | e in es :: Decryptable(p, key, e.data)
  }

  function ReencryptedEntries(r: Rotation, key: Bytes, es: seq<Entry>, i: nat): (out: seq<Entry>)
    requires AllDecryptable(r.p, key, es)
    ensures |out| == |es|
  {
    if es == [] then []
    else
      var j := |es| - 1;
      var d := Reencrypted(r, key, es[j].data, i, j);
      ReencryptedEntries(r, key, es[..j], i) + [Entry(CanonicalEntryHash(r.p, d), d)]
  }

  /** The key a day block of the old chain decrypts with; `default` is the
      version assumed when the block names none. */
  function OldBlockKey(r: Rotation, b: Block, default: int): Bytes {
    var kv := if KeyVersion in b.fields then b.fields[KeyVersion] else Int(default);
    var n := NumberOf(kv);
    if n.Some? && n.value in r.oldKeys then r.oldKeys[n.value] else r.oldKey
  }

  predicate IsExplicitDay(b: Block) {
    Get(b.fields, Type) == Str("day")
  }

  predicate PreValidated(r: Rotation, chain: seq<Block>) {
    forall b | b in chain && IsExplicitDay(b) :: AllDecryptable(r.p, OldBlockKey(r, b, 1), EntriesOf(b))
  }

  /** The new predecessor hash of a block that named `named`. */
  function Relinked(named: Value, newHash: map<Value, Value>): Value {
    if Truthy(named) && named in newHash then newHash[named] else named
  }

  function RekeyedDay(r: Rotation, b: Block, i: nat, newHash: map<Value, Value>): Block
    requires AllDecryptable(r.p, OldBlockKey(r, b, r.current), EntriesOf(b))
  {
    var entries := Some(ReencryptedEntries(r, OldBlockKey(r, b, r.current), EntriesOf(b), i));
    var bumped := b.fields[KeyVersion := Int(r.current + 1)];
    var linked := if PrevHash in bumped then bumped[PrevHash := Relinked(bumped[PrevHash], newHash)] else bumped;
    var hash := SealOf(r.p, r.newKey, Block(linked - {DayHash, KeyVersion, IdentitySeal}, entries));
    var sealed := linked[DayHash := Str(hash)];
    Block(if Signs(r.secret) then sealed[IdentitySeal := Str(r.p.mac(hash, r.secret.value))] else sealed, entries)
  }

  /** The hashes genesis ever held, each mapped to its new hash. */
  function GenesisHashes(genesis: Block, hash: Value): map<Value, Value> {
    var past := set f | f in genesis.fields && f.PrevBlockHash? :: genesis.fields[f];
    map[Get(genesis.fields, BlockHash) := hash] + map v | v in past :: hash
  }

  /** The rewritten blocks so far and the old-to-new hash map. */
  datatype Progress = Progress(blocks: seq<Block>, newHash: map<Value, Value>)

  function HardStep(r: Rotation, genesis: Block, done: Progress, i: nat, b: Block): Option<Progress> {
    if Get(b.fields, Type) == Str("genesis") then
      var block :- RekeyedGenesis(r, b, Get(genesis.fields, BlockHash));
      Some(Progress(done.blocks + [block], done.newHash + GenesisHashes(genesis, block.fields[BlockHash])))
    else if IsExplicitDay(b) then
      if !AllDecryptable(r.p, OldBlockKey(r, b, r.current), EntriesOf(b)) then None
      else
        var block := RekeyedDay(r, b, i, done.newHash);
        var former := Get(b.fields, DayHash);
        Some(Progress(done.blocks + [block],
                      if Truthy(former) then done.newHash[former := block.fields[DayHash]] else done.newHash))
    else
      Some(Progress(done.blocks + [b.(fields := b.fields[KeyVersion := Int(r.current + 1)])], done.newHash))
  }

  function HardUpTo(r: Rotation, chain: seq<Block>, n: nat): Option<Progress>
    requires n <= |chain| && chain != []
  {
    if n == 0 then Some(Progress([], map[]))
    else
      var done :- HardUpTo(r, chain, n - 1);
      HardStep(r, chain[0], done, n - 1, chain[n - 1])
  }

  function HardRotated(r: Rotation, chain: seq<Block>): Option<seq<Block>>
    requires chain != []
  {
    var identity :- RotatedIdentity(r, chain[0]);
    var done :- HardUpTo(r, chain[0 := WithIdentity(chain[0], identity)], |chain|);
    Some(done.blocks)
  }

  // ----- The command ------------------------------------------------------

  datatype Outcome = Returned(ok: bool) | Raised

  /** Whether the guards let a rotation start; verification itself may raise. */
  datatype Readiness = Ready | Declined | Failed

  /** `genesis.get("key_version", 1)`. */
  function CurrentVersion(genesis: Block): Option<int> {
    if KeyVersion !in genesis.fields then Some(1) else KeyVersionOf(genesis)
  }

  class RotateKeysCommand {
    const p: Primitives
    const seed: Bytes
    const oldSeed: Option<Bytes>
    const secret: Option<Bytes>
    const currentKeyVersion: Option<int>
    var ledger: seq<Block>

    constructor (p: Primitives, seed: Bytes, oldSeed: Option<Bytes>, secret: Option<Bytes>,
                 currentKeyVersion: Option<int>, ledger: seq<Block>)
      ensures this.p == p && this.seed == seed && this.oldSeed == oldSeed && this.secret == secret
      ensures this.currentKeyVersion == currentKeyVersion && this.ledger == ledger
    {
      this.p, this.seed, this.oldSeed, this.secret := p, seed, oldSeed, secret;
      this.currentKeyVersion, this.ledger := currentKeyVersion, ledger;
    }

    /** The seed the existing ledger is readable with. */
    function DecryptSeed(): Bytes {
      if oldSeed.Some? && oldSeed.value != [] then oldSeed.value else seed
    }

    function RotationAt(current: int, draws: Draws): Rotation {
      Rotation(p, current, p.deriveKey(DecryptSeed(), current), p.deriveKey(seed, current + 1), secret,
               KeysUpTo(p, DecryptSeed(), current), draws)
    }

    predicate SeedFits(genesis: Block) {
      var current, identity := CurrentVersion(genesis), Get(genesis.fields, Identity);
      && current.Some? && identity.Obj? && SecretFallback in identity.members
      && DecryptValue(p, p.deriveKey(DecryptSeed(), current.value), identity.members[SecretFallback]).Some?
    }

    function ReadinessOf(chain: seq<Block>): Readiness {
      if chain == [] || !SeedFits(chain[0]) then Declined
      else
        var current := CurrentVersion(chain[0]).value;
        if currentKeyVersion.Some? && current > currentKeyVersion.value then Declined
        else
          var v := Verifier(p, p.deriveKey(DecryptSeed(), current), secret, Some(KeysUpTo(p, DecryptSeed(), current)));
          match VerdictFrom(v, chain, 1)
          case Accepts => Ready
          case Rejects => Declined
          case Raises => Failed
    }

    method PrepareRotation() returns (r: Readiness)
      requires OrdersKeys(p)
      ensures r == ReadinessOf(ledger)
    {
      if ledger == [] || !SeedFits(ledger[0]) {
        return Declined;
      }
      var current := CurrentVersion(ledger[0]).value;
      if currentKeyVersion.Some? && current > currentKeyVersion.value {
        return Declined;
      }
      var chain := new LedgerChain(p, p.deriveKey(DecryptSeed(), current), secret, ledger);
      var verdict := chain.Verify(Some(KeysUpTo(p, DecryptSeed(), current)));
      r := match verdict case Accepts => Ready case Rejects => Declined case Raises => Failed;
    }

    method SoftRotate(draws: Draws) returns (o: Outcome)
      requires OrdersKeys(p)
      modifies this`ledger
      ensures ReadinessOf(old(ledger)) == Declined ==> ledger == old(ledger) && o == Returned(currentKeyVersion.Some?)
      ensures ReadinessOf(old(ledger)) == Failed ==> ledger == old(ledger) && o == Raised
      ensures ReadinessOf(old(ledger)) == Ready ==>
        match SoftRotated(RotationAt(CurrentVersion(old(ledger)[0]).value, draws), old(ledger))
        case Some(c) => ledger == c && o == Returned(true)
        case None => ledger == old(ledger) && o == Raised
    {
      var ready := PrepareRotation();
      if ready == Declined {
        return Returned(currentKeyVersion.Some?);
      }
      if ready == Failed {
        return Raised;
      }
      var r := RotationAt(CurrentVersion(ledger[0]).value, draws);
      var genesis := ledger[0];
      var held := Get(genesis.fields, BlockHash);
      var identity := RotatedIdentity(r, genesis);
      if identity.None? {
        return Raised;
      }
      genesis := WithIdentity(genesis, identity.value);
      var rekeyed := RekeyedGenesis(r, genesis, held);
      if rekeyed.None? {
        return Raised;
      }
      ledger := [rekeyed.value] + ledger[1..];
      o := Returned(true);
    }

    method HardRotate(draws: Draws, backedUp: bool) returns (o: Outcome)
      requires OrdersKeys(p)
      modifies this`ledger
      ensures ReadinessOf(old(ledger)) == Declined ==> ledger == old(ledger) && o == Returned(false)
      ensures ReadinessOf(old(ledger)) == Failed ==> ledger == old(ledger) && o == Raised
      ensures ReadinessOf(old(ledger)) == Ready ==>
        var r := RotationAt(CurrentVersion(old(ledger)[0]).value, draws);
        if !backedUp || !PreValidated(r, old(ledger)) then ledger == old(ledger) && o == Returned(false)
        else match HardRotated(r, old(ledger))
             case Some(c) => ledger == c && o == Returned(true)
             case None => ledger == old(ledger) && o == Raised
    {
      var ready := PrepareRotation();
      if ready == Declined {
        return Returned(false);
      }
      if ready == Failed {
        return Raised;
      }
      var r := RotationAt(CurrentVersion(ledger[0]).value, draws);
      if !backedUp || !PreValidated(r, ledger) {
        return Returned(false);
      }
      var identity := RotatedIdentity(r, ledger[0]);
      if identity.None? {
        return Raised;
      }
      var rewritten := RewriteChain(r, ledger[0 := WithIdentity(ledger[0], identity.value)]);
      if rewritten.None? {
        return Raised;
      }
      ledger := rewritten.value;
      o := Returned(true);
    }

    /** The rewriting loop: blocks are rebuilt in order, filling the hash map. */
    method RewriteChain(r: Rotation, chain: seq<Block>) returns (c: Option<seq<Block>>)
      requires chain != []
      ensures c == match HardUpTo(r, chain, |chain|) case Some(done) => Some(done.blocks) case None => None
    {
      var newBlocks: seq<Block> := [];
      var oldToNewHash: map<Value, Value> := map[];
      for i := 0 to |chain|
        invariant HardUpTo(r, chain, i) == Some(Progress(newBlocks, oldToNewHash))
      {
        var block := chain[i];
        if Get(block.fields, Type) == Str("genesis") {
          var rekeyed := RekeyedGenesis(r, block, Get(chain[0].fields, BlockHash));
          if rekeyed.None? {
            NoneOnceNone(r, chain, i + 1);
            return None;
          }
          newBlocks := newBlocks + [rekeyed.value];
          oldToNewHash := oldToNewHash + GenesisHashes(chain[0], rekeyed.value.fields[BlockHash]);
        } else if IsExplicitDay(block) {
          if !AllDecryptable(r.p, OldBlockKey(r, block, r.current), EntriesOf(block)) {
            NoneOnceNone(r, chain, i + 1);
            return None;
          }
          var rekeyed := RekeyedDay(r, block, i, oldToNewHash);
          var former := Get(block.fields, DayHash);
          newBlocks := newBlocks + [rekeyed];
          if Truthy(former) {
            oldToNewHash := oldToNewHash[former := rekeyed.fields[DayHash]];
          }
        } else {
          newBlocks := newBlocks + [block.(fields := block.fields[KeyVersion := Int(r.current + 1)])];
        }
      }
      c := Some(newBlocks);
    }

    method Execute(full: bool, draws: Draws, backedUp: bool) returns (o: Outcome)
      requires OrdersKeys(p)
      modifies this`ledger
      ensures ReadinessOf(old(ledger)) == Ready && o == Returned(true) ==>
        var r := RotationAt(CurrentVersion(old(ledger)[0]).value, draws);
        Some(ledger) == if full || oldSeed.Some? then HardRotated(r, old(ledger)) else SoftRotated(r, old(ledger))
      ensures full || oldSeed.Some? ==>
        (o == Returned(true) ==> ReadinessOf(old(ledger)) == Ready && backedUp)
      ensures ReadinessOf(old(ledger)) != Ready || o != Returned(true) ==> ledger == old(ledger)
    {
      if full || oldSeed.Some? {
        o := HardRotate(draws, backedUp);
      } else {
        o := SoftRotate(draws);
      }
    }
  }

  lemma {:induction false} NoneOnceNone(r: Rotation, chain: seq<Block>, n: nat)
    requires chain != [] && n <= |chain| && HardUpTo(r, chain, n).None?
    ensures HardUpTo(r, chain, |chain|).None?
    decreases |chain| - n
  {
    hide HardStep;
    if n < |chain| {
      NoneOnceNone(r, chain, n + 1);
    }
  }
}
