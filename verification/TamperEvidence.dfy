/**
 What an accepted chain commits to: its last hash fixes every sealed field of
 every block after genesis, and exactly which parts of a chain it leaves free.
 */
module TamperEvidence {
  import opened Json
  import opened Blocks
  import opened Chain

  const HASH_FIELDS: set<Field> := {BlockHash, DayHash, MonthHash, YearHash}

  /** A block after genesis that stores no hash but its own. */
  predicate OwnHashOnly(b: Block) {
    !IsGenesis(b) && b.fields.Keys * HASH_FIELDS == {HashKey(b)}
  }

  function Sealed(b: Block): Block {
    SealedBody(b, HashKey(b))
  }

  /** The stored hash of such a block, once accepted, is its seal. */
  lemma AcceptedHash(v: Verifier, b: Block)
    requires SealsAreNonEmpty(v.p) && OwnHashOnly(b) && SealValid(v, b)
    ensures GetBlockHash(b) == Str(SealOf(v.p, BlockKey(v, b).value, Sealed(b)))
  {
    forall h | h in HASH_FIELDS && h != HashKey(b) ensures h !in b.fields {
      assert h in b.fields ==> h in b.fields.Keys * HASH_FIELDS;
    }
    assert HashKey(b) in b.fields.Keys * HASH_FIELDS;
  }

  /** Equal hashes of accepted blocks mean equal sealed fields, type included. */
  lemma SameHashSameBlock(v: Verifier, w: Verifier, a: Block, b: Block)
    requires v.p == w.p && SealsAreNonEmpty(v.p) && SealsAreInjective(v.p)
    requires OwnHashOnly(a) && OwnHashOnly(b) && SealValid(v, a) && SealValid(w, b)
    requires GetBlockHash(a) == GetBlockHash(b)
    ensures Sealed(a) == Sealed(b) && HashKey(a) == HashKey(b)
  {
    AcceptedHash(v, a);
    AcceptedHash(w, b);
    assert Get(Sealed(a).fields, Type) == Get(a.fields, Type);
    assert Get(Sealed(b).fields, Type) == Get(b.fields, Type);
    assert (Type in Sealed(a).fields) == (Type in a.fields);
    assert (Type in Sealed(b).fields) == (Type in b.fields);
  }

  lemma SealedKeepsLink(b: Block)
    requires PrevHash in b.fields
    ensures PrevHash in Sealed(b).fields && Sealed(b).fields[PrevHash] == b.fields[PrevHash]
  {
  }

  /** Two equally long accepted chains that end in the same block hash agree on
      every sealed field of every block after genesis, and on the genesis hash
      their first block was linked to. */
  lemma {:induction false} LastHashFixesTheChain(v: Verifier, w: Verifier, a: seq<Block>, b: seq<Block>)
    requires v.p == w.p && SealsAreNonEmpty(v.p) && SealsAreInjective(v.p)
    requires |a| == |b| > 0 && Accepted(v, a) && Accepted(w, b)
    requires forall i :: 1 <= i < |a| ==> OwnHashOnly(a[i])
    requires forall i :: 1 <= i < |b| ==> OwnHashOnly(b[i])
    requires GetBlockHash(a[|a| - 1]) == GetBlockHash(b[|b| - 1])
    ensures forall i :: 1 <= i < |a| ==> Sealed(a[i]) == Sealed(b[i]) && GetBlockHash(a[i]) == GetBlockHash(b[i])
    ensures |a| > 1 ==> LinkHash(v, a[0], VersionIn(a[1])) == LinkHash(w, b[0], VersionIn(b[1]))
    ensures v.versions.None? && w.versions.None? ==> GetBlockHash(a[0]) == GetBlockHash(b[0])
    decreases |a|
  {
    hide SealValid, GetBlockHash, LinkHash, EntryValid, IdentitySealOf, OwnHashOnly, Sealed;
    var n := |a| - 1;
    if n > 0 {
      assert StepOk(v, a[0], a[n - 1], a[n]) && StepOk(w, b[0], b[n - 1], b[n]);
      SameHashSameBlock(v, w, a[n], b[n]);
      SealedKeepsLink(a[n]);
      SealedKeepsLink(b[n]);
      PlainLink(v, a[n - 1], VersionIn(a[n]));
      PlainLink(w, b[n - 1], VersionIn(b[n]));
      if n > 1 {
        AcceptedPrefix(v, a, n);
        AcceptedPrefix(w, b, n);
        LastHashFixesTheChain(v, w, a[..n], b[..n]);
      }
    }
  }

  lemma PlainLink(v: Verifier, prev: Block, version: Value)
    ensures v.versions.None? || OwnHashOnly(prev) ==> LinkHash(v, prev, version) == GetBlockHash(prev)
  {
  }

  /** Without per-version keys, genesis counts only through its stored hash, its
      key version and whether its format version asks for content hashes: two
      geneses that agree there verify the same blocks, whatever else they hold. */
  lemma GenesisContentIsNotChecked(v: Verifier, g: Block, h: Block, rest: seq<Block>)
    requires v.versions.None?
    requires GetBlockHash(g) == GetBlockHash(h) && VersionIn(g) == VersionIn(h)
    requires RequiresContentHash(v.p, g) == RequiresContentHash(v.p, h)
    ensures Accepted(v, [g] + rest) <==> Accepted(v, [h] + rest)
  {
    OtherGenesisAccepted(v, g, h, rest);
    OtherGenesisAccepted(v, h, g, rest);
  }

  lemma OtherGenesisAccepted(v: Verifier, g: Block, h: Block, rest: seq<Block>)
    requires v.versions.None?
    requires GetBlockHash(g) == GetBlockHash(h) && VersionIn(g) == VersionIn(h)
    requires RequiresContentHash(v.p, g) == RequiresContentHash(v.p, h)
    ensures Accepted(v, [g] + rest) ==> Accepted(v, [h] + rest)
  {
    if Accepted(v, [g] + rest) {
      forall i | 1 <= i < |[h] + rest| ensures StepOk(v, h, ([h] + rest)[i - 1], ([h] + rest)[i]) {
        assert StepOk(v, g, ([g] + rest)[i - 1], ([g] + rest)[i]);
      }
    }
  }

  function WithFormatVersion(b: Block, fv: Value): Block {
    b.(fields := b.fields[FormatVersion := fv])
  }

  /** A format version written on a block after genesis is outside its seal:
      setting one never changes the verdict, whatever it is. */
  lemma FormatVersionIsNotSealed(v: Verifier, blocks: seq<Block>, i: nat, fv: Value)
    requires 1 <= i < |blocks|
    ensures VerdictFrom(v, blocks[i := WithFormatVersion(blocks[i], fv)], 1) == VerdictFrom(v, blocks, 1)
  {
    var changed := blocks[i := WithFormatVersion(blocks[i], fv)];
    forall j | 1 <= j < |blocks|
      ensures StepVerdict(v, changed[0], changed[j - 1], changed[j]) == StepVerdict(v, blocks[0], blocks[j - 1], blocks[j])
    {
      hide StepVerdict, WithFormatVersion;
      SameStep(v, blocks[0], blocks[i], blocks[j], fv);
      SameStep(v, blocks[0], blocks[j - 1], blocks[i], fv);
      SameStep(v, blocks[0], changed[j - 1], blocks[j], fv);
    }
    SameVerdicts(v, blocks, changed, 1);
  }

  lemma {:induction false} SameVerdicts(v: Verifier, a: seq<Block>, b: seq<Block>, i: nat)
    requires 1 <= i && |a| == |b|
    requires forall j :: 1 <= j < |a| ==> StepVerdict(v, b[0], b[j - 1], b[j]) == StepVerdict(v, a[0], a[j - 1], a[j])
    ensures VerdictFrom(v, b, i) == VerdictFrom(v, a, i)
    decreases |a| - i
  {
    hide StepVerdict;
    if i < |a| {
      SameVerdicts(v, a, b, i + 1);
    }
  }

  /** The step of a block does not depend on its own format version, nor on its predecessor's. */
  lemma SameStep(v: Verifier, genesis: Block, prev: Block, b: Block, fv: Value)
    ensures StepVerdict(v, genesis, WithFormatVersion(prev, fv), b) == StepVerdict(v, genesis, prev, b)
    ensures StepVerdict(v, genesis, prev, WithFormatVersion(b, fv)) == StepVerdict(v, genesis, prev, b)
  {
    SameLinkHash(v, prev, VersionIn(b), fv);
    SameOnItsOwn(v, b, RequiresContentHash(v.p, genesis), fv);
    hide LinkHash, SingleVerdict, IdentityVerdict, RequiresContentHash;
  }

  lemma SameLinkHash(v: Verifier, prev: Block, version: Value, fv: Value)
    ensures LinkHash(v, WithFormatVersion(prev, fv), version) == LinkHash(v, prev, version)
  {
    hide SealedBody, HashKey, VersionField, Known, GetBlockHash, WithFormatVersion, IsGenesis, Get;
    SameBody(prev, fv, HashKey(prev));
    SamePastHash(v.p, prev, version, fv);
  }

  lemma SamePastHash(p: Primitives, b: Block, version: Value, fv: Value)
    ensures var c := WithFormatVersion(b, fv);
            && HashKey(c) == HashKey(b) && GetBlockHash(c) == GetBlockHash(b) && IsGenesis(c) == IsGenesis(b)
            && (version != Null ==>
                  Get(c.fields, VersionField(p, version)) == Get(b.fields, VersionField(p, version)))
  {
  }

  lemma SameBody(b: Block, fv: Value, hashKey: Field)
    ensures SealedBody(WithFormatVersion(b, fv), hashKey) == SealedBody(b, hashKey)
  {
    assert SealedBody(WithFormatVersion(b, fv), hashKey).fields == SealedBody(b, hashKey).fields;
  }

  lemma SameOnItsOwn(v: Verifier, b: Block, required: bool, fv: Value)
    ensures var c := WithFormatVersion(b, fv);
            && VersionIn(c) == VersionIn(b) && SingleVerdict(v, c, required) == SingleVerdict(v, b, required)
            && IdentityVerdict(v, c) == IdentityVerdict(v, b)
  {
    SameBody(b, fv, HashKey(b));
    SameFields(b, fv);
    hide SealedBody, EntryValid, WithFormatVersion, Get, IdentitySealOf, HashKey, IsDay, EntriesOf;
  }

  lemma SameFields(b: Block, fv: Value)
    ensures var c := WithFormatVersion(b, fv);
            && HashKey(c) == HashKey(b) && Get(c.fields, HashKey(b)) == Get(b.fields, HashKey(b))
            && IdentitySealOf(c) == IdentitySealOf(b) && Get(c.fields, KeyVersion) == Get(b.fields, KeyVersion)
            && IsDay(c) == IsDay(b) && EntriesOf(c) == EntriesOf(b)
  {
  }
}
