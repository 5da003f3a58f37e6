/**
 Which chains still verify after a rotation, and which do not.
 */
module RotationLimits {
  import opened Json
  import opened Blocks
  import opened Chain
  import opened KeyRotation
  import opened RotationRuns
  import opened RotationKeeps

  /** Seals made with different keys differ, and the new key is none of those in use. */
  ghost predicate NewKeySealsApart(p: Primitives, s: State, newSeed: Bytes)
    requires s.chain != []
  {
    var n := VersionOf(s.chain[0]);
    && (forall k, l, t, u :: p.seal(k, t) == p.seal(l, u) ==> k == l)
    && (forall w :: 1 <= w <= n ==> p.deriveKey(s.seed, w) != p.deriveKey(newSeed, n + 1))
  }

  predicate AllVersioned(chain: seq<Block>) {
    forall i :: 1 <= i < |chain| ==> VersionIn(chain[i]) != Null
  }

  predicate AllDays(chain: seq<Block>) {
    forall i :: 1 <= i < |chain| ==> Get(chain[i].fields, Type) == Str("day")
  }

  /** A ledger that verifies, with one genesis, which names a version. */
  ghost predicate InUse(p: Primitives, secret: Option<Bytes>, s: State) {
    && s.chain != [] && secret.Some? && VersionOf(s.chain[0]) >= 1 && Get(s.chain[0].fields, Type) == Str("genesis")
    && Accepted(CurrentVerifier(p, secret, s), s.chain)
    && (forall i :: 1 <= i < |s.chain| ==> Get(s.chain[i].fields, Type) != Str("genesis"))
  }

  /** A block sealed before, whose sealed part has not changed, fails under a new key. */
  lemma OldSealFails(v: Verifier, w: Verifier, b: Block, b': Block, key: Bytes)
    requires SealValid(v, b) && v.p == w.p && BlockKey(w, b') == Some(key)
    requires forall k, l, t, u :: v.p.seal(k, t) == v.p.seal(l, u) ==> k == l
    requires BlockKey(v, b) != Some(key)
    requires HashKey(b') == HashKey(b) && Get(b'.fields, HashKey(b)) == Get(b.fields, HashKey(b))
    ensures !SealValid(w, b')
  {
    hide SealedBody, HashKey;
  }

  /** The keys in use before are not the new one. */
  lemma OldKeyIsAnother(p: Primitives, secret: Option<Bytes>, s: State, b: Block, newSeed: Bytes)
    requires s.chain != [] && VersionOf(s.chain[0]) >= 1 && NewKeySealsApart(p, s, newSeed)
    ensures var v := CurrentVerifier(p, secret, s);
            BlockKey(v, b) != Some(p.deriveKey(newSeed, VersionOf(s.chain[0]) + 1))
  {
    var v, n := CurrentVerifier(p, secret, s), VersionOf(s.chain[0]);
    if BlockKey(v, b).Some? && VersionIn(b) != Null {
      var w := NumberOf(VersionIn(b)).value;
      assert w in KeysUpTo(p, s.seed, n) && KeysUpTo(p, s.seed, n)[w] == p.deriveKey(s.seed, w);
    }
    hide SealsAreNonEmpty;
  }

  /** After a soft rotation the ledger verifies exactly when every block after genesis names its
      version: the others are checked under the new key, and their seals are of the old one. What
      is asked of a ledger of the first kind is what runs are made of. */
  lemma SoftVerifiesIff(p: Primitives, secret: Option<Bytes>, s: State, draws: KeyRotation.Draws)
    requires Sound(p) && InUse(p, secret, s) && NewKeySealsApart(p, s, s.seed)
    requires AllVersioned(s.chain) ==> Inv(p, secret, s)
    ensures var c := SoftRotated(RotationOf(p, secret, s, s.seed, draws), s.chain);
            c.Some? ==>
              var s' := Rotated(s, c.value, s.seed);
              Accepted(CurrentVerifier(p, secret, s'), s'.chain) <==> AllVersioned(s.chain)
  {
    hide SoftRotated, Inv, StepOk, RotationOf, StartsFrom, MovedOn, SameSecrets, OnlyMovedOn, NewKeySealsApart;
    var r := RotationOf(p, secret, s, s.seed, draws);
    if AllVersioned(s.chain) {
      SoftKeepsInv(p, secret, s, draws);
      InvariantImpliesAccepted(p, secret, Rotated(s, SoftRotated(r, s.chain).value, s.seed));
    } else if SoftRotated(r, s.chain).Some? {
      var c := SoftRotated(r, s.chain).value;
      SoftRewrites(r, s.chain);
      SoftVersion(p, secret, s, draws);
      var i :| 1 <= i < |s.chain| && VersionIn(s.chain[i]) == Null;
      assert c[i] == c[1..][i - 1] == s.chain[1..][i - 1];
      UnversionedFails(p, secret, s, Rotated(s, c, s.seed), i);
    }
  }

  lemma SoftVersion(p: Primitives, secret: Option<Bytes>, s: State, draws: KeyRotation.Draws)
    requires s.chain != [] && SoftRotated(RotationOf(p, secret, s, s.seed, draws), s.chain).Some?
    ensures var c := SoftRotated(RotationOf(p, secret, s, s.seed, draws), s.chain).value;
            |c| == |s.chain| && VersionOf(c[0]) == VersionOf(s.chain[0]) + 1
  {
    var r := RotationOf(p, secret, s, s.seed, draws);
    SoftRewrites(r, s.chain);
    var moved: seq<Block> :| StartsFrom(r, s.chain, moved)
                             && MovedOn(r, moved[0], Get(s.chain[0].fields, BlockHash), SoftRotated(r, s.chain).value[0]);
    hide SoftRotated, StartsFrom;
  }

  lemma UnversionedFails(p: Primitives, secret: Option<Bytes>, s: State, s': State, i: nat)
    requires s.chain != [] && VersionOf(s.chain[0]) >= 1 && Accepted(CurrentVerifier(p, secret, s), s.chain)
    requires |s'.chain| == |s.chain| && VersionOf(s'.chain[0]) == VersionOf(s.chain[0]) + 1
    requires NewKeySealsApart(p, s, s'.seed)
    requires 1 <= i < |s.chain| && VersionIn(s.chain[i]) == Null && s'.chain[i] == s.chain[i]
    ensures !Accepted(CurrentVerifier(p, secret, s'), s'.chain)
  {
    hide LinkHash, EntryValid, IdentitySealOf, WithinGenesis, HashKey, SealedBody;
    var v, w, b := CurrentVerifier(p, secret, s), CurrentVerifier(p, secret, s'), s.chain[i];
    assert StepOk(v, s.chain[0], s.chain[i - 1], b);
    OldKeyIsAnother(p, secret, s, b, s'.seed);
    OldSealFails(v, w, b, b, p.deriveKey(s'.seed, VersionOf(s'.chain[0])));
    assert !StepOk(w, s'.chain[0], s'.chain[i - 1], s'.chain[i]);
  }

  /** After a hard rotation the ledger verifies exactly when every block after genesis is a day:
      summaries get the new version, and keep their seals of the old key. */
  lemma HardVerifiesIff(p: Primitives, secret: Option<Bytes>, s: State, newSeed: Bytes, draws: KeyRotation.Draws)
    requires Sound(p) && InUse(p, secret, s) && NewKeySealsApart(p, s, newSeed)
    requires AllDays(s.chain) ==> Inv(p, secret, s)
    ensures var c := HardRotated(RotationOf(p, secret, s, newSeed, draws), s.chain);
            c.Some? ==>
              var s' := Rotated(s, c.value, newSeed);
              Accepted(CurrentVerifier(p, secret, s'), s'.chain) <==> AllDays(s.chain)
  {
    hide HardRotated, Inv, StepOk, RotationOf;
    var r := RotationOf(p, secret, s, newSeed, draws);
    if AllDays(s.chain) {
      HardKeepsInv(p, secret, s, newSeed, draws);
      hide SameContents, PreValidated;
      InvariantImpliesAccepted(p, secret, Rotated(s, HardRotated(r, s.chain).value, newSeed));
    } else if HardRotated(r, s.chain).Some? {
      var c := HardRotated(r, s.chain).value;
      var i :| 1 <= i < |s.chain| && Get(s.chain[i].fields, Type) != Str("day");
      HardLeavesOther(p, secret, s, newSeed, draws, i);
      OtherFails(p, secret, s, Rotated(s, c, newSeed), i);
    }
  }

  lemma HardLeavesOther(p: Primitives, secret: Option<Bytes>, s: State, newSeed: Bytes, draws: KeyRotation.Draws, i: nat)
    requires 1 <= i < |s.chain| && HardRotated(RotationOf(p, secret, s, newSeed, draws), s.chain).Some?
    requires Get(s.chain[i].fields, Type) != Str("day") && Get(s.chain[i].fields, Type) != Str("genesis")
    requires Get(s.chain[0].fields, Type) == Str("genesis")
    ensures var c, n := HardRotated(RotationOf(p, secret, s, newSeed, draws), s.chain).value, VersionOf(s.chain[0]);
            && |c| == |s.chain| && VersionOf(c[0]) == n + 1
            && c[i] == Block(s.chain[i].fields[KeyVersion := Int(n + 1)], s.chain[i].entries)
  {
    hide HardRotated, DayMoved, IdentityMoved, VersionRaised;
    var r := RotationOf(p, secret, s, newSeed, draws);
    HardRewrites(r, s.chain);
    var c := HardRotated(r, s.chain).value;
    var moved: seq<Block> :| StartsFrom(r, s.chain, moved) && forall i :: 0 <= i < |c| ==> Rewritten(r, moved, c, i);
    assert Rewritten(r, moved, c, 0) && Rewritten(r, moved, c, i);
    assert moved[i] == moved[1..][i - 1] == s.chain[1..][i - 1];
    assert Get(moved[0].fields, Type) == Get(s.chain[0].fields, Type);
  }

  lemma OtherFails(p: Primitives, secret: Option<Bytes>, s: State, s': State, i: nat)
    requires s.chain != [] && VersionOf(s.chain[0]) >= 1 && Accepted(CurrentVerifier(p, secret, s), s.chain)
    requires |s'.chain| == |s.chain| && VersionOf(s'.chain[0]) == VersionOf(s.chain[0]) + 1
    requires NewKeySealsApart(p, s, s'.seed) && 1 <= i < |s.chain|
    requires s'.chain[i] == Block(s.chain[i].fields[KeyVersion := Int(VersionOf(s.chain[0]) + 1)], s.chain[i].entries)
    ensures !Accepted(CurrentVerifier(p, secret, s'), s'.chain)
  {
    var v, w, b, b' := CurrentVerifier(p, secret, s), CurrentVerifier(p, secret, s'), s.chain[i], s'.chain[i];
    var n := VersionOf(s.chain[0]);
    assert StepOk(v, s.chain[0], s.chain[i - 1], b);
    OldKeyIsAnother(p, secret, s, b, s'.seed);
    assert KeysUpTo(p, s'.seed, n + 1)[n + 1] == p.deriveKey(s'.seed, n + 1);
    SameSealField(b, b', n + 1);
    hide LinkHash, EntryValid, IdentitySealOf, WithinGenesis, HashKey, SealedBody;
    OldSealFails(v, w, b, b', p.deriveKey(s'.seed, n + 1));
    assert !StepOk(w, s'.chain[0], s'.chain[i - 1], b');
  }

  lemma SameSealField(b: Block, b': Block, n: int)
    requires b' == Block(b.fields[KeyVersion := Int(n)], b.entries)
    ensures HashKey(b') == HashKey(b) && Get(b'.fields, HashKey(b)) == Get(b.fields, HashKey(b)) && VersionIn(b') == Int(n)
  {
  }
}
