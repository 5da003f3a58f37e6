/**
 The migration to the canonical format and the scan of its result, told by the
 fields of the blocks.
 */
module MigrationMeaning {
  import opened Json
  import opened Blocks
  import opened Chain
  import opened Acceptance
  import opened MigrateChain

  // ----- What the scan looks at ---------------------------------------------

  /** The field a block's hash belongs in: genesis always has `block_hash`. */
  ghost predicate HashBelongsIn(b: Block, f: Field) {
    if HasType(b, "genesis") then f == BlockHash
    else if HasType(b, "month_summary") then f == MonthHash
    else if HasType(b, "year_summary") then f == YearHash
    else f == DayHash
  }

  ghost predicate LacksHash(b: Block) {
    exists f :: HashBelongsIn(b, f) && !Truthy(Get(b.fields, f))
  }

  /** The hash where it belongs is the seal over everything but hash, signatures and versions. */
  ghost predicate HasGoodSeal(p: Primitives, key: Bytes, b: Block) {
    exists f, s :: HashBelongsIn(b, f) && IsSealOf(p, key, b, f, s) && Get(b.fields, f) == Str(s)
  }

  ghost predicate NamesHash(b: Block, prev: Block) {
    HasHash(prev, Get(b.fields, PrevHash))
  }

  /** Nothing is wrong before the seals are looked at. */
  ghost predicate WellHeaded(m: seq<Block>) {
    && m != [] && (forall b :: b in m ==> FormatVersion !in b.fields)
    && DayHash !in m[0].fields && BlockHash in m[0].fields
  }

  ghost predicate SealedUpTo(p: Primitives, key: Bytes, m: seq<Block>, n: nat) {
    forall i :: 0 <= i < n && i < |m| ==> !LacksHash(m[i]) && HasGoodSeal(p, key, m[i])
  }

  ghost predicate LinkedUpTo(m: seq<Block>, n: nat) {
    forall i :: 1 <= i < n && i < |m| ==> NamesHash(m[i], m[i - 1])
  }

  /** The fault a scan reports: the first in its order, which takes versions, then genesis, then
      every seal, then every link. */
  ghost predicate IsFirstFault(p: Primitives, key: Bytes, m: seq<Block>, e: MigrationError) {
    match e
    case EmptyChain => m == []
    case NoGenesis => false
    case StillVersioned => exists b :: b in m && FormatVersion in b.fields
    case GenesisDayHash => m != [] && (forall b :: b in m ==> FormatVersion !in b.fields) && DayHash in m[0].fields
    case NoGenesisHash =>
      m != [] && (forall b :: b in m ==> FormatVersion !in b.fields) && DayHash !in m[0].fields && BlockHash !in m[0].fields
    case MissingHash(i) => WellHeaded(m) && i < |m| && SealedUpTo(p, key, m, i) && LacksHash(m[i])
    case SealMismatch(i) =>
      WellHeaded(m) && i < |m| && SealedUpTo(p, key, m, i) && !LacksHash(m[i]) && !HasGoodSeal(p, key, m[i])
    case LinkMismatch(i) =>
      WellHeaded(m) && SealedUpTo(p, key, m, |m|) && 1 <= i < |m| && LinkedUpTo(m, i) && !NamesHash(m[i], m[i - 1])
  }

  ghost predicate HasNoFault(p: Primitives, key: Bytes, m: seq<Block>) {
    WellHeaded(m) && SealedUpTo(p, key, m, |m|) && LinkedUpTo(m, |m|)
  }

  lemma BelongsIs(b: Block)
    ensures forall f :: HashBelongsIn(b, f) <==> f == HashKeyOf(b)
  {
  }

  lemma SealFaults(p: Primitives, key: Bytes, b: Block)
    ensures LacksHash(b) <==> !Truthy(Get(b.fields, HashKeyOf(b)))
    ensures HasGoodSeal(p, key, b) <==> Get(b.fields, HashKeyOf(b)) == Str(SealOf(p, key, SealedBody(b, HashKeyOf(b))))
  {
    BelongsIs(b);
    assert HashBelongsIn(b, HashKeyOf(b));
    hide HashBelongsIn, IsSealOf, HashKeyOf, SealedBody, Get, Truthy;
    forall s ensures IsSealOf(p, key, b, HashKeyOf(b), s) <==> s == SealOf(p, key, SealedBody(b, HashKeyOf(b))) {
      SealIs(p, key, b, HashKeyOf(b), s);
    }
  }

  lemma {:induction false} FirstBadSealIs(p: Primitives, key: Bytes, m: seq<Block>, i: nat)
    requires SealedUpTo(p, key, m, i)
    ensures match FirstBadSeal(p, key, m, i)
            case None => SealedUpTo(p, key, m, |m|)
            case Some(e) => && (e.MissingHash? || e.SealMismatch?) && e.index < |m| && SealedUpTo(p, key, m, e.index)
                            && (e.MissingHash? ==> LacksHash(m[e.index]))
                            && (e.SealMismatch? ==> !LacksHash(m[e.index]) && !HasGoodSeal(p, key, m[e.index]))
    decreases |m| - i
  {
    hide LacksHash, HasGoodSeal, HashKeyOf, SealedBody;
    if i < |m| {
      SealFaults(p, key, m[i]);
      if !LacksHash(m[i]) && HasGoodSeal(p, key, m[i]) {
        FirstBadSealIs(p, key, m, i + 1);
      }
    }
  }

  lemma NamesIs(b: Block, prev: Block)
    ensures NamesHash(b, prev) <==> Linked(prev, b)
  {
    HashIs(prev, Get(b.fields, PrevHash));
    hide HasHash, GetBlockHash;
  }

  lemma {:induction false} FirstBadLinkIs(m: seq<Block>, i: nat)
    requires 1 <= i && LinkedUpTo(m, i)
    ensures match FirstBadLink(m, i)
            case None => LinkedUpTo(m, |m|)
            case Some(e) => e.LinkMismatch? && 1 <= e.index < |m| && LinkedUpTo(m, e.index) && !NamesHash(m[e.index], m[e.index - 1])
    decreases |m| - i
  {
    hide NamesHash, Linked;
    if i < |m| {
      NamesIs(m[i], m[i - 1]);
      if NamesHash(m[i], m[i - 1]) {
        FirstBadLinkIs(m, i + 1);
      }
    }
  }

  /** A chain with a fault is not one without. */
  lemma FaultOrNot(p: Primitives, key: Bytes, m: seq<Block>, e: MigrationError)
    requires IsFirstFault(p, key, m, e)
    ensures !HasNoFault(p, key, m)
  {
    hide LacksHash, HasGoodSeal, NamesHash;
  }

  lemma ScanOfHead(p: Primitives, key: Bytes, m: seq<Block>)
    requires !WellHeaded(m)
    ensures SelfCheck(p, key, m).Some? && IsFirstFault(p, key, m, SelfCheck(p, key, m).value)
  {
    hide FirstBadSeal, FirstBadLink, SealedUpTo, LinkedUpTo, LacksHash, HasGoodSeal, NamesHash;
  }

  lemma ScanOfRest(p: Primitives, key: Bytes, m: seq<Block>)
    requires WellHeaded(m)
    ensures SelfCheck(p, key, m) == if FirstBadSeal(p, key, m, 0).Some? then FirstBadSeal(p, key, m, 0) else FirstBadLink(m, 1)
  {
    hide FirstBadSeal, FirstBadLink;
  }

  ghost predicate Reports(p: Primitives, key: Bytes, m: seq<Block>, e: Option<MigrationError>) {
    if e.None? then HasNoFault(p, key, m) else IsFirstFault(p, key, m, e.value)
  }

  /** The scan reports the first fault there is, and passes exactly when there is none. */
  lemma ScanIs(p: Primitives, key: Bytes, m: seq<Block>)
    ensures Reports(p, key, m, SelfCheck(p, key, m))
    ensures SelfCheck(p, key, m).None? <==> HasNoFault(p, key, m)
  {
    hide SelfCheck, FirstBadSeal, FirstBadLink, LacksHash, HasGoodSeal, NamesHash, SealedUpTo, LinkedUpTo;
    if WellHeaded(m) {
      ScanOfRest(p, key, m);
      NothingSealedYet(p, key, m);
      hide WellHeaded;
      FirstBadSealIs(p, key, m, 0);
      FirstBadLinkIs(m, 1);
    } else {
      ScanOfHead(p, key, m);
    }
    if SelfCheck(p, key, m).Some? {
      FaultOrNot(p, key, m, SelfCheck(p, key, m).value);
    }
  }

  lemma NothingSealedYet(p: Primitives, key: Bytes, m: seq<Block>)
    ensures SealedUpTo(p, key, m, 0) && LinkedUpTo(m, 1)
  {
  }

  // ----- What a migrated chain holds ----------------------------------------

  /** The migrated chain has no fault the scan knows; its explicit days hold their entries' data in
      order, each with its hash in the indented layout. */
  lemma MigrationMeans(p: Primitives, key: Bytes, chain: seq<Block>)
    requires chain != [] && Get(chain[0].fields, Type) == Str("genesis") && SealsAreNonEmpty(p)
    ensures HasNoFault(p, key, Migrated(p, key, chain))
    ensures forall i :: 0 <= i < |chain| && Get(chain[i].fields, Type) == Str("day") && chain[i].entries.Some? ==>
              var es, m := chain[i].entries.value, Migrated(p, key, chain)[i];
              && m.entries.Some? && |m.entries.value| == |es|
              && forall j :: 0 <= j < |es| ==> m.entries.value[j] == Entry(p.sha(p.dumpIndented(es[j].data)), es[j].data)
  {
    hide Migrated, WellMigrated, SelfCheck, HasNoFault;
    MigratedIsWell(p, key, chain);
    WellMigratedPasses(p, key, Migrated(p, key, chain));
    ScanIs(p, key, Migrated(p, key, chain));
    forall i | 0 <= i < |chain| && Get(chain[i].fields, Type) == Str("day") && chain[i].entries.Some?
      ensures var es, m := chain[i].entries.value, Migrated(p, key, chain)[i];
              && m.entries.Some? && |m.entries.value| == |es|
              && forall j :: 0 <= j < |es| ==> m.entries.value[j] == Entry(p.sha(p.dumpIndented(es[j].data)), es[j].data)
    {
      DayHolds(p, key, chain, i);
    }
  }

  lemma {:induction false} DayHolds(p: Primitives, key: Bytes, chain: seq<Block>, i: nat)
    requires i < |chain| && Get(chain[i].fields, Type) == Str("day") && chain[i].entries.Some?
    ensures Migrated(p, key, chain)[i].entries == Some(CanonicalEntries(p, chain[i].entries.value))
    decreases |chain|
  {
    hide SealedBody, GetBlockHash, CanonicalEntries, HashKeyOf;
    var n := |chain| - 1;
    if i < n {
      DayHolds(p, key, chain[..n], i);
    }
  }
}
