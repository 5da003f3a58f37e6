/**
 Rewriting a chain into the canonical format: no format version, genesis hash
 in `block_hash`, canonical entry hashes, fresh seals and links.
 */
module MigrateChain {
  import opened Json
  import opened Blocks
  import opened Chain

  datatype MigrationError = EmptyChain | NoGenesis | StillVersioned | GenesisDayHash | NoGenesisHash
                          | MissingHash(index: nat) | SealMismatch(index: nat) | LinkMismatch(index: nat)

  datatype Result<+T> = Ok(value: T) | Err(error: MigrationError)

  /** The canonical hash field of a block: genesis always uses `block_hash`. */
  function HashKeyOf(b: Block): Field {
    if IsGenesis(b) then BlockHash
    else if TypeOf(b) == Str("month_summary") then MonthHash
    else if TypeOf(b) == Str("year_summary") then YearHash
    else DayHash
  }

  function CanonicalEntries(p: Primitives, es: seq<Entry>): seq<Entry> {
    seq(|es|, i requires 0 <= i < |es| => es[i].(hash := CanonicalEntryHash(p, es[i].data)))
  }

  /** A block without format version and, if it is a day, with canonical entry hashes. */
  function Stripped(p: Primitives, b: Block): Block {
    Block(b.fields - {FormatVersion},
          if Get(b.fields, Type) == Str("day") && b.entries.Some?
          then Some(CanonicalEntries(p, b.entries.value)) else b.entries)
  }

  /** Genesis with its hash under `block_hash`. */
  function Renamed(g: Block): Block {
    if DayHash in g.fields
    then g.(fields := g.fields[BlockHash := g.fields[DayHash]] - {DayHash})
    else g
  }

  /** A block with a fresh seal. */
  function Resealed(p: Primitives, key: Bytes, b: Block): Block {
    b.(fields := b.fields[HashKeyOf(b) := Str(SealOf(p, key, SealedBody(b, HashKeyOf(b))))])
  }

  function MigratedGenesis(p: Primitives, key: Bytes, g: Block): Block {
    Resealed(p, key, Renamed(Stripped(p, g)))
  }

  function MigratedBlock(p: Primitives, key: Bytes, prev: Block, b: Block): Block {
    var s := Stripped(p, b);
    Resealed(p, key, s.(fields := s.fields[PrevHash := GetBlockHash(prev)]))
  }

  /** The migrated chain, block by block. */
  function Migrated(p: Primitives, key: Bytes, chain: seq<Block>): (r: seq<Block>)
    requires chain != []
    ensures |r| == |chain|
  {
    var n := |chain| - 1;
    if n == 0 then [MigratedGenesis(p, key, chain[0])]
    else
      var before := Migrated(p, key, chain[..n]);
      before + [MigratedBlock(p, key, before[n - 1], chain[n])]
  }

  // ----- The self-check ------------------------------------------------------

  function SelfCheck(p: Primitives, key: Bytes, m: seq<Block>): Option<MigrationError> {
    if m == [] then Some(EmptyChain)
    else if exists b | b in m :: FormatVersion in b.fields then Some(StillVersioned)
    else if DayHash in m[0].fields then Some(GenesisDayHash)
    else if BlockHash !in m[0].fields then Some(NoGenesisHash)
    else if FirstBadSeal(p, key, m, 0).Some? then FirstBadSeal(p, key, m, 0)
    else FirstBadLink(m, 1)
  }

  function FirstBadSeal(p: Primitives, key: Bytes, m: seq<Block>, i: nat): Option<MigrationError>
    decreases |m| - i
  {
    if i >= |m| then None
    else
      var stored := Get(m[i].fields, HashKeyOf(m[i]));
      if !Truthy(stored) then Some(MissingHash(i))
      else if stored != Str(SealOf(p, key, SealedBody(m[i], HashKeyOf(m[i])))) then Some(SealMismatch(i))
      else FirstBadSeal(p, key, m, i + 1)
  }

  function FirstBadLink(m: seq<Block>, i: nat): Option<MigrationError>
    requires 1 <= i
    decreases |m| - i
  {
    if i >= |m| then None
    else if !Linked(m[i - 1], m[i]) then Some(LinkMismatch(i))
    else FirstBadLink(m, i + 1)
  }

  method VerifyMigratedChain(p: Primitives, key: Bytes, m: seq<Block>) returns (e: Option<MigrationError>)
    ensures e == SelfCheck(p, key, m)
  {
    if m == [] {
      return Some(EmptyChain);
    }
    for i := 0 to |m|
      invariant forall j :: 0 <= j < i ==> FormatVersion !in m[j].fields
    {
      if FormatVersion in m[i].fields {
        assert m[i] in m;
        return Some(StillVersioned);
      }
    }
    if DayHash in m[0].fields {
      return Some(GenesisDayHash);
    }
    if BlockHash !in m[0].fields {
      return Some(NoGenesisHash);
    }
    for i := 0 to |m|
      invariant FirstBadSeal(p, key, m, 0) == FirstBadSeal(p, key, m, i)
    {
      var stored := Get(m[i].fields, HashKeyOf(m[i]));
      if !Truthy(stored) {
        return Some(MissingHash(i));
      }
      if stored != Str(p.seal(key, p.dumpBlock(SealedBody(m[i], HashKeyOf(m[i]))))) {
        return Some(SealMismatch(i));
      }
    }
    for i := 1 to |m|
      invariant FirstBadLink(m, 1) == FirstBadLink(m, i)
    {
      if Get(m[i].fields, PrevHash) != GetBlockHash(m[i - 1]) {
        return Some(LinkMismatch(i));
      }
    }
    e := None;
  }

  /** A block rewritten by the migration carries a good seal under its own key. */
  predicate WellSealed(p: Primitives, key: Bytes, b: Block) {
    && HashKeyOf(b) in b.fields
    && b.fields[HashKeyOf(b)] == Str(SealOf(p, key, SealedBody(b, HashKeyOf(b))))
  }

  lemma ResealedIsWellSealed(p: Primitives, key: Bytes, b: Block)
    ensures WellSealed(p, key, Resealed(p, key, b)) && HashKeyOf(Resealed(p, key, b)) == HashKeyOf(b)
    ensures forall f | f != HashKeyOf(b) :: Get(Resealed(p, key, b).fields, f) == Get(b.fields, f)
    ensures Resealed(p, key, b).fields.Keys == b.fields.Keys + {HashKeyOf(b)}
  {
    var r := Resealed(p, key, b);
    assert SealedBody(r, HashKeyOf(b)).fields == SealedBody(b, HashKeyOf(b)).fields;
  }

  /** What the migration leaves of block i: no format version, a good seal, a
      good link, and genesis under `block_hash`. */
  ghost predicate WellMigrated(p: Primitives, key: Bytes, m: seq<Block>) {
    && m != [] && IsGenesis(m[0]) && DayHash !in m[0].fields
    && (forall i :: 0 <= i < |m| ==> FormatVersion !in m[i].fields && WellSealed(p, key, m[i]))
    && AllLinked(m)
  }

  lemma {:induction false} MigratedIsWell(p: Primitives, key: Bytes, chain: seq<Block>)
    requires chain != [] && Get(chain[0].fields, Type) == Str("genesis")
    ensures WellMigrated(p, key, Migrated(p, key, chain))
  {
    hide MigratedBlock, MigratedGenesis, WellMigrated;
    var n := |chain| - 1;
    if n == 0 {
      GenesisIsWell(p, key, chain[0]);
      OneIsWellMigrated(p, key, MigratedGenesis(p, key, chain[0]));
    } else {
      MigratedIsWell(p, key, chain[..n]);
      var before := Migrated(p, key, chain[..n]);
      BlockIsWell(p, key, before[n - 1], chain[n]);
      WellMigratedExtends(p, key, before, MigratedBlock(p, key, before[n - 1], chain[n]));
    }
  }

  lemma OneIsWellMigrated(p: Primitives, key: Bytes, g: Block)
    requires IsGenesis(g) && DayHash !in g.fields && FormatVersion !in g.fields && WellSealed(p, key, g)
    ensures WellMigrated(p, key, [g])
  {
    hide WellSealed;
  }

  lemma WellMigratedExtends(p: Primitives, key: Bytes, m: seq<Block>, b: Block)
    requires WellMigrated(p, key, m) && FormatVersion !in b.fields && WellSealed(p, key, b) && Linked(m[|m| - 1], b)
    ensures WellMigrated(p, key, m + [b])
  {
    hide WellSealed, Linked;
    var longer := m + [b];
    forall i | 1 <= i < |longer| ensures Linked(longer[i - 1], longer[i]) {
      assert i < |m| ==> Linked(m[i - 1], m[i]);
    }
    forall i | 0 <= i < |longer| ensures FormatVersion !in longer[i].fields && WellSealed(p, key, longer[i]) {
      assert i < |m| ==> longer[i] == m[i];
    }
  }

  lemma GenesisIsWell(p: Primitives, key: Bytes, g: Block)
    requires Get(g.fields, Type) == Str("genesis")
    ensures var m := MigratedGenesis(p, key, g);
            IsGenesis(m) && DayHash !in m.fields && FormatVersion !in m.fields && WellSealed(p, key, m)
  {
    var r := Renamed(Stripped(p, g));
    ResealedIsWellSealed(p, key, r);
    assert Get(r.fields, Type) == Str("genesis");
    assert DayHash !in r.fields && FormatVersion !in r.fields;
    hide Resealed, WellSealed;
  }

  lemma BlockIsWell(p: Primitives, key: Bytes, prev: Block, b: Block)
    ensures var m := MigratedBlock(p, key, prev, b);
            FormatVersion !in m.fields && WellSealed(p, key, m) && Linked(prev, m)
  {
    var s := Stripped(p, b);
    var linked := s.(fields := s.fields[PrevHash := GetBlockHash(prev)]);
    ResealedIsWellSealed(p, key, linked);
    hide Resealed, WellSealed, GetBlockHash;
  }

  lemma {:induction false} NoBadSeal(p: Primitives, key: Bytes, m: seq<Block>, i: nat)
    requires SealsAreNonEmpty(p) && forall j :: i <= j < |m| ==> WellSealed(p, key, m[j])
    ensures FirstBadSeal(p, key, m, i).None?
    decreases |m| - i
  {
    hide SealedBody, HashKeyOf;
    if i < |m| {
      NoBadSeal(p, key, m, i + 1);
    }
  }

  lemma {:induction false} NoBadLink(m: seq<Block>, i: nat)
    requires 1 <= i && AllLinked(m)
    ensures FirstBadLink(m, i).None?
    decreases |m| - i
  {
    hide Linked;
    if i < |m| {
      NoBadLink(m, i + 1);
    }
  }

  lemma WellMigratedPasses(p: Primitives, key: Bytes, m: seq<Block>)
    requires SealsAreNonEmpty(p) && WellMigrated(p, key, m)
    ensures SelfCheck(p, key, m).None?
  {
    NoBadSeal(p, key, m, 0);
    NoBadLink(m, 1);
    assert HashKeyOf(m[0]) == BlockHash;
    hide FirstBadSeal, FirstBadLink, Linked, SealedBody;
  }

  /** `migrate_chain`, with its self-check at the end. */
  method MigrateChain(p: Primitives, key: Bytes, chain: seq<Block>) returns (r: Result<seq<Block>>)
    ensures chain == [] ==> r == Err(EmptyChain)
    ensures chain != [] && Get(chain[0].fields, Type) != Str("genesis") ==> r == Err(NoGenesis)
    ensures chain != [] && Get(chain[0].fields, Type) == Str("genesis") && SealsAreNonEmpty(p) ==>
              r == Ok(Migrated(p, key, chain))
  {
    if chain == [] {
      return Err(EmptyChain);
    }
    if Get(chain[0].fields, Type) != Str("genesis") {
      return Err(NoGenesis);
    }
    var stripped := StripAll(p, chain);
    var migrated := ResealAll(p, key, chain, stripped);
    var problem := VerifyMigratedChain(p, key, migrated);
    if SealsAreNonEmpty(p) {
      MigratedIsWell(p, key, chain);
      WellMigratedPasses(p, key, migrated);
    }
    hide *;
    r := if problem.Some? then Err(problem.value) else Ok(migrated);
  }

  method StripAll(p: Primitives, chain: seq<Block>) returns (stripped: seq<Block>)
    ensures |stripped| == |chain| && forall j :: 0 <= j < |chain| ==> stripped[j] == Stripped(p, chain[j])
  {
    stripped := [];
    for i := 0 to |chain|
      invariant |stripped| == i
      invariant forall j :: 0 <= j < i ==> stripped[j] == Stripped(p, chain[j])
    {
      var fields := chain[i].fields - {FormatVersion};
      var entries := chain[i].entries;
      if Get(fields, Type) == Str("day") && entries.Some? {
        entries := Some(CanonicalEntries(p, entries.value));
      }
      assert Get(fields, Type) == Get(chain[i].fields, Type);
      stripped := stripped + [Block(fields, entries)];
    }
  }

  /** Genesis renamed and resealed, then every block relinked and resealed in place. */
  method ResealAll(p: Primitives, key: Bytes, ghost chain: seq<Block>, stripped: seq<Block>) returns (migrated: seq<Block>)
    requires chain != [] && |stripped| == |chain|
    requires forall j :: 0 <= j < |chain| ==> stripped[j] == Stripped(p, chain[j])
    ensures migrated == Migrated(p, key, chain)
  {
    hide Stripped, Resealed, Renamed, GetBlockHash;
    migrated := stripped[0 := Resealed(p, key, Renamed(stripped[0]))];
    for i := 1 to |stripped|
      invariant |migrated| == |chain|
      invariant migrated[..i] == Migrated(p, key, chain[..i])
      invariant forall j :: i <= j < |chain| ==> migrated[j] == stripped[j]
    {
      var block := migrated[i];
      block := block.(fields := block.fields[PrevHash := GetBlockHash(migrated[i - 1])]);
      migrated := migrated[i := Resealed(p, key, block)];
      assert chain[..i + 1][..i] == chain[..i];
      assert migrated[..i + 1] == migrated[..i] + [migrated[i]];
    }
    assert chain[..|chain|] == chain && migrated[..|chain|] == migrated;
  }

  // ----- Migrating twice -----------------------------------------------------

  lemma WellSealedIsFixed(p: Primitives, key: Bytes, b: Block)
    requires WellSealed(p, key, b)
    ensures Resealed(p, key, b) == b
  {
  }

  lemma StrippedIsFixed(p: Primitives, b: Block)
    ensures Stripped(p, Stripped(p, b)) == Stripped(p, b)
  {
    var s := Stripped(p, b);
    assert s.fields - {FormatVersion} == s.fields;
    assert Get(s.fields, Type) == Get(b.fields, Type);
    if Get(b.fields, Type) == Str("day") && b.entries.Some? {
      var es := CanonicalEntries(p, b.entries.value);
      assert CanonicalEntries(p, es) == es;
    }
  }

  lemma BlockTwice(p: Primitives, key: Bytes, prev: Block, b: Block)
    ensures MigratedBlock(p, key, prev, MigratedBlock(p, key, prev, b)) == MigratedBlock(p, key, prev, b)
  {
    var s, m := Stripped(p, b), MigratedBlock(p, key, prev, b);
    var linked := s.(fields := s.fields[PrevHash := GetBlockHash(prev)]);
    ResealedIsWellSealed(p, key, linked);
    StrippedIsFixed(p, b);
    assert Stripped(p, m) == m by {
      assert Get(m.fields, Type) == Get(b.fields, Type);
      assert m.fields - {FormatVersion} == m.fields;
    }
    assert Get(m.fields, PrevHash) == GetBlockHash(prev);
    assert m.fields[PrevHash := GetBlockHash(prev)] == m.fields;
    hide Stripped, Resealed, GetBlockHash;
    WellSealedIsFixed(p, key, m);
  }

  lemma GenesisTwice(p: Primitives, key: Bytes, g: Block)
    requires Get(g.fields, Type) == Str("genesis")
    ensures MigratedGenesis(p, key, MigratedGenesis(p, key, g)) == MigratedGenesis(p, key, g)
  {
    var m := MigratedGenesis(p, key, g);
    GenesisIsWell(p, key, g);
    assert m.fields - {FormatVersion} == m.fields;
    assert Get(m.fields, Type) == Str("genesis");
    assert Stripped(p, m) == m && Renamed(m) == m;
    hide MigratedGenesis, Stripped, Renamed;
    WellSealedIsFixed(p, key, m);
  }

  /** Migrating a migrated chain changes nothing. */
  lemma {:induction false} MigrationIsIdempotent(p: Primitives, key: Bytes, chain: seq<Block>)
    requires chain != [] && Get(chain[0].fields, Type) == Str("genesis")
    ensures Migrated(p, key, Migrated(p, key, chain)) == Migrated(p, key, chain)
  {
    hide MigratedBlock, MigratedGenesis;
    var n := |chain| - 1;
    if n == 0 {
      GenesisTwice(p, key, chain[0]);
    } else {
      var before, m := Migrated(p, key, chain[..n]), Migrated(p, key, chain);
      MigrationIsIdempotent(p, key, chain[..n]);
      assert m[..n] == before;
      BlockTwice(p, key, before[n - 1], chain[n]);
    }
  }

  // ----- What is kept --------------------------------------------------------

  /** Two blocks that differ at most in the given fields and in entry hashes. */
  ghost predicate SameBut(a: Block, b: Block, changed: set<Field>) {
    && (forall f | f !in changed :: (f in a.fields <==> f in b.fields) && Get(a.fields, f) == Get(b.fields, f))
    && (a.entries.Some? <==> b.entries.Some?)
    && (a.entries.Some? ==>
          && |a.entries.value| == |b.entries.value|
          && forall j :: 0 <= j < |a.entries.value| ==> a.entries.value[j].data == b.entries.value[j].data)
  }

  /** Only the format version, the link and the block's own hash change; genesis
      also loses `day_hash`. Every entry keeps its data. */
  lemma {:induction false} MigrationKeepsTheRest(p: Primitives, key: Bytes, chain: seq<Block>, i: nat)
    requires i < |chain| && Get(chain[0].fields, Type) == Str("genesis")
    ensures SameBut(chain[i], Migrated(p, key, chain)[i],
                    if i == 0 then {FormatVersion, DayHash, BlockHash}
                    else {FormatVersion, PrevHash, HashKeyOf(chain[i])})
    decreases |chain|
  {
    var n := |chain| - 1;
    hide MigratedBlock, MigratedGenesis, SameBut;
    if i < n {
      MigrationKeepsTheRest(p, key, chain[..n], i);
    } else if n == 0 {
      GenesisKeeps(p, key, chain[0]);
    } else {
      BlockKeeps(p, key, Migrated(p, key, chain[..n])[n - 1], chain[n]);
    }
  }

  lemma StrippedKeeps(p: Primitives, b: Block)
    ensures SameBut(b, Stripped(p, b), {FormatVersion}) && HashKeyOf(Stripped(p, b)) == HashKeyOf(b)
  {
  }

  lemma BlockKeeps(p: Primitives, key: Bytes, prev: Block, b: Block)
    ensures SameBut(b, MigratedBlock(p, key, prev, b), {FormatVersion, PrevHash, HashKeyOf(b)})
  {
    StrippedKeeps(p, b);
    hide Stripped, SealedBody, GetBlockHash;
  }

  lemma GenesisKeeps(p: Primitives, key: Bytes, g: Block)
    requires Get(g.fields, Type) == Str("genesis")
    ensures SameBut(g, MigratedGenesis(p, key, g), {FormatVersion, DayHash, BlockHash})
  {
    StrippedKeeps(p, g);
    var s := Stripped(p, g);
    assert IsGenesis(Renamed(s));
    hide Stripped, SealedBody;
  }

  // ----- The chain verifier accepts the result -------------------------------

  /** A verifier without identity secret and without per-version keys. */
  function PlainVerifier(p: Primitives, key: Bytes): Verifier {
    Verifier(p, key, None, None)
  }

  /** What a block must bring along for its migrated form to verify. */
  predicate Migratable(p: Primitives, g: Block, b: Block) {
    && WithinGenesis(p, g, b)
    && (Type !in b.fields ==> forall e | e in EntriesOf(b) :: EntryHashAccepted(p, e.data, e.hash))
  }

  lemma MigratedStep(p: Primitives, key: Bytes, g: Block, g': Block, prev: Block, b: Block, m: Block)
    requires SameBut(b, m, {FormatVersion, PrevHash, HashKeyOf(b)}) && m.entries == Stripped(p, b).entries
    requires FormatVersion !in g'.fields && Get(g'.fields, KeyVersion) == Get(g.fields, KeyVersion)
    requires WellSealed(p, key, m) && PrevHash in m.fields && Linked(prev, m)
    ensures StepOk(PlainVerifier(p, key), g', prev, m) <==> Migratable(p, g, b)
  {
    assert Get(m.fields, KeyVersion) == Get(b.fields, KeyVersion);
    assert Get(m.fields, Type) == Get(b.fields, Type) && (Type in m.fields <==> Type in b.fields);
    assert HashKey(m) == HashKeyOf(m);
    assert !RequiresContentHash(p, g') by {
      assert !AtLeast([0, 2, 0], [0, 4, 0]);
    }
    EntriesAfter(p, b, m);
    hide SealedBody, GetBlockHash, SameBut, Stripped, EntryHashAccepted, RequiresContentHash;
  }

  lemma EntriesAfter(p: Primitives, b: Block, m: Block)
    requires m.entries == Stripped(p, b).entries && Get(m.fields, Type) == Get(b.fields, Type)
    requires Type in m.fields <==> Type in b.fields
    ensures (IsDay(m) ==> forall e | e in EntriesOf(m) :: EntryHashAccepted(p, e.data, e.hash))
       <==> (Type !in b.fields ==> forall e | e in EntriesOf(b) :: EntryHashAccepted(p, e.data, e.hash))
  {
  }

  /** The migrated chain verifies exactly when no block's key version is above
      genesis's and the blocks without a type already had valid entry hashes. */
  lemma MigratedAcceptedIff(p: Primitives, key: Bytes, chain: seq<Block>, m: seq<Block>)
    requires chain != [] && Get(chain[0].fields, Type) == Str("genesis") && m == Migrated(p, key, chain)
    ensures Accepted(PlainVerifier(p, key), m) <==> forall i :: 1 <= i < |chain| ==> Migratable(p, chain[0], chain[i])
  {
    hide Migrated, StepOk, Migratable, Get;
    forall i | 1 <= i < |chain|
      ensures StepOk(PlainVerifier(p, key), m[0], m[i - 1], m[i]) <==> Migratable(p, chain[0], chain[i])
    {
      MigratedStepAt(p, key, chain, m, i);
    }
    if Accepted(PlainVerifier(p, key), m) {
      forall i | 1 <= i < |chain| ensures Migratable(p, chain[0], chain[i]) {
        assert StepOk(PlainVerifier(p, key), m[0], m[i - 1], m[i]);
      }
    }
  }

  lemma MigratedStepAt(p: Primitives, key: Bytes, chain: seq<Block>, m: seq<Block>, i: nat)
    requires 1 <= i < |chain| && Get(chain[0].fields, Type) == Str("genesis") && m == Migrated(p, key, chain)
    ensures StepOk(PlainVerifier(p, key), m[0], m[i - 1], m[i]) <==> Migratable(p, chain[0], chain[i])
  {
    hide Migrated, StepOk, Migratable, SameBut, Linked, WellSealed, Stripped, HashKeyOf, Get;
    MigratedIsWell(p, key, chain);
    WellMigratedAt(p, key, m, i);
    MigrationKeepsTheRest(p, key, chain, 0);
    MigrationKeepsTheRest(p, key, chain, i);
    MigratedEntries(p, key, chain, i);
    SameKeyVersion(chain[0], m[0]);
    hide WellMigrated;
    MigratedStep(p, key, chain[0], m[0], m[i - 1], chain[i], m[i]);
  }

  lemma WellMigratedAt(p: Primitives, key: Bytes, m: seq<Block>, i: nat)
    requires WellMigrated(p, key, m) && 1 <= i < |m|
    ensures FormatVersion !in m[0].fields && WellSealed(p, key, m[i]) && Linked(m[i - 1], m[i])
  {
  }

  lemma SameKeyVersion(a: Block, b: Block)
    requires SameBut(a, b, {FormatVersion, DayHash, BlockHash})
    ensures Get(a.fields, KeyVersion) == Get(b.fields, KeyVersion)
  {
  }

  lemma {:induction false} MigratedEntries(p: Primitives, key: Bytes, chain: seq<Block>, i: nat)
    requires 1 <= i < |chain|
    ensures var m := Migrated(p, key, chain);
            m[i].entries == Stripped(p, chain[i]).entries && PrevHash in m[i].fields
    decreases |chain|
  {
    hide MigratedBlock, MigratedGenesis;
    if i < |chain| - 1 {
      MigratedEntries(p, key, chain[..|chain| - 1], i);
    } else {
      BlockEntries(p, key, Migrated(p, key, chain[..i])[i - 1], chain[i]);
    }
  }

  lemma BlockEntries(p: Primitives, key: Bytes, prev: Block, b: Block)
    ensures var m := MigratedBlock(p, key, prev, b); m.entries == Stripped(p, b).entries && PrevHash in m.fields
  {
  }
}
