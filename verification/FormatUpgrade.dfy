/**
 The v0.3.0 to v0.4.0 migration: extensible content hashes in every entry,
 then every seal and link recomputed through the chain, then a self-check.
 */
module FormatUpgrade {
  import opened Json
  import opened Blocks
  import opened ContentHashes
  import opened Chain

  const TARGET_VERSION := "0.4.0"

  predicate KnownType(b: Block) {
    TypeOf(b) == Str("genesis") || TypeOf(b) == Str("day")
    || TypeOf(b) == Str("month_summary") || TypeOf(b) == Str("year_summary")
  }

  predicate KnownTypes(chain: seq<Block>) {
    forall i :: 0 <= i < |chain| ==> KnownType(chain[i])
  }

  /** The script's hash field of a block: genesis still uses `day_hash`. */
  function ScriptKey(b: Block): Field {
    if TypeOf(b) == Str("month_summary") then MonthHash
    else if TypeOf(b) == Str("year_summary") then YearHash
    else DayHash
  }

  /** `block.get(key, "")`. */
  function ScriptHash(b: Block): Value {
    if ScriptKey(b) in b.fields then b.fields[ScriptKey(b)] else Str("")
  }

  /** The script seals everything but the hash and the identity fields. */
  function ScriptBody(b: Block): Block {
    Block(b.fields - {ScriptKey(b), IdentitySeal, Signature}, b.entries)
  }

  function ScriptSeal(p: Primitives, key: Bytes, b: Block): Text {
    SealOf(p, key, ScriptBody(b))
  }

  // ----- Content hashes ------------------------------------------------------

  function UpgradedEntry(p: Primitives, key: Bytes, e: Entry): Option<Entry> {
    var h :- ComputedContentHash(p, key, e.data);
    var d := e.data[ContentHash := h];
    Some(Entry(CompactEntryHash(p, d), d))
  }

  function UpgradedEntries(p: Primitives, key: Bytes, es: seq<Entry>): (r: Option<seq<Entry>>)
    ensures r.Some? ==> |r.value| == |es|
  {
    if es == [] then Some([])
    else
      var before :- UpgradedEntries(p, key, es[..|es| - 1]);
      var last :- UpgradedEntry(p, key, es[|es| - 1]);
      Some(before + [last])
  }

  function UpgradedContents(p: Primitives, key: Bytes, b: Block): Option<Block> {
    if IsDay(b) && b.entries.Some? then
      var es :- UpgradedEntries(p, key, b.entries.value);
      Some(b.(entries := Some(es)))
    else Some(b)
  }

  // ----- Seals ---------------------------------------------------------------

  /** A block sealed by the script, its identity seal renewed if it had one. */
  function ScriptSealed(p: Primitives, key: Bytes, secret: Option<Bytes>, b: Block): Block {
    var hash := ScriptSeal(p, key, b);
    var sealed := b.fields[ScriptKey(b) := Str(hash)];
    b.(fields := if Truthy(Get(b.fields, IdentitySeal)) && Signs(secret)
                 then sealed[IdentitySeal := Str(p.mac(hash, secret.value))] else sealed)
  }

  function Relinked(prev: Block, b: Block): Block {
    b.(fields := b.fields[PrevHash := ScriptHash(prev)])
  }

  function Bumped(g: Block): Block {
    g.(fields := g.fields[FormatVersion := Str(TARGET_VERSION)])
  }

  function UpgradedGenesis(p: Primitives, key: Bytes, secret: Option<Bytes>, g: Block): Option<Block> {
    var c :- UpgradedContents(p, key, Bumped(g));
    Some(ScriptSealed(p, key, secret, c))
  }

  function UpgradedBlock(p: Primitives, key: Bytes, secret: Option<Bytes>, prev: Block, b: Block): Option<Block> {
    var c :- UpgradedContents(p, key, b);
    Some(ScriptSealed(p, key, secret, Relinked(prev, c)))
  }

  /** The upgraded chain; None when some entry does not decrypt or sort. */
  function Upgraded(p: Primitives, key: Bytes, secret: Option<Bytes>, chain: seq<Block>): (r: Option<seq<Block>>)
    requires chain != []
    ensures r.Some? ==> |r.value| == |chain|
  {
    var n := |chain| - 1;
    if n == 0 then
      var g :- UpgradedGenesis(p, key, secret, chain[0]);
      Some([g])
    else
      var before :- Upgraded(p, key, secret, chain[..n]);
      var b :- UpgradedBlock(p, key, secret, before[n - 1], chain[n]);
      Some(before + [b])
  }

  // ----- The self-check ------------------------------------------------------

  datatype Problem = LinkProblem(index: nat) | SealProblem(index: nat) | SignatureProblem(index: nat)
                   | EntryProblem(index: nat, entry: nat) | ContentProblem(index: nat, entry: nat)

  /** Whether the script accepts an entry's content hash, if it has one. */
  predicate ContentPasses(p: Primitives, key: Bytes, d: Data) {
    ContentHash in d ==>
      var computed := ComputedContentHash(p, key, d);
      && computed.Some?
      && (computed.value != d[ContentHash] ==>
            var legacy := p.scriptFields(Resolve(p, key, d));
            legacy.Some? && ContentDigest(p, legacy.value) == d[ContentHash])
  }

  function EntryProblems(p: Primitives, key: Bytes, i: nat, es: seq<Entry>): seq<Problem> {
    if es == [] then []
    else
      var j := |es| - 1;
      EntryProblems(p, key, i, es[..j])
      + (if CompactEntryHash(p, es[j].data) != es[j].hash then [EntryProblem(i, j)] else [])
      + (if ContentPasses(p, key, es[j].data) then [] else [ContentProblem(i, j)])
  }

  function BlockProblems(p: Primitives, key: Bytes, secret: Option<Bytes>, chain: seq<Block>, i: nat): seq<Problem>
    requires i < |chain|
  {
    var b := chain[i];
    (if i > 0 && NamedPrev(b) != ScriptHash(chain[i - 1]) then [LinkProblem(i)] else [])
    + (if ScriptHash(b) != Str(ScriptSeal(p, key, b)) then [SealProblem(i)] else [])
    + (if Signs(secret) && Truthy(Get(b.fields, IdentitySeal)) && !SignatureMatches(p, secret.value, b)
       then [SignatureProblem(i)] else [])
    + (if IsDay(b) then EntryProblems(p, key, i, EntriesOf(b)) else [])
  }

  function NamedPrev(b: Block): Value {
    if PrevHash in b.fields then b.fields[PrevHash] else Str("")
  }

  predicate SignatureMatches(p: Primitives, secret: Bytes, b: Block) {
    ScriptHash(b).Str? && Get(b.fields, IdentitySeal) == Str(p.mac(ScriptHash(b).s, secret))
  }

  /** Everything the self-check reports, in order. */
  function Problems(p: Primitives, key: Bytes, secret: Option<Bytes>, chain: seq<Block>, n: nat): seq<Problem>
    requires n <= |chain|
  {
    if n == 0 then [] else Problems(p, key, secret, chain, n - 1) + BlockProblems(p, key, secret, chain, n - 1)
  }

  method VerifyChain(p: Primitives, key: Bytes, secret: Option<Bytes>, chain: seq<Block>) returns (errors: seq<Problem>)
    ensures errors == Problems(p, key, secret, chain, |chain|)
  {
    errors := [];
    for i := 0 to |chain|
      invariant errors == Problems(p, key, secret, chain, i)
    {
      var found := VerifyBlock(p, key, secret, chain, i);
      errors := errors + found;
    }
  }

  method VerifyBlock(p: Primitives, key: Bytes, secret: Option<Bytes>, chain: seq<Block>, i: nat) returns (found: seq<Problem>)
    requires i < |chain|
    ensures found == BlockProblems(p, key, secret, chain, i)
  {
    var b := chain[i];
    var links, seals, signatures, entries: seq<Problem> := [], [], [], [];
    if i > 0 && NamedPrev(b) != ScriptHash(chain[i - 1]) {
      links := [LinkProblem(i)];
    }
    if ScriptHash(b) != Str(ScriptSeal(p, key, b)) {
      seals := [SealProblem(i)];
    }
    if Signs(secret) && Truthy(Get(b.fields, IdentitySeal)) && !SignatureMatches(p, secret.value, b) {
      signatures := [SignatureProblem(i)];
    }
    if IsDay(b) {
      entries := VerifyEntries(p, key, i, EntriesOf(b));
    }
    found := links + seals + signatures + entries;
  }

  method VerifyEntries(p: Primitives, key: Bytes, i: nat, es: seq<Entry>) returns (errors: seq<Problem>)
    ensures errors == EntryProblems(p, key, i, es)
  {
    errors := [];
    for j := 0 to |es|
      invariant errors == EntryProblems(p, key, i, es[..j])
    {
      assert es[..j + 1][..j] == es[..j];
      var d := es[j].data;
      if CompactEntryHash(p, d) != es[j].hash {
        errors := errors + [EntryProblem(i, j)];
      }
      if !ContentPasses(p, key, d) {
        errors := errors + [ContentProblem(i, j)];
      }
    }
    assert es[..|es|] == es;
  }

  // ----- The self-check cannot fail ------------------------------------------

  ghost predicate EntryGood(p: Primitives, key: Bytes, e: Entry) {
    && e.hash == CompactEntryHash(p, e.data) && ContentHash in e.data
    && ComputedContentHash(p, key, e.data) == Some(e.data[ContentHash])
    && ContentHashValid(p, key, e.data)
  }

  ghost predicate EntriesGood(p: Primitives, key: Bytes, es: seq<Entry>) {
    forall e | e in es :: EntryGood(p, key, e)
  }

  lemma UpgradedEntryGood(p: Primitives, key: Bytes, e: Entry)
    requires UpgradedEntry(p, key, e).Some?
    ensures EntryGood(p, key, UpgradedEntry(p, key, e).value)
    ensures UpgradedEntry(p, key, UpgradedEntry(p, key, e).value) == UpgradedEntry(p, key, e)
    ensures UpgradedEntry(p, key, e).value.data - {ContentHash} == e.data - {ContentHash}
  {
    var h := ComputedContentHash(p, key, e.data).value;
    StoredContentHashIsValid(p, key, e.data);
    ComputingTwiceGivesTheSameHash(p, key, e.data, h);
    hide ComputedContentHash, ContentHashValid;
    assert e.data[ContentHash := h][ContentHash := h] == e.data[ContentHash := h];
  }

  lemma {:induction false} UpgradedEntriesGood(p: Primitives, key: Bytes, es: seq<Entry>)
    requires UpgradedEntries(p, key, es).Some?
    ensures var out := UpgradedEntries(p, key, es).value;
            && EntriesGood(p, key, out) && UpgradedEntries(p, key, out) == Some(out)
            && forall j :: 0 <= j < |es| ==> out[j].data - {ContentHash} == es[j].data - {ContentHash}
  {
    hide UpgradedEntry, EntryGood;
    if es != [] {
      var n := |es| - 1;
      UpgradedEntriesGood(p, key, es[..n]);
      UpgradedEntryGood(p, key, es[n]);
      var out := UpgradedEntries(p, key, es).value;
      assert out[..n] == UpgradedEntries(p, key, es[..n]).value;
      assert out[n] == UpgradedEntry(p, key, es[n]).value;
      assert out == out[..n] + [out[n]];
    }
  }

  lemma {:induction false} GoodEntriesPass(p: Primitives, key: Bytes, i: nat, es: seq<Entry>)
    requires EntriesGood(p, key, es)
    ensures EntryProblems(p, key, i, es) == []
  {
    hide ComputedContentHash, ContentHashValid, CompactEntryHash;
    if es != [] {
      assert EntryGood(p, key, es[|es| - 1]);
      GoodEntriesPass(p, key, i, es[..|es| - 1]);
    }
  }

  /** A block the script would find nothing wrong with. */
  ghost predicate BlockGood(p: Primitives, key: Bytes, secret: Option<Bytes>, b: Block) {
    && ScriptHash(b) == Str(ScriptSeal(p, key, b)) && ScriptKey(b) in b.fields
    && (Signs(secret) && Truthy(Get(b.fields, IdentitySeal)) ==> SignatureMatches(p, secret.value, b))
    && (IsDay(b) ==> EntriesGood(p, key, EntriesOf(b)))
  }

  lemma ScriptSealedGood(p: Primitives, key: Bytes, secret: Option<Bytes>, b: Block)
    requires IsDay(b) ==> EntriesGood(p, key, EntriesOf(b))
    ensures var s := ScriptSealed(p, key, secret, b);
            && BlockGood(p, key, secret, s) && ScriptKey(s) == ScriptKey(b) && s.entries == b.entries
            && (forall f | f !in {ScriptKey(b), IdentitySeal} ::
                  Get(s.fields, f) == Get(b.fields, f) && (f in s.fields <==> f in b.fields))
            && (IdentitySeal in s.fields <==> IdentitySeal in b.fields)
            && (Truthy(Get(s.fields, IdentitySeal)) ==> Truthy(Get(b.fields, IdentitySeal)))
            && (!Truthy(Get(b.fields, IdentitySeal)) || !Signs(secret) ==>
                  Get(s.fields, IdentitySeal) == Get(b.fields, IdentitySeal))
            && ScriptSealed(p, key, secret, s).fields[ScriptKey(b)] == s.fields[ScriptKey(b)]
  {
    var s := ScriptSealed(p, key, secret, b);
    assert ScriptBody(s).fields == ScriptBody(b).fields;
    hide EntriesGood;
  }

  /** What one rewritten block looks like after `prev`. */
  lemma UpgradedBlockGood(p: Primitives, key: Bytes, secret: Option<Bytes>, prev: Block, b: Block)
    requires UpgradedBlock(p, key, secret, prev, b).Some?
    ensures var m := UpgradedBlock(p, key, secret, prev, b).value;
            BlockGood(p, key, secret, m) && NamedPrev(m) == ScriptHash(prev) && PrevHash in m.fields
  {
    UpgradedContentsGood(p, key, b);
    var c := UpgradedContents(p, key, b).value;
    ScriptSealedGood(p, key, secret, Relinked(prev, c));
    hide UpgradedContents, ScriptSealed, EntriesGood, ScriptHash, BlockGood;
  }

  lemma UpgradedContentsGood(p: Primitives, key: Bytes, b: Block)
    requires UpgradedContents(p, key, b).Some?
    ensures var c := UpgradedContents(p, key, b).value;
            c.fields == b.fields && (IsDay(c) ==> EntriesGood(p, key, EntriesOf(c)))
  {
    if IsDay(b) && b.entries.Some? {
      UpgradedEntriesGood(p, key, b.entries.value);
    }
    hide UpgradedEntries, EntryGood;
  }

  lemma UpgradedGenesisGood(p: Primitives, key: Bytes, secret: Option<Bytes>, g: Block)
    requires UpgradedGenesis(p, key, secret, g).Some?
    ensures var m := UpgradedGenesis(p, key, secret, g).value;
            BlockGood(p, key, secret, m) && Get(m.fields, FormatVersion) == Str(TARGET_VERSION)
  {
    UpgradedContentsGood(p, key, Bumped(g));
    ScriptSealedGood(p, key, secret, UpgradedContents(p, key, Bumped(g)).value);
    hide UpgradedContents, ScriptSealed, EntriesGood, BlockGood;
  }

  ghost predicate ChainGood(p: Primitives, key: Bytes, secret: Option<Bytes>, m: seq<Block>) {
    && (forall i :: 0 <= i < |m| ==> BlockGood(p, key, secret, m[i]))
    && (forall i :: 1 <= i < |m| ==> NamedPrev(m[i]) == ScriptHash(m[i - 1]))
  }

  lemma {:induction false} UpgradedIsGood(p: Primitives, key: Bytes, secret: Option<Bytes>, chain: seq<Block>)
    requires chain != [] && Upgraded(p, key, secret, chain).Some?
    ensures ChainGood(p, key, secret, Upgraded(p, key, secret, chain).value)
  {
    hide UpgradedBlock, UpgradedGenesis, BlockGood, NamedPrev, ScriptHash;
    var n := |chain| - 1;
    var m := Upgraded(p, key, secret, chain).value;
    if n == 0 {
      UpgradedGenesisGood(p, key, secret, chain[0]);
    } else {
      UpgradedIsGood(p, key, secret, chain[..n]);
      var before := Upgraded(p, key, secret, chain[..n]).value;
      UpgradedBlockGood(p, key, secret, before[n - 1], chain[n]);
      forall i | 0 <= i < |m| ensures BlockGood(p, key, secret, m[i]) {
        assert i < n ==> m[i] == before[i];
      }
      forall i | 1 <= i < |m| ensures NamedPrev(m[i]) == ScriptHash(m[i - 1]) {
        assert i < n ==> m[i] == before[i];
        assert m[i - 1] == before[i - 1];
      }
    }
  }

  lemma {:induction false} GoodChainHasNoProblems(p: Primitives, key: Bytes, secret: Option<Bytes>, m: seq<Block>, n: nat)
    requires ChainGood(p, key, secret, m) && n <= |m|
    ensures Problems(p, key, secret, m, n) == []
  {
    hide BlockGood, BlockProblems;
    if n > 0 {
      GoodChainHasNoProblems(p, key, secret, m, n - 1);
      GoodBlockHasNoProblems(p, key, secret, m, n - 1);
    }
  }

  lemma GoodBlockHasNoProblems(p: Primitives, key: Bytes, secret: Option<Bytes>, m: seq<Block>, i: nat)
    requires i < |m| && BlockGood(p, key, secret, m[i]) && (i > 0 ==> NamedPrev(m[i]) == ScriptHash(m[i - 1]))
    ensures BlockProblems(p, key, secret, m, i) == []
  {
    if IsDay(m[i]) {
      GoodEntriesPass(p, key, i, EntriesOf(m[i]));
    }
    hide EntriesGood, ScriptBody, EntryProblems, NamedPrev;
  }

  /** The migration's own check never finds a problem in what it wrote. */
  lemma SelfCheckCannotFail(p: Primitives, key: Bytes, secret: Option<Bytes>, chain: seq<Block>)
    requires chain != [] && Upgraded(p, key, secret, chain).Some?
    ensures var m := Upgraded(p, key, secret, chain).value; Problems(p, key, secret, m, |m|) == []
  {
    hide Upgraded, Problems, ChainGood;
    UpgradedIsGood(p, key, secret, chain);
    GoodChainHasNoProblems(p, key, secret, Upgraded(p, key, secret, chain).value, |chain|);
  }

  predicate AllCompute(p: Primitives, key: Bytes, b: Block) {
    IsDay(b) ==> forall e | e in EntriesOf(b) :: ComputedContentHash(p, key, e.data).Some?
  }

  lemma {:induction false} EntriesUpgradeIff(p: Primitives, key: Bytes, es: seq<Entry>)
    ensures UpgradedEntries(p, key, es).Some? <==> forall e | e in es :: ComputedContentHash(p, key, e.data).Some?
  {
    hide ComputedContentHash;
    if es != [] {
      var n := |es| - 1;
      EntriesUpgradeIff(p, key, es[..n]);
      assert es == es[..n] + [es[n]];
    }
  }

  lemma ContentsUpgradeIff(p: Primitives, key: Bytes, b: Block)
    ensures UpgradedContents(p, key, b).Some? <==> AllCompute(p, key, b)
  {
    if IsDay(b) && b.entries.Some? {
      EntriesUpgradeIff(p, key, b.entries.value);
    }
    hide UpgradedEntries, ComputedContentHash;
  }

  /** The migration succeeds exactly on the chains whose entries all decrypt and sort. */
  lemma {:induction false} UpgradesIff(p: Primitives, key: Bytes, secret: Option<Bytes>, chain: seq<Block>)
    requires chain != []
    ensures Upgraded(p, key, secret, chain).Some? <==> forall i :: 0 <= i < |chain| ==> AllCompute(p, key, chain[i])
  {
    hide AllCompute, UpgradedBlock, UpgradedGenesis;
    var n := |chain| - 1;
    if n == 0 {
      GenesisUpgradesIff(p, key, secret, chain[0]);
    } else {
      UpgradesIff(p, key, secret, chain[..n]);
      if Upgraded(p, key, secret, chain[..n]).Some? {
        BlockUpgradesIff(p, key, secret, Upgraded(p, key, secret, chain[..n]).value[n - 1], chain[n]);
      }
      assert forall i :: 0 <= i < n ==> chain[..n][i] == chain[i];
    }
  }

  lemma BlockUpgradesIff(p: Primitives, key: Bytes, secret: Option<Bytes>, prev: Block, b: Block)
    ensures UpgradedBlock(p, key, secret, prev, b).Some? <==> AllCompute(p, key, b)
  {
    ContentsUpgradeIff(p, key, b);
    hide AllCompute, UpgradedContents, ScriptSealed;
  }

  lemma GenesisUpgradesIff(p: Primitives, key: Bytes, secret: Option<Bytes>, g: Block)
    ensures UpgradedGenesis(p, key, secret, g).Some? <==> AllCompute(p, key, g)
  {
    var v := Bumped(g);
    ContentsUpgradeIff(p, key, v);
    assert Get(v.fields, Type) == Get(g.fields, Type);
    hide UpgradedContents, ScriptSealed, ComputedContentHash;
  }

  /** The whole migration: contents of every block first, then the seals. */
  method Migrate(p: Primitives, key: Bytes, secret: Option<Bytes>, chain: seq<Block>) returns (r: Option<seq<Block>>)
    requires chain != [] && KnownTypes(chain) && OrdersKeys(p)
    ensures r == Upgraded(p, key, secret, chain)
    ensures r.Some? <==> forall i :: 0 <= i < |chain| ==> AllCompute(p, key, chain[i])
  {
    hide AllCompute, UpgradedContents, ScriptSealed, Problems, Upgraded, Cascade, Bumped;
    var bumped := [Bumped(chain[0])] + chain[1..];
    var contents := RecomputeAll(p, key, bumped);
    UpgradesIff(p, key, secret, chain);
    if contents.None? {
      BumpedComputes(p, key, chain);
      return None;
    }
    var migrated := CascadeSeals(p, key, secret, contents.value);
    CascadeIsUpgrade(p, key, secret, chain, contents.value);
    SelfCheckCannotFail(p, key, secret, chain);
    var errors := VerifyChain(p, key, secret, migrated);
    r := if errors == [] then Some(migrated) else None;
  }

  predicate ContentsOf(p: Primitives, key: Bytes, chain: seq<Block>, contents: seq<Block>) {
    |contents| == |chain| && forall i :: 0 <= i < |chain| ==> UpgradedContents(p, key, chain[i]) == Some(contents[i])
  }

  lemma BumpedComputes(p: Primitives, key: Bytes, chain: seq<Block>)
    requires chain != []
    requires exists i :: 0 <= i < |chain| && !AllCompute(p, key, ([Bumped(chain[0])] + chain[1..])[i])
    ensures exists i :: 0 <= i < |chain| && !AllCompute(p, key, chain[i])
  {
    var i :| 0 <= i < |chain| && !AllCompute(p, key, ([Bumped(chain[0])] + chain[1..])[i]);
    hide AllCompute, Bumped;
    BumpingComputes(p, key, chain[0]);
    assert !AllCompute(p, key, chain[i]);
  }

  lemma BumpingComputes(p: Primitives, key: Bytes, g: Block)
    ensures AllCompute(p, key, Bumped(g)) <==> AllCompute(p, key, g)
  {
    assert Get(Bumped(g).fields, Type) == Get(g.fields, Type);
    hide ComputedContentHash;
  }

  method RecomputeAll(p: Primitives, key: Bytes, chain: seq<Block>) returns (r: Option<seq<Block>>)
    requires OrdersKeys(p)
    ensures r.Some? ==> ContentsOf(p, key, chain, r.value)
    ensures r.None? ==> exists i :: 0 <= i < |chain| && !AllCompute(p, key, chain[i])
  {
    hide AllCompute, UpgradedContents;
    var out: seq<Block> := [];
    for i := 0 to |chain|
      invariant |out| == i
      invariant forall j :: 0 <= j < i ==> UpgradedContents(p, key, chain[j]) == Some(out[j])
    {
      var block := RecomputeContents(p, key, chain[i]);
      if block.None? {
        ContentsUpgradeIff(p, key, chain[i]);
        return None;
      }
      out := out + [block.value];
    }
    r := Some(out);
  }

  /** Seals and links recomputed from genesis on. */
  function Cascade(p: Primitives, key: Bytes, secret: Option<Bytes>, contents: seq<Block>): (r: seq<Block>)
    requires contents != []
    ensures |r| == |contents|
  {
    var n := |contents| - 1;
    if n == 0 then [ScriptSealed(p, key, secret, contents[0])]
    else
      var before := Cascade(p, key, secret, contents[..n]);
      before + [ScriptSealed(p, key, secret, Relinked(before[n - 1], contents[n]))]
  }

  method CascadeSeals(p: Primitives, key: Bytes, secret: Option<Bytes>, contents: seq<Block>) returns (m: seq<Block>)
    requires contents != []
    ensures m == Cascade(p, key, secret, contents)
  {
    hide ScriptSealed, Relinked;
    m := [ScriptSealed(p, key, secret, contents[0])];
    for i := 1 to |contents|
      invariant m == Cascade(p, key, secret, contents[..i])
    {
      assert contents[..i + 1][..i] == contents[..i];
      m := m + [ScriptSealed(p, key, secret, Relinked(m[i - 1], contents[i]))];
    }
    assert contents[..|contents|] == contents;
  }

  /** Recomputing all contents first and sealing afterwards is one pass. */
  lemma CascadeIsUpgrade(p: Primitives, key: Bytes, secret: Option<Bytes>, chain: seq<Block>, contents: seq<Block>)
    requires chain != [] && ContentsOf(p, key, [Bumped(chain[0])] + chain[1..], contents)
    ensures Upgraded(p, key, secret, chain) == Some(Cascade(p, key, secret, contents))
  {
    hide UpgradedContents, ScriptSealed, Upgraded, Cascade, Bumped;
    var bumped := [Bumped(chain[0])] + chain[1..];
    assert bumped[0] == Bumped(chain[0]);
    forall i | 1 <= i < |chain| ensures UpgradedContents(p, key, chain[i]) == Some(contents[i]) {
      assert bumped[i] == chain[i];
    }
    CascadePrefix(p, key, secret, chain, contents, |chain|);
    assert chain[..|chain|] == chain && contents[..|chain|] == contents;
  }

  lemma {:induction false} CascadePrefix(p: Primitives, key: Bytes, secret: Option<Bytes>, chain: seq<Block>,
                                         contents: seq<Block>, n: nat)
    requires 1 <= n <= |chain| == |contents|
    requires UpgradedContents(p, key, Bumped(chain[0])) == Some(contents[0])
    requires forall i :: 1 <= i < |chain| ==> UpgradedContents(p, key, chain[i]) == Some(contents[i])
    ensures Upgraded(p, key, secret, chain[..n]) == Some(Cascade(p, key, secret, contents[..n]))
  {
    hide UpgradedContents, ScriptSealed, Relinked;
    if n > 1 {
      CascadePrefix(p, key, secret, chain, contents, n - 1);
      assert chain[..n][..n - 1] == chain[..n - 1] && contents[..n][..n - 1] == contents[..n - 1];
    }
  }

  method RecomputeContents(p: Primitives, key: Bytes, b: Block) returns (r: Option<Block>)
    requires OrdersKeys(p)
    ensures r == UpgradedContents(p, key, b)
  {
    hide ComputedContentHash, ListsSort, AllRead, IsSuffixed, CompactEntryHash, IsDay;
    if !IsDay(b) || b.entries.None? {
      return Some(b);
    }
    var es := b.entries.value;
    var out: seq<Entry> := [];
    for j := 0 to |es|
      invariant UpgradedEntries(p, key, es[..j]) == Some(out)
    {
      assert es[..j + 1][..j] == es[..j];
      var h := ComputeContentHash(p, key, es[j].data);
      if h.None? {
        EntriesUpgradeIff(p, key, es);
        assert es[j] in es;
        return None;
      }
      var d := es[j].data[ContentHash := h.value];
      out := out + [Entry(CompactEntryHash(p, d), d)];
    }
    assert es[..|es|] == es;
    r := Some(b.(entries := Some(out)));
  }

  // ----- Migrating twice -----------------------------------------------------

  lemma ContentsTwice(p: Primitives, key: Bytes, b: Block, m: Block)
    requires UpgradedContents(p, key, b).Some? && m.entries == UpgradedContents(p, key, b).value.entries
    requires IsDay(m) == IsDay(b)
    ensures UpgradedContents(p, key, m) == Some(m)
  {
    if IsDay(b) && b.entries.Some? {
      UpgradedEntriesGood(p, key, b.entries.value);
    }
    hide UpgradedEntries, EntriesGood;
  }

  /** Sealing again what the script sealed changes nothing. */
  lemma SealedTwice(p: Primitives, key: Bytes, secret: Option<Bytes>, b: Block)
    ensures var s := ScriptSealed(p, key, secret, b);
            ScriptSealed(p, key, secret, s) == s && IsDay(s) == IsDay(b)
  {
    var s := ScriptSealed(p, key, secret, b);
    assert ScriptBody(s).fields == ScriptBody(b).fields;
    assert TypeOf(s) == TypeOf(b);
  }

  lemma BlockTwice(p: Primitives, key: Bytes, secret: Option<Bytes>, prev: Block, b: Block)
    requires UpgradedBlock(p, key, secret, prev, b).Some?
    ensures var m := UpgradedBlock(p, key, secret, prev, b).value; UpgradedBlock(p, key, secret, prev, m) == Some(m)
  {
    var c := UpgradedContents(p, key, b).value;
    var l := Relinked(prev, c);
    var m := ScriptSealed(p, key, secret, l);
    SealedTwice(p, key, secret, l);
    ScriptSealedFields(p, key, secret, l);
    assert m.fields[PrevHash := ScriptHash(prev)] == m.fields;
    assert IsDay(l) == IsDay(b);
    hide ScriptSealed, UpgradedEntries, ScriptHash;
    ContentsTwice(p, key, b, m);
  }

  lemma ScriptSealedFields(p: Primitives, key: Bytes, secret: Option<Bytes>, b: Block)
    ensures var s := ScriptSealed(p, key, secret, b);
            && s.entries == b.entries
            && (forall f | f !in {ScriptKey(b), IdentitySeal} ::
                  Get(s.fields, f) == Get(b.fields, f) && (f in s.fields <==> f in b.fields))
  {
  }

  lemma GenesisTwice(p: Primitives, key: Bytes, secret: Option<Bytes>, g: Block)
    requires UpgradedGenesis(p, key, secret, g).Some?
    ensures var m := UpgradedGenesis(p, key, secret, g).value; UpgradedGenesis(p, key, secret, m) == Some(m)
  {
    var c := UpgradedContents(p, key, Bumped(g)).value;
    var m := ScriptSealed(p, key, secret, c);
    SealedTwice(p, key, secret, c);
    ScriptSealedFields(p, key, secret, c);
    assert m.fields[FormatVersion := Str(TARGET_VERSION)] == m.fields;
    assert IsDay(c) == IsDay(Bumped(g));
    hide ScriptSealed, UpgradedEntries;
    ContentsTwice(p, key, Bumped(g), m);
  }

  /** Migrating a migrated chain changes nothing. */
  lemma {:induction false} UpgradeIsIdempotent(p: Primitives, key: Bytes, secret: Option<Bytes>, chain: seq<Block>)
    requires chain != [] && Upgraded(p, key, secret, chain).Some?
    ensures Upgraded(p, key, secret, Upgraded(p, key, secret, chain).value) == Upgraded(p, key, secret, chain)
  {
    hide UpgradedBlock, UpgradedGenesis;
    var n := |chain| - 1;
    var m := Upgraded(p, key, secret, chain).value;
    if n == 0 {
      GenesisTwice(p, key, secret, chain[0]);
    } else {
      var before := Upgraded(p, key, secret, chain[..n]).value;
      UpgradeIsIdempotent(p, key, secret, chain[..n]);
      assert m[..n] == before;
      BlockTwice(p, key, secret, before[n - 1], chain[n]);
    }
  }

  // ----- What is kept --------------------------------------------------------

  /** Blocks that differ at most in the given fields, an identity seal only if
      there was one, and in the entries' hashes and content hashes. */
  ghost predicate SameBut(a: Block, b: Block, changed: set<Field>) {
    && (forall f | f !in changed && f != IdentitySeal ::
          (f in a.fields <==> f in b.fields) && Get(a.fields, f) == Get(b.fields, f))
    && (!Truthy(Get(a.fields, IdentitySeal)) ==>
          (IdentitySeal in a.fields <==> IdentitySeal in b.fields) && Get(a.fields, IdentitySeal) == Get(b.fields, IdentitySeal))
    && (Truthy(Get(a.fields, IdentitySeal)) ==> Truthy(Get(b.fields, IdentitySeal)))
    && (a.entries.Some? <==> b.entries.Some?)
    && (a.entries.Some? ==>
          && |a.entries.value| == |b.entries.value|
          && forall j :: 0 <= j < |a.entries.value| ==>
               a.entries.value[j].data - {ContentHash} == b.entries.value[j].data - {ContentHash})
  }

  lemma SameFieldsSameBut(a: Block, b: Block)
    requires a.fields == b.fields && (a.entries.Some? <==> b.entries.Some?)
    requires a.entries.Some? ==>
               && |a.entries.value| == |b.entries.value|
               && forall j :: 0 <= j < |a.entries.value| ==>
                    a.entries.value[j].data - {ContentHash} == b.entries.value[j].data - {ContentHash}
    ensures SameBut(a, b, {}) && ScriptKey(a) == ScriptKey(b)
  {
  }

  lemma ContentsKeep(p: Primitives, key: Bytes, b: Block)
    requires UpgradedContents(p, key, b).Some?
    ensures SameBut(b, UpgradedContents(p, key, b).value, {})
    ensures ScriptKey(UpgradedContents(p, key, b).value) == ScriptKey(b)
  {
    if IsDay(b) && b.entries.Some? {
      UpgradedEntriesGood(p, key, b.entries.value);
    }
    hide UpgradedEntries, EntriesGood, SameBut, ScriptKey;
    SameFieldsSameBut(b, UpgradedContents(p, key, b).value);
  }

  lemma SealingKeeps(p: Primitives, key: Bytes, secret: Option<Bytes>, b: Block)
    requires SealsAreNonEmpty(p)
    ensures SameBut(b, ScriptSealed(p, key, secret, b), {ScriptKey(b)})
  {
    hide ScriptBody;
  }

  lemma SameButTwice(a: Block, b: Block, c: Block, changed: set<Field>, more: set<Field>)
    requires SameBut(a, b, changed) && SameBut(b, c, more)
    ensures SameBut(a, c, changed + more)
  {
  }

  lemma RelinkingKeeps(prev: Block, b: Block)
    ensures SameBut(b, Relinked(prev, b), {PrevHash}) && ScriptKey(Relinked(prev, b)) == ScriptKey(b)
  {
    hide ScriptHash;
  }

  lemma BumpingKeeps(g: Block)
    ensures SameBut(g, Bumped(g), {FormatVersion}) && ScriptKey(Bumped(g)) == ScriptKey(g)
  {
  }

  lemma BlockKeeps(p: Primitives, key: Bytes, secret: Option<Bytes>, prev: Block, b: Block)
    requires SealsAreNonEmpty(p) && UpgradedBlock(p, key, secret, prev, b).Some?
    ensures SameBut(b, UpgradedBlock(p, key, secret, prev, b).value, {PrevHash, ScriptKey(b)})
  {
    hide SameBut, ScriptSealed, Relinked, ScriptKey;
    ContentsKeep(p, key, b);
    var c := UpgradedContents(p, key, b).value;
    hide UpgradedContents;
    var l := Relinked(prev, c);
    RelinkingKeeps(prev, c);
    SealingKeeps(p, key, secret, l);
    SameButTwice(b, c, l, {}, {PrevHash});
    SameButTwice(b, l, ScriptSealed(p, key, secret, l), {} + {PrevHash}, {ScriptKey(b)});
    assert {} + {PrevHash} + {ScriptKey(b)} == {PrevHash, ScriptKey(b)};
  }

  lemma GenesisKeeps(p: Primitives, key: Bytes, secret: Option<Bytes>, g: Block)
    requires SealsAreNonEmpty(p) && UpgradedGenesis(p, key, secret, g).Some?
    ensures SameBut(g, UpgradedGenesis(p, key, secret, g).value, {FormatVersion, ScriptKey(g)})
  {
    hide SameBut, ScriptSealed, Bumped, ScriptKey;
    var v := Bumped(g);
    ContentsKeep(p, key, v);
    var c := UpgradedContents(p, key, v).value;
    hide UpgradedContents;
    BumpingKeeps(g);
    SealingKeeps(p, key, secret, c);
    SameButTwice(g, v, c, {FormatVersion}, {});
    SameButTwice(g, c, ScriptSealed(p, key, secret, c), {FormatVersion} + {}, {ScriptKey(g)});
    assert {FormatVersion} + {} + {ScriptKey(g)} == {FormatVersion, ScriptKey(g)};
  }

  /** Only the hash, the link, genesis's format version, an identity seal that was
      there, entry hashes and content hashes change. */
  lemma {:induction false} UpgradeKeepsTheRest(p: Primitives, key: Bytes, secret: Option<Bytes>, chain: seq<Block>, i: nat)
    requires SealsAreNonEmpty(p) && i < |chain| && Upgraded(p, key, secret, chain).Some?
    ensures SameBut(chain[i], Upgraded(p, key, secret, chain).value[i],
                    {if i == 0 then FormatVersion else PrevHash, ScriptKey(chain[i])})
    decreases |chain|
  {
    hide UpgradedBlock, UpgradedGenesis, SameBut;
    var n := |chain| - 1;
    if i < n {
      UpgradeKeepsTheRest(p, key, secret, chain[..n], i);
    } else if n == 0 {
      GenesisKeeps(p, key, secret, chain[0]);
    } else {
      BlockKeeps(p, key, secret, Upgraded(p, key, secret, chain[..n]).value[n - 1], chain[n]);
    }
  }

  // ----- The chain verifier accepts the result -------------------------------

  /** A pre-`block_hash` block that stores no hash but its own and no legacy
      signature in place of an identity seal. */
  predicate OldFormat(b: Block) {
    && KnownType(b) && BlockHash !in b.fields
    && (ScriptKey(b) != DayHash ==> DayHash !in b.fields)
    && (ScriptKey(b) == YearHash ==> MonthHash !in b.fields)
    && (Truthy(Get(b.fields, Signature)) ==> Truthy(Get(b.fields, IdentitySeal)))
  }

  /** The fields the chain verifier leaves out of a seal but the script does not. */
  predicate Unversioned(b: Block) {
    FormatVersion !in b.fields && KeyVersion !in b.fields
  }

  /** A verifier with the script's key, whose secret, if any, is the script's. */
  predicate SameKeys(v: Verifier, key: Bytes, secret: Option<Bytes>) {
    v.key == key && v.versions.None? && (v.secret.Some? ==> Signs(secret) && v.secret == secret)
  }

  lemma ScriptHashIsBlockHash(p: Primitives, key: Bytes, secret: Option<Bytes>, b: Block)
    requires SealsAreNonEmpty(p) && OldFormat(b) && BlockGood(p, key, secret, b)
    ensures GetBlockHash(b) == ScriptHash(b) && HashKey(b) == ScriptKey(b)
  {
    hide EntriesGood, ScriptBody;
  }

  lemma GoodStep(v: Verifier, key: Bytes, secret: Option<Bytes>, g: Block, prev: Block, b: Block)
    requires SealsAreNonEmpty(v.p) && SealsAreInjective(v.p) && SameKeys(v, key, secret)
    requires OldFormat(prev) && BlockGood(v.p, key, secret, prev)
    requires OldFormat(b) && BlockGood(v.p, key, secret, b) && PrevHash in b.fields && b.fields[PrevHash] == ScriptHash(prev)
    ensures StepOk(v, g, prev, b) <==> Unversioned(b)
  {
    ScriptHashIsBlockHash(v.p, key, secret, prev);
    ScriptHashIsBlockHash(v.p, key, secret, b);
    SealAgreesIff(v, key, secret, b);
    GoodIdentity(v, key, secret, b);
    GoodEntriesVerify(v, key, secret, g, b);
    hide SealValid, BlockGood, GetBlockHash, ScriptHash, OldFormat, HashKey, IdentitySealOf, EntryValid, RequiresContentHash;
  }

  lemma SealAgreesIff(v: Verifier, key: Bytes, secret: Option<Bytes>, b: Block)
    requires SealsAreInjective(v.p) && SameKeys(v, key, secret) && HashKey(b) == ScriptKey(b)
    requires BlockGood(v.p, key, secret, b)
    ensures SealValid(v, b) <==> Unversioned(b)
  {
    var mine, script := SealedBody(b, ScriptKey(b)), ScriptBody(b);
    if Unversioned(b) {
      assert mine.fields == script.fields;
    } else {
      assert mine.fields != script.fields by {
        assert FormatVersion in b.fields ==> FormatVersion in script.fields;
        assert KeyVersion in b.fields ==> KeyVersion in script.fields;
      }
    }
    hide EntriesGood;
  }

  lemma GoodIdentity(v: Verifier, key: Bytes, secret: Option<Bytes>, b: Block)
    requires SameKeys(v, key, secret) && OldFormat(b) && BlockGood(v.p, key, secret, b) && HashKey(b) == ScriptKey(b)
    ensures v.secret.Some? && Truthy(IdentitySealOf(b)) ==>
              b.fields[HashKey(b)].Str? && IdentitySealOf(b) == Str(v.p.mac(b.fields[HashKey(b)].s, v.secret.value))
  {
    hide EntriesGood, ScriptBody;
  }

  lemma GoodEntriesVerify(v: Verifier, key: Bytes, secret: Option<Bytes>, g: Block, b: Block)
    requires SameKeys(v, key, secret) && BlockGood(v.p, key, secret, b)
    ensures IsDay(b) ==> forall e | e in EntriesOf(b) :: EntryValid(v.p, key, RequiresContentHash(v.p, g), e)
  {
    hide ContentHashValid, ComputedContentHash, ScriptBody, ScriptHash, RequiresContentHash;
  }

  /** The chain verifier, content hashes and identity seals included, accepts the
      migrated chain exactly when no block after genesis carries a version field. */
  lemma UpgradedAcceptedIff(v: Verifier, key: Bytes, secret: Option<Bytes>, chain: seq<Block>, m: seq<Block>)
    requires SealsAreNonEmpty(v.p) && SealsAreInjective(v.p) && SameKeys(v, key, secret)
    requires chain != [] && Upgraded(v.p, key, secret, chain) == Some(m)
    requires forall i :: 0 <= i < |chain| ==> OldFormat(chain[i])
    ensures Accepted(v, m) <==> forall i :: 1 <= i < |chain| ==> Unversioned(chain[i])
  {
    hide Upgraded, StepOk, OldFormat, BlockGood, ScriptHash, Unversioned, SameKeys;
    forall i | 1 <= i < |chain| ensures StepOk(v, m[0], m[i - 1], m[i]) <==> Unversioned(chain[i]) {
      UpgradedStepAt(v, key, secret, chain, m, i);
    }
    if Accepted(v, m) {
      forall i | 1 <= i < |chain| ensures Unversioned(chain[i]) {
        assert StepOk(v, m[0], m[i - 1], m[i]);
      }
    }
  }

  /** A day block that names a format version is enough: the chain migrates, and
      the verifier rejects the result. */
  lemma VersionedDayIsRejected(v: Verifier, key: Bytes, secret: Option<Bytes>, version: Value)
    requires SealsAreNonEmpty(v.p) && SealsAreInjective(v.p) && SameKeys(v, key, secret)
    ensures var chain := [Block(map[Type := Str("genesis")], None), Block(map[FormatVersion := version], Some([]))];
            && Upgraded(v.p, key, secret, chain).Some?
            && !Accepted(v, Upgraded(v.p, key, secret, chain).value)
  {
    var chain := [Block(map[Type := Str("genesis")], None), Block(map[FormatVersion := version], Some([]))];
    assert OldFormat(chain[0]) && OldFormat(chain[1]) && !Unversioned(chain[1]);
    hide Upgraded, Accepted, OldFormat, Unversioned, SameKeys;
    UpgradesIff(v.p, key, secret, chain);
    UpgradedAcceptedIff(v, key, secret, chain, Upgraded(v.p, key, secret, chain).value);
  }

  lemma UpgradedStepAt(v: Verifier, key: Bytes, secret: Option<Bytes>, chain: seq<Block>, m: seq<Block>, i: nat)
    requires SealsAreNonEmpty(v.p) && SealsAreInjective(v.p) && SameKeys(v, key, secret)
    requires 1 <= i < |chain| && Upgraded(v.p, key, secret, chain) == Some(m)
    requires forall i :: 0 <= i < |chain| ==> OldFormat(chain[i])
    ensures StepOk(v, m[0], m[i - 1], m[i]) <==> Unversioned(chain[i])
  {
    hide Upgraded, StepOk, OldFormat, BlockGood, ScriptHash, Unversioned, SameBut, SameKeys;
    UpgradedIsGood(v.p, key, secret, chain);
    UpgradeKeepsTheRest(v.p, key, secret, chain, i);
    UpgradeKeepsTheRest(v.p, key, secret, chain, i - 1);
    StaysOld(chain[i], m[i], PrevHash);
    StaysOld(chain[i - 1], m[i - 1], if i == 1 then FormatVersion else PrevHash);
    UpgradedLink(v.p, key, secret, chain, i);
    GoodStep(v, key, secret, m[0], m[i - 1], m[i]);
  }

  lemma StaysOld(a: Block, b: Block, f: Field)
    requires OldFormat(a) && SameBut(a, b, {f, ScriptKey(a)}) && (f == PrevHash || f == FormatVersion)
    ensures OldFormat(b) && (f == PrevHash ==> (Unversioned(b) <==> Unversioned(a)))
  {
    hide SameBut, Truthy;
    Kept(a, b, f, Type);
    assert TypeOf(b) == TypeOf(a);
    Kept(a, b, f, Signature);
    Kept(a, b, f, BlockHash);
    Kept(a, b, f, DayHash);
    Kept(a, b, f, MonthHash);
    Kept(a, b, f, KeyVersion);
    if f == PrevHash {
      Kept(a, b, f, FormatVersion);
    }
    SameButSigns(a, b, {f, ScriptKey(a)});
  }

  lemma SameButSigns(a: Block, b: Block, changed: set<Field>)
    requires SameBut(a, b, changed)
    ensures Truthy(Get(a.fields, IdentitySeal)) ==> Truthy(Get(b.fields, IdentitySeal))
  {
  }

  lemma Kept(a: Block, b: Block, f: Field, g: Field)
    requires SameBut(a, b, {f, ScriptKey(a)}) && g != f && g != IdentitySeal
    ensures g != ScriptKey(a) ==> (g in a.fields <==> g in b.fields) && Get(a.fields, g) == Get(b.fields, g)
  {
    hide ScriptKey;
  }

  lemma {:induction false} UpgradedLink(p: Primitives, key: Bytes, secret: Option<Bytes>, chain: seq<Block>, i: nat)
    requires 1 <= i < |chain| && Upgraded(p, key, secret, chain).Some?
    ensures var m := Upgraded(p, key, secret, chain).value;
            PrevHash in m[i].fields && m[i].fields[PrevHash] == ScriptHash(m[i - 1])
    decreases |chain|
  {
    hide UpgradedBlock, UpgradedGenesis, ScriptHash;
    var n := |chain| - 1;
    if i < n {
      UpgradedLink(p, key, secret, chain[..n], i);
    } else {
      UpgradedBlockGood(p, key, secret, Upgraded(p, key, secret, chain[..n]).value[n - 1], chain[n]);
    }
  }
}
