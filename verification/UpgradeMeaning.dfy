/**
 The v0.4.0 migration and its self-check, told by the fields of the blocks.
 */
module UpgradeMeaning {
  import opened Json
  import opened Blocks
  import opened ContentHashes
  import opened Chain
  import opened Acceptance
  import opened FormatUpgrade

  // ----- What a migrated block holds ----------------------------------------

  /** The field the script keeps a block's hash in: genesis and days share one. */
  ghost predicate HashedIn(b: Block, f: Field) {
    if HasType(b, "month_summary") then f == MonthHash
    else if HasType(b, "year_summary") then f == YearHash
    else f == DayHash
  }

  /** The script's seal: over the entries and every field but the hash and the two signatures. */
  ghost predicate ScriptSeals(p: Primitives, key: Bytes, b: Block, f: Field, s: Text) {
    s == p.seal(key, p.dumpBlock(Block(b.fields - {f, IdentitySeal, Signature}, b.entries)))
  }

  ghost predicate SealedByScript(p: Primitives, key: Bytes, secret: Option<Bytes>, b: Block) {
    exists f, s ::
      && HashedIn(b, f) && ScriptSeals(p, key, b, f, s) && Get(b.fields, f) == Str(s)
      && (secret.Some? && secret.value != [] && Truthy(Get(b.fields, IdentitySeal)) ==>
            b.fields[IdentitySeal] == Str(p.mac(s, secret.value)))
  }

  /** The next block names the hash of the one before. */
  ghost predicate NamesHashOf(b: Block, prev: Block) {
    exists f :: HashedIn(prev, f) && PrevHash in b.fields
                && b.fields[PrevHash] == if f in prev.fields then prev.fields[f] else Str("")
  }

  /** The entry stores the hash of its decrypted content and of all its data. */
  ghost predicate HashedByScript(p: Primitives, key: Bytes, e: Entry) {
    && e.hash == p.sha(p.dumpData(e.data))
    && exists content :: IsSuffixed(p, key, e.data, content) && Get(e.data, ContentHash) == Str(p.sha(p.dumpData(content)))
  }

  lemma ScriptKeyIs(b: Block)
    ensures forall f :: HashedIn(b, f) <==> f == ScriptKey(b)
  {
  }

  lemma GoodIsSealed(p: Primitives, key: Bytes, secret: Option<Bytes>, b: Block)
    requires BlockGood(p, key, secret, b)
    ensures SealedByScript(p, key, secret, b)
  {
    ScriptKeyIs(b);
    hide HashedIn, EntriesGood;
    assert ScriptSeals(p, key, b, ScriptKey(b), ScriptSeal(p, key, b));
  }

  lemma GoodIsHashed(p: Primitives, key: Bytes, e: Entry)
    requires EntryGood(p, key, e)
    ensures HashedByScript(p, key, e)
  {
    hide ContentHashValid, ComputedContentHash, IsSuffixed;
    ComputedIs(p, key, e.data);
  }

  /** The migration, block by block: genesis says 0.4.0; every block is sealed and, if it was
      signed, signed anew, and names the hash of the one before; every entry of a day stores its
      hashes. */
  lemma UpgradeMeans(p: Primitives, key: Bytes, secret: Option<Bytes>, chain: seq<Block>, m: seq<Block>)
    requires chain != [] && Upgraded(p, key, secret, chain) == Some(m)
    ensures |m| == |chain| && Get(m[0].fields, FormatVersion) == Str("0.4.0")
    ensures forall i :: 0 <= i < |m| ==> SealedByScript(p, key, secret, m[i])
    ensures forall i :: 1 <= i < |m| ==> NamesHashOf(m[i], m[i - 1])
    ensures forall i, e :: 0 <= i < |m| && HasType(m[i], "day") && m[i].entries.Some? && e in m[i].entries.value ==>
                             HashedByScript(p, key, e)
  {
    hide Upgraded, SealedByScript, NamesHashOf, HashedByScript, BlockGood;
    UpgradedIsGood(p, key, secret, chain);
    GenesisSays(p, key, secret, chain);
    forall i | 0 <= i < |m| ensures SealedByScript(p, key, secret, m[i]) {
      GoodIsSealed(p, key, secret, m[i]);
    }
    forall i | 1 <= i < |m| ensures NamesHashOf(m[i], m[i - 1]) {
      UpgradedLink(p, key, secret, chain, i);
      NamedIs(m[i], m[i - 1]);
    }
    forall i, e | 0 <= i < |m| && HasType(m[i], "day") && m[i].entries.Some? && e in m[i].entries.value
      ensures HashedByScript(p, key, e)
    {
      GoodEntriesOf(p, key, secret, m[i], e);
    }
  }

  lemma NamedIs(b: Block, prev: Block)
    requires PrevHash in b.fields && b.fields[PrevHash] == ScriptHash(prev)
    ensures NamesHashOf(b, prev)
  {
    ScriptKeyIs(prev);
    hide HashedIn;
    assert HashedIn(prev, ScriptKey(prev));
  }

  lemma GoodEntriesOf(p: Primitives, key: Bytes, secret: Option<Bytes>, b: Block, e: Entry)
    requires BlockGood(p, key, secret, b) && HasType(b, "day") && b.entries.Some? && e in b.entries.value
    ensures HashedByScript(p, key, e)
  {
    hide EntryGood, HashedByScript, ScriptSeal, SignatureMatches;
    GoodIsHashed(p, key, e);
  }

  lemma {:induction false} GenesisSays(p: Primitives, key: Bytes, secret: Option<Bytes>, chain: seq<Block>)
    requires chain != [] && Upgraded(p, key, secret, chain).Some?
    ensures Get(Upgraded(p, key, secret, chain).value[0].fields, FormatVersion) == Str("0.4.0")
  {
    hide UpgradedGenesis, UpgradedBlock;
    if |chain| == 1 {
      UpgradedGenesisGood(p, key, secret, chain[0]);
    } else {
      GenesisSays(p, key, secret, chain[..|chain| - 1]);
    }
  }

  /** So the chain verifier asks for content hashes in the migrated chain. */
  lemma UpgradeAsks(p: Primitives, key: Bytes, secret: Option<Bytes>, chain: seq<Block>, m: seq<Block>)
    requires chain != [] && Upgraded(p, key, secret, chain) == Some(m) && p.parseVersion("0.4.0") == Some([0, 4, 0])
    ensures AsksForContentHashes(p, m[0]) && RequiresContentHash(p, m[0])
  {
    GenesisSays(p, key, secret, chain);
    hide Upgraded;
    assert !Precedes([0, 4, 0], [0, 4, 0]);
    RequiringIs(p, m[0]);
  }

  // ----- What the self-check finds ------------------------------------------

  /** A content an entry's hash may stand for: the decrypted one, or the fields hashed before. */
  ghost predicate IsContentOf(p: Primitives, key: Bytes, d: Data, content: Data) {
    IsSuffixed(p, key, d, content) || p.scriptFields(Resolve(p, key, d)) == Some(content)
  }

  /** The check passes a content hash that is the digest of such a content, if every field of the
      entry decrypts and sorts. An entry without one passes. */
  ghost predicate ContentHolds(p: Primitives, key: Bytes, d: Data) {
    ContentHash in d ==>
      && ListsSort(p, d) && AllRead(p, key, d)
      && exists content :: IsContentOf(p, key, d, content) && d[ContentHash] == Str(p.sha(p.dumpData(content)))
  }

  /** `d.get(f, "")`. */
  ghost predicate ReadsOrEmpty(d: Data, f: Field, v: Value) {
    if f in d then v == d[f] else v == Str("")
  }

  ghost predicate NamesAnother(b: Block, prev: Block) {
    exists f, v :: HashedIn(prev, f) && ReadsOrEmpty(prev.fields, f, v) && !ReadsOrEmpty(b.fields, PrevHash, v)
  }

  /** What each kind of problem says of its block. */
  ghost predicate IsProblem(p: Primitives, key: Bytes, secret: Option<Bytes>, chain: seq<Block>, x: Problem) {
    && x.index < |chain|
    && var b := chain[x.index];
       match x
       case LinkProblem(i) =>
         i > 0 && NamesAnother(b, chain[i - 1])
       case SealProblem(i) =>
         exists f, s :: HashedIn(b, f) && ScriptSeals(p, key, b, f, s) && !ReadsOrEmpty(b.fields, f, Str(s))
       case SignatureProblem(i) =>
         && secret.Some? && secret.value != [] && Truthy(Get(b.fields, IdentitySeal))
         && exists f, v :: HashedIn(b, f) && ReadsOrEmpty(b.fields, f, v)
                           && !(v.Str? && b.fields[IdentitySeal] == Str(p.mac(v.s, secret.value)))
       case EntryProblem(i, j) =>
         HasType(b, "day") && b.entries.Some? && j < |b.entries.value|
         && b.entries.value[j].hash != p.sha(p.dumpData(b.entries.value[j].data))
       case ContentProblem(i, j) =>
         HasType(b, "day") && b.entries.Some? && j < |b.entries.value| && !ContentHolds(p, key, b.entries.value[j].data)
  }

  lemma ContentPassesIff(p: Primitives, key: Bytes, d: Data)
    ensures ContentPasses(p, key, d) <==> ContentHolds(p, key, d)
  {
    ComputedIs(p, key, d);
    AllShowIff(p, key, d);
    hide ListsSort, AllRead, IsSuffixed, AllShow, Resolve, SuffixedContent;
    var cells := Resolve(p, key, d);
    if AllShow(p, cells) {
      forall content ensures IsSuffixed(p, key, d, content) <==> content == SuffixedContent(p, cells) {
        SuffixedIs(p, key, d, content);
      }
      assert ContentDigest(p, SuffixedContent(p, cells)) == Str(p.sha(p.dumpData(SuffixedContent(p, cells))));
    }
  }

  lemma {:induction false} EntryProblemsAre(p: Primitives, key: Bytes, i: nat, es: seq<Entry>, x: Problem)
    ensures x in EntryProblems(p, key, i, es) <==>
            && x.index == i && (x.EntryProblem? || x.ContentProblem?) && x.entry < |es|
            && (x.EntryProblem? ==> es[x.entry].hash != p.sha(p.dumpData(es[x.entry].data)))
            && (x.ContentProblem? ==> !ContentHolds(p, key, es[x.entry].data))
  {
    hide ContentPasses, ContentHolds;
    if es != [] {
      var j := |es| - 1;
      EntryProblemsAre(p, key, i, es[..j], x);
      ContentPassesIff(p, key, es[j].data);
    }
  }

  lemma BlockProblemsAre(p: Primitives, key: Bytes, secret: Option<Bytes>, chain: seq<Block>, i: nat, x: Problem)
    requires i < |chain|
    ensures x in BlockProblems(p, key, secret, chain, i) <==> x.index == i && IsProblem(p, key, secret, chain, x)
  {
    hide IsProblem, EntryProblems, ScriptHash, ScriptSeal, SignatureMatches, NamedPrev, IsDay, Truthy, Get;
    LinkProblemIff(p, key, secret, chain, i);
    SealProblemIff(p, key, secret, chain, i);
    SignatureProblemIff(p, key, secret, chain, i);
    if (x.EntryProblem? || x.ContentProblem?) && x.index == i {
      EntryProblemIff(p, key, secret, chain, i, x);
    }
    OthersAreNoEntryProblems(p, key, i, EntriesOf(chain[i]), x);
  }

  lemma OthersAreNoEntryProblems(p: Primitives, key: Bytes, i: nat, es: seq<Entry>, x: Problem)
    ensures x in EntryProblems(p, key, i, es) ==> x.index == i && (x.EntryProblem? || x.ContentProblem?)
  {
    EntryProblemsAre(p, key, i, es, x);
  }

  lemma EntryProblemIff(p: Primitives, key: Bytes, secret: Option<Bytes>, chain: seq<Block>, i: nat, x: Problem)
    requires i < |chain| && (x.EntryProblem? || x.ContentProblem?) && x.index == i
    ensures IsProblem(p, key, secret, chain, x) <==> IsDay(chain[i]) && x in EntryProblems(p, key, i, EntriesOf(chain[i]))
  {
    EntryProblemsAre(p, key, i, EntriesOf(chain[i]), x);
    hide ContentHolds, EntryProblems;
  }

  lemma LinkProblemIff(p: Primitives, key: Bytes, secret: Option<Bytes>, chain: seq<Block>, i: nat)
    requires i < |chain|
    ensures IsProblem(p, key, secret, chain, LinkProblem(i)) <==> i > 0 && NamedPrev(chain[i]) != ScriptHash(chain[i - 1])
  {
    if i > 0 {
      ScriptKeyIs(chain[i - 1]);
      assert ReadsOrEmpty(chain[i - 1].fields, ScriptKey(chain[i - 1]), ScriptHash(chain[i - 1]));
      hide HashedIn;
      assert HashedIn(chain[i - 1], ScriptKey(chain[i - 1]));
    }
  }

  lemma SealProblemIff(p: Primitives, key: Bytes, secret: Option<Bytes>, chain: seq<Block>, i: nat)
    requires i < |chain|
    ensures IsProblem(p, key, secret, chain, SealProblem(i)) <==> ScriptHash(chain[i]) != Str(ScriptSeal(p, key, chain[i]))
  {
    var b := chain[i];
    ScriptKeyIs(b);
    hide HashedIn;
    assert HashedIn(b, ScriptKey(b)) && ScriptSeals(p, key, b, ScriptKey(b), ScriptSeal(p, key, b));
  }

  lemma SignatureProblemIff(p: Primitives, key: Bytes, secret: Option<Bytes>, chain: seq<Block>, i: nat)
    requires i < |chain|
    ensures IsProblem(p, key, secret, chain, SignatureProblem(i))
       <==> Signs(secret) && Truthy(Get(chain[i].fields, IdentitySeal)) && !SignatureMatches(p, secret.value, chain[i])
  {
    var b := chain[i];
    ScriptKeyIs(b);
    hide HashedIn, Truthy;
    assert HashedIn(b, ScriptKey(b)) && ReadsOrEmpty(b.fields, ScriptKey(b), ScriptHash(b));
  }

  /** The self-check reports exactly the problems there are. */
  lemma ProblemsAre(p: Primitives, key: Bytes, secret: Option<Bytes>, chain: seq<Block>, x: Problem)
    ensures x in Problems(p, key, secret, chain, |chain|) <==> IsProblem(p, key, secret, chain, x)
  {
    ProblemsUpTo(p, key, secret, chain, |chain|, x);
    assert IsProblem(p, key, secret, chain, x) ==> x.index < |chain|;
  }

  lemma {:induction false} ProblemsUpTo(p: Primitives, key: Bytes, secret: Option<Bytes>, chain: seq<Block>, n: nat, x: Problem)
    requires n <= |chain|
    ensures x in Problems(p, key, secret, chain, n) <==> x.index < n && IsProblem(p, key, secret, chain, x)
  {
    hide IsProblem, BlockProblems;
    if n > 0 {
      ProblemsUpTo(p, key, secret, chain, n - 1, x);
      BlockProblemsAre(p, key, secret, chain, n - 1, x);
    }
  }
}
