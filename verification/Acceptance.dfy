/**
 What the chain verifier asks of a block, spelled out on the fields themselves:
 an independent reading of its steps.
 */
module Acceptance {
  import opened Json
  import opened TextOrder
  import opened Blocks
  import opened ContentHashes
  import opened Chain

  /** The first of the values that is truthy, or the default when none is. */
  ghost predicate FirstTruthy(vs: seq<Value>, default: Value, r: Value) {
    if forall i :: 0 <= i < |vs| ==> !Truthy(vs[i]) then r == default
    else exists i :: 0 <= i < |vs| && Truthy(vs[i]) && r == vs[i] && forall j :: 0 <= j < i ==> !Truthy(vs[j])
  }

  ghost predicate HasHash(b: Block, h: Value) {
    FirstTruthy([Get(b.fields, BlockHash), Get(b.fields, DayHash), Get(b.fields, MonthHash), Get(b.fields, YearHash)],
                Str(""), h)
  }

  /** A block has this type; one without a type is a day. */
  ghost predicate HasType(b: Block, t: Text) {
    if Type in b.fields then b.fields[Type] == Str(t) else t == "day"
  }

  /** The field in which a block of its type keeps its seal. */
  ghost predicate KeepsSealIn(b: Block, f: Field) {
    if HasType(b, "genesis") && BlockHash in b.fields then f == BlockHash
    else if HasType(b, "month_summary") then f == MonthHash
    else if HasType(b, "year_summary") then f == YearHash
    else f == DayHash
  }

  /** The seal of a block under a key: over its entries and all of its fields but five. */
  ghost predicate IsSealOf(p: Primitives, key: Bytes, b: Block, f: Field, s: Text) {
    exists body: Block ::
      && body.entries == b.entries
      && body.fields.Keys == b.fields.Keys - {f, IdentitySeal, Signature, FormatVersion, KeyVersion}
      && (forall g :: g in body.fields ==> body.fields[g] == b.fields[g])
      && s == p.seal(key, p.dumpBlock(body))
  }

  /** A version names this key: none names the current one, and a number one of the lookup. */
  ghost predicate NamesKey(v: Verifier, version: Value, key: Bytes) {
    if version == Null || v.versions.None? then key == v.key
    else exists n :: IsNumber(version, n) && n in v.versions.value && v.versions.value[n] == key
  }

  ghost predicate IsNumber(v: Value, n: int) {
    v == Int(n) || (v == Bool(true) && n == 1) || (v == Bool(false) && n == 0)
  }

  /** What a block with this version must name as its predecessor. */
  ghost predicate IsLinkTo(v: Verifier, prev: Block, version: Value, link: Value) {
    if version == Null || v.versions.None? || !HasType(prev, "genesis") then HasHash(prev, link)
    else if Get(prev.fields, VersionField(v.p, version)) != Null then link == prev.fields[VersionField(v.p, version)]
    else if exists key :: NamesKey(v, version, key) then
      exists key, f, s :: NamesKey(v, version, key) && KeepsSealIn(prev, f) && IsSealOf(v.p, key, prev, f, s) && link == Str(s)
    else HasHash(prev, link)
  }

  /** The i-th number of a version; missing ones are 0. */
  function Part(a: seq<int>, i: nat): int {
    if i < |a| then a[i] else 0
  }

  ghost predicate Precedes(a: seq<int>, m: seq<int>) {
    exists k :: PrecedesAt(a, m, k)
  }

  ghost predicate PrecedesAt(a: seq<int>, m: seq<int>, k: nat) {
    Part(a, k) < Part(m, k) && forall j: nat :: j < k ==> Part(a, j) == Part(m, j)
  }

  /** Genesis has a readable format version that does not precede 0.4.0. */
  ghost predicate AsksForContentHashes(p: Primitives, genesis: Block) {
    exists t, a :: Get(genesis.fields, FormatVersion) == Str(t) && p.parseVersion(t) == Some(a) && !Precedes(a, [0, 4, 0])
  }

  /** The entry's hash is that of its data in one of three layouts. */
  ghost predicate IsEntryHash(p: Primitives, e: Entry) {
    e.hash == p.sha(p.dumpIndented(e.data)) || e.hash == p.sha(p.dumpData(e.data)) || e.hash == p.sha(p.dumpUnsorted(e.data))
  }

  /** Neither version is missing and the first is above the second, or they do not compare. */
  ghost predicate Exceeds(p: Primitives, a: Value, b: Value) {
    && a != Null && b != Null
    && match (a, b)
       case (Str(s), Str(t)) => TextLess(t, s)
       case (List(x), List(y)) => p.listAbove(x, y) != Some(false)
       case _ => !exists m, n :: IsNumber(a, m) && IsNumber(b, n) && m <= n
  }

  /** The block is sealed by s in its field f, and its entries pass under the same key. */
  ghost predicate StandsUnder(v: Verifier, genesis: Block, b: Block, key: Bytes, f: Field, s: Text) {
    && KeepsSealIn(b, f) && f in b.fields && b.fields[f] == Str(s) && IsSealOf(v.p, key, b, f, s)
    && (HasType(b, "day") && b.entries.Some? ==> EntriesAcceptable(v.p, key, genesis, b.entries.value))
  }

  /** And its tag passes, too. */
  ghost predicate SealedUnder(v: Verifier, genesis: Block, b: Block, key: Bytes, f: Field, s: Text) {
    && StandsUnder(v, genesis, b, key, f, s)
    && (v.secret.Some? ==> TagAcceptable(v.p, v.secret.value, b, s))
  }

  /** Everything the verifier asks of a block after `prev` in a chain that starts with `genesis`. */
  ghost predicate Acceptable(v: Verifier, genesis: Block, prev: Block, b: Block) {
    var version := Get(b.fields, KeyVersion);
    && PrevHash in b.fields && IsLinkTo(v, prev, version, b.fields[PrevHash])
    && (exists key, f, s :: NamesKey(v, version, key) && SealedUnder(v, genesis, b, key, f, s))
    && !Exceeds(v.p, version, Get(genesis.fields, KeyVersion))
  }

  ghost predicate EntriesAcceptable(p: Primitives, key: Bytes, genesis: Block, es: seq<Entry>) {
    forall e :: e in es ==>
      && IsEntryHash(p, e)
      && (AsksForContentHashes(p, genesis) ==>
            ContentHash in e.data && ListsSort(p, e.data) && IsHashOf(p, key, e.data, e.data[ContentHash]))
  }

  /** A tag, if there is one, is the identity's; the older field counts when the newer one is empty. */
  ghost predicate TagAcceptable(p: Primitives, secret: Bytes, b: Block, s: Text) {
    if Truthy(Get(b.fields, IdentitySeal)) then b.fields[IdentitySeal] == Str(p.mac(s, secret))
    else Truthy(Get(b.fields, Signature)) ==> b.fields[Signature] == Str(p.mac(s, secret))
  }

  // ----- The verifier's own conditions are these ----------------------------

  lemma HashIs(b: Block, h: Value)
    ensures HasHash(b, h) <==> h == GetBlockHash(b)
  {
    var vs := [Get(b.fields, BlockHash), Get(b.fields, DayHash), Get(b.fields, MonthHash), Get(b.fields, YearHash)];
    hide Get;
    assert GetBlockHash(b) == Or(vs[0], Or(vs[1], Or(vs[2], Or(vs[3], Str("")))));
  }

  lemma SealFieldIs(b: Block, f: Field)
    ensures KeepsSealIn(b, f) <==> f == HashKey(b)
  {
  }

  lemma SealIs(p: Primitives, key: Bytes, b: Block, f: Field, s: Text)
    ensures IsSealOf(p, key, b, f, s) <==> s == SealOf(p, key, SealedBody(b, f))
  {
    var mine := SealedBody(b, f);
    if body: Block :| body.entries == b.entries
                      && body.fields.Keys == b.fields.Keys - {f, IdentitySeal, Signature, FormatVersion, KeyVersion}
                      && (forall g :: g in body.fields ==> body.fields[g] == b.fields[g])
                      && s == p.seal(key, p.dumpBlock(body)) {
      assert body.fields == mine.fields;
    }
    assert mine.fields.Keys == b.fields.Keys - {f, IdentitySeal, Signature, FormatVersion, KeyVersion};
  }

  lemma NumberIs(v: Value, n: int)
    ensures IsNumber(v, n) <==> NumberOf(v) == Some(n)
  {
  }

  lemma KeyIs(v: Verifier, b: Block, key: Bytes)
    ensures NamesKey(v, VersionIn(b), key) <==> BlockKey(v, b) == Some(key)
  {
    forall n ensures IsNumber(VersionIn(b), n) <==> NumberOf(VersionIn(b)) == Some(n) {
      NumberIs(VersionIn(b), n);
    }
    hide IsNumber, NumberOf;
  }

  lemma LinkIs(v: Verifier, prev: Block, b: Block, link: Value)
    ensures IsLinkTo(v, prev, VersionIn(b), link) <==> link == LinkHash(v, prev, VersionIn(b))
  {
    hide HasHash, NamesKey, GetBlockHash, KeepsSealIn, IsSealOf, HashKey, SealedBody, BlockKey;
    HashIs(prev, link);
    var version := VersionIn(b);
    if version != Null && v.versions.Some? && IsGenesis(prev) {
      forall key ensures NamesKey(v, version, key) <==> BlockKey(v, b) == Some(key) {
        KeyIs(v, b, key);
      }
      KnownIsKey(v, b);
      forall f ensures KeepsSealIn(prev, f) <==> f == HashKey(prev) {
        SealFieldIs(prev, f);
      }
      forall key, s ensures IsSealOf(v.p, key, prev, HashKey(prev), s) <==> s == SealOf(v.p, key, SealedBody(prev, HashKey(prev))) {
        SealIs(v.p, key, prev, HashKey(prev), s);
      }
      if BlockKey(v, b).Some? {
        var key, f := BlockKey(v, b).value, HashKey(prev);
        assert NamesKey(v, version, key) && KeepsSealIn(prev, f) && IsSealOf(v.p, key, prev, f, SealOf(v.p, key, SealedBody(prev, f)));
      }
    }
  }

  lemma KnownIsKey(v: Verifier, b: Block)
    requires VersionIn(b) != Null && v.versions.Some?
    ensures BlockKey(v, b)
         == if Known(v, VersionIn(b)) then Some(v.versions.value[NumberOf(VersionIn(b)).value]) else None
  {
  }

  lemma {:induction false} AtLeastIs(a: seq<int>, m: seq<int>)
    ensures AtLeast(a, m) <==> !Precedes(a, m)
    decreases |a| + |m|
  {
    var x, y := if a == [] then [] else a[1..], if m == [] then [] else m[1..];
    if a == [] && m == [] {
      assert forall k: nat :: Part(a, k) == Part(m, k);
    } else {
      AtLeastIs(x, y);
      assert forall k: nat :: Part(x, k) == Part(a, k + 1) && Part(y, k) == Part(m, k + 1);
      if Part(a, 0) < Part(m, 0) {
        assert PrecedesAt(a, m, 0);
      } else if Part(a, 0) == Part(m, 0) {
        if k: nat :| PrecedesAt(x, y, k) {
          assert PrecedesAt(a, m, k + 1) by {
            forall j: nat | j < k + 1 ensures Part(a, j) == Part(m, j) {
              assert j > 0 ==> Part(x, j - 1) == Part(y, j - 1);
            }
          }
        }
        if k: nat :| PrecedesAt(a, m, k) {
          assert k > 0;
          assert PrecedesAt(x, y, k - 1) by {
            forall j: nat | j < k - 1 ensures Part(x, j) == Part(y, j) {
              assert Part(a, j + 1) == Part(m, j + 1);
            }
          }
        }
      }
    }
  }

  lemma RequiringIs(p: Primitives, genesis: Block)
    ensures AsksForContentHashes(p, genesis) <==> RequiresContentHash(p, genesis)
  {
    forall a ensures AtLeast(a, [0, 4, 0]) <==> !Precedes(a, [0, 4, 0]) {
      AtLeastIs(a, [0, 4, 0]);
    }
    assert PrecedesAt([0, 2, 0], [0, 4, 0], 1);
    hide AtLeast, Precedes;
  }

  lemma ExceedsIs(p: Primitives, genesis: Block, b: Block)
    ensures Exceeds(p, VersionIn(b), VersionIn(genesis)) <==> !WithinGenesis(p, genesis, b)
  {
    forall v, n ensures IsNumber(v, n) <==> NumberOf(v) == Some(n) {
      NumberIs(v, n);
    }
    hide IsNumber;
  }

  lemma TagIs(p: Primitives, secret: Bytes, b: Block, s: Text)
    ensures TagAcceptable(p, secret, b, s) <==> (Truthy(IdentitySealOf(b)) ==> IdentitySealOf(b) == Str(p.mac(s, secret)))
  {
  }

  lemma EntriesAre(p: Primitives, key: Bytes, genesis: Block, es: seq<Entry>)
    ensures EntriesAcceptable(p, key, genesis, es)
       <==> forall e | e in es :: EntryValid(p, key, RequiresContentHash(p, genesis), e)
  {
    RequiringIs(p, genesis);
    hide RequiresContentHash, AsksForContentHashes, IsHashOf, ListsSort, ContentAccepted, Resolve;
    forall e | e in es
      ensures EntryValid(p, key, RequiresContentHash(p, genesis), e) <==>
              && IsEntryHash(p, e)
              && (AsksForContentHashes(p, genesis) ==>
                    ContentHash in e.data && ListsSort(p, e.data) && IsHashOf(p, key, e.data, e.data[ContentHash]))
    {
      if ContentHash in e.data {
        AcceptedIsHash(p, key, e.data, e.data[ContentHash]);
      }
    }
  }

  lemma SealedUnderIs(v: Verifier, genesis: Block, b: Block, key: Bytes, f: Field, s: Text)
    requires BlockKey(v, b) == Some(key)
    ensures SealedUnder(v, genesis, b, key, f, s)
       <==> && f == HashKey(b) && f in b.fields && b.fields[f] == Str(s) && SealValid(v, b)
            && (IsDay(b) ==> forall e | e in EntriesOf(b) :: EntryValid(v.p, key, RequiresContentHash(v.p, genesis), e))
            && (v.secret.Some? && Truthy(IdentitySealOf(b)) ==> IdentitySealOf(b) == Str(v.p.mac(s, v.secret.value)))
  {
    hide KeepsSealIn, IsSealOf, EntriesAcceptable, TagAcceptable, IdentitySealOf, SealedBody, HashKey, EntryValid,
      RequiresContentHash, BlockKey, Truthy;
    SealFieldIs(b, f);
    SealIs(v.p, key, b, f, s);
    EntriesAre(v.p, key, genesis, EntriesOf(b));
    if v.secret.Some? {
      TagIs(v.p, v.secret.value, b, s);
    }
  }

  /** The conditions under which the verifier accepts a block are exactly those spelled out above. */
  lemma StepIs(v: Verifier, genesis: Block, prev: Block, b: Block)
    ensures StepOk(v, genesis, prev, b) <==> Acceptable(v, genesis, prev, b)
  {
    hide NamesKey, IsLinkTo, LinkHash, Exceeds, WithinGenesis, IdentitySealOf, HashKey, EntryValid, RequiresContentHash,
      BlockKey, IsDay, Truthy, KeepsSealIn, IsSealOf, HasType, EntriesAcceptable, TagAcceptable;
    if PrevHash in b.fields {
      LinkIs(v, prev, b, b.fields[PrevHash]);
    }
    ExceedsIs(v.p, genesis, b);
    forall key ensures NamesKey(v, VersionIn(b), key) <==> BlockKey(v, b) == Some(key) {
      KeyIs(v, b, key);
    }
    if BlockKey(v, b).Some? {
      var key := BlockKey(v, b).value;
      forall f, s ensures SealedUnder(v, genesis, b, key, f, s)
         <==> && f == HashKey(b) && f in b.fields && b.fields[f] == Str(s) && SealValid(v, b)
              && (IsDay(b) ==> forall e | e in EntriesOf(b) :: EntryValid(v.p, key, RequiresContentHash(v.p, genesis), e))
              && (v.secret.Some? && Truthy(IdentitySealOf(b)) ==> IdentitySealOf(b) == Str(v.p.mac(s, v.secret.value)))
      {
        SealedUnderIs(v, genesis, b, key, f, s);
      }
      hide SealedUnder;
      if StepOk(v, genesis, prev, b) {
        assert NamesKey(v, VersionIn(b), key) && SealedUnder(v, genesis, b, key, HashKey(b), b.fields[HashKey(b)].s);
      }
    }
  }

  /** `verify` answers true exactly on the chains in which every block after genesis is acceptable. */
  lemma VerifyIs(v: Verifier, blocks: seq<Block>)
    ensures VerdictFrom(v, blocks, 1) == Accepts
       <==> forall i :: 1 <= i < |blocks| ==> Acceptable(v, blocks[0], blocks[i - 1], blocks[i])
  {
    VerifyAcceptsIff(v, blocks);
    hide StepOk, Acceptable, VerdictFrom;
    forall i | 1 <= i < |blocks|
      ensures StepOk(v, blocks[0], blocks[i - 1], blocks[i]) <==> Acceptable(v, blocks[0], blocks[i - 1], blocks[i])
    {
      StepIs(v, blocks[0], blocks[i - 1], blocks[i]);
    }
  }

  // ----- When it raises -----------------------------------------------------

  /** A version that cannot be looked up. */
  ghost predicate CannotBeLookedUp(v: Verifier, version: Value) {
    v.versions.Some? && (version.List? || version.Obj?)
  }

  ghost predicate TagIsNoText(b: Block) {
    if Truthy(Get(b.fields, IdentitySeal)) then !b.fields[IdentitySeal].Str?
    else Truthy(Get(b.fields, Signature)) && !b.fields[Signature].Str?
  }

  /** Versions that are both there and do not compare. */
  ghost predicate DoNotCompare(p: Primitives, a: Value, b: Value) {
    && a != Null && b != Null
    && match (a, b)
       case (Str(s), Str(t)) => false
       case (List(x), List(y)) => p.listAbove(x, y) == None
       case _ => !exists m, n :: IsNumber(a, m) && IsNumber(b, n)
  }

  /** What makes the verifier raise at a block: for the link, a version that cannot be looked up or
      no link; after a right link, such a version or a hash that is no text; after a right seal and
      right entries, a tag that is none; and after all else versions that do not compare. */
  ghost predicate Raising(v: Verifier, genesis: Block, prev: Block, b: Block) {
    var version := Get(b.fields, KeyVersion);
    || (CannotBeLookedUp(v, version) && HasType(prev, "genesis") && Get(prev.fields, VersionField(v.p, version)) == Null)
    || PrevHash !in b.fields
    || (&& IsLinkTo(v, prev, version, b.fields[PrevHash])
        && (|| CannotBeLookedUp(v, version)
            || (exists key, f :: NamesKey(v, version, key) && KeepsSealIn(b, f) && !Get(b.fields, f).Str?)
            || (v.secret.Some? && TagIsNoText(b)
                && exists key, f, s :: NamesKey(v, version, key) && StandsUnder(v, genesis, b, key, f, s))
            || (DoNotCompare(v.p, version, Get(genesis.fields, KeyVersion))
                && exists key, f, s :: NamesKey(v, version, key) && SealedUnder(v, genesis, b, key, f, s))))
  }

  lemma ComparingIs(p: Primitives, a: Value, b: Value)
    ensures DoNotCompare(p, a, b) <==> a != Null && b != Null && Above(p, a, b).None?
  {
    forall v, n ensures IsNumber(v, n) <==> NumberOf(v) == Some(n) {
      NumberIs(v, n);
    }
    hide IsNumber;
    if NumberOf(a).Some? && NumberOf(b).Some? {
      assert IsNumber(a, NumberOf(a).value) && IsNumber(b, NumberOf(b).value);
    }
  }

  lemma TagTextIs(b: Block)
    ensures TagIsNoText(b) <==> Truthy(IdentitySealOf(b)) && !IdentitySealOf(b).Str?
  {
  }

  lemma StandsUnderIs(v: Verifier, genesis: Block, b: Block, key: Bytes, f: Field, s: Text)
    requires BlockKey(v, b) == Some(key)
    ensures StandsUnder(v, genesis, b, key, f, s)
       <==> f == HashKey(b) && Get(b.fields, f) == Str(s) && !CannotBeLookedUp(v, VersionIn(b))
            && SingleVerdict(v, b, RequiresContentHash(v.p, genesis)) == Accepts
  {
    hide KeepsSealIn, IsSealOf, EntriesAcceptable, SealedBody, HashKey, EntryValid, RequiresContentHash;
    SealFieldIs(b, f);
    SealIs(v.p, key, b, f, s);
    EntriesAre(v.p, key, genesis, EntriesOf(b));
    KeyCanBeLookedUp(v, b, key);
  }

  lemma KeyCanBeLookedUp(v: Verifier, b: Block, key: Bytes)
    requires BlockKey(v, b) == Some(key)
    ensures !CannotBeLookedUp(v, VersionIn(b))
  {
  }

  /** The single-block check in these terms. */
  lemma AloneIs(v: Verifier, genesis: Block, b: Block)
    ensures SingleVerdict(v, b, RequiresContentHash(v.p, genesis)) == Raises
       <==> CannotBeLookedUp(v, VersionIn(b)) || (BlockKey(v, b).Some? && !Get(b.fields, HashKey(b)).Str?)
    ensures SingleVerdict(v, b, RequiresContentHash(v.p, genesis)) == Accepts
       <==> BlockKey(v, b).Some? && Get(b.fields, HashKey(b)).Str?
            && StandsUnder(v, genesis, b, BlockKey(v, b).value, HashKey(b), Get(b.fields, HashKey(b)).s)
  {
    hide StandsUnder, EntryValid, RequiresContentHash, SealedBody, HashKey;
    if BlockKey(v, b).Some? && Get(b.fields, HashKey(b)).Str? {
      StandsUnderIs(v, genesis, b, BlockKey(v, b).value, HashKey(b), Get(b.fields, HashKey(b)).s);
    }
  }

  lemma TagVerdictIs(v: Verifier, b: Block, s: Text)
    requires Get(b.fields, HashKey(b)) == Str(s)
    ensures IdentityVerdict(v, b) == Raises <==> v.secret.Some? && TagIsNoText(b)
    ensures IdentityVerdict(v, b) == Accepts <==> (v.secret.Some? ==> TagAcceptable(v.p, v.secret.value, b, s))
  {
    hide TagAcceptable, TagIsNoText, IdentitySealOf, HashKey, Truthy;
    TagTextIs(b);
    if v.secret.Some? {
      TagIs(v.p, v.secret.value, b, s);
    }
  }

  lemma StandsOnlyUnder(v: Verifier, genesis: Block, b: Block)
    ensures forall key, f, s :: NamesKey(v, VersionIn(b), key) && StandsUnder(v, genesis, b, key, f, s) ==>
              BlockKey(v, b) == Some(key) && f == HashKey(b) && Get(b.fields, HashKey(b)) == Str(s)
  {
    forall key, f, s | NamesKey(v, VersionIn(b), key) && StandsUnder(v, genesis, b, key, f, s)
      ensures BlockKey(v, b) == Some(key) && f == HashKey(b) && Get(b.fields, HashKey(b)) == Str(s)
    {
      KeyIs(v, b, key);
      SealFieldIs(b, f);
    }
    hide NamesKey, KeepsSealIn, IsSealOf, BlockKey, HashKey;
  }

  /** The three ways in which a block may stand, told by the verdicts. */
  lemma StandingIs(v: Verifier, genesis: Block, b: Block)
    ensures var version, single := VersionIn(b), SingleVerdict(v, b, RequiresContentHash(v.p, genesis));
            && ((exists key, f :: NamesKey(v, version, key) && KeepsSealIn(b, f) && !Get(b.fields, f).Str?)
                <==> BlockKey(v, b).Some? && !Get(b.fields, HashKey(b)).Str?)
            && ((exists key, f, s :: NamesKey(v, version, key) && StandsUnder(v, genesis, b, key, f, s)) <==> single == Accepts)
            && ((exists key, f, s :: NamesKey(v, version, key) && SealedUnder(v, genesis, b, key, f, s))
                <==> single == Accepts && IdentityVerdict(v, b) == Accepts)
            && (single == Accepts ==> (IdentityVerdict(v, b) == Raises <==> v.secret.Some? && TagIsNoText(b)))
  {
    hide StandsUnder, TagAcceptable, TagIsNoText, NamesKey, KeepsSealIn, HashKey, RequiresContentHash, SingleVerdict,
      IdentityVerdict, BlockKey;
    forall key ensures NamesKey(v, VersionIn(b), key) <==> BlockKey(v, b) == Some(key) {
      KeyIs(v, b, key);
    }
    forall f ensures KeepsSealIn(b, f) <==> f == HashKey(b) {
      SealFieldIs(b, f);
    }
    AloneIs(v, genesis, b);
    StandsOnlyUnder(v, genesis, b);
    var version, h := VersionIn(b), Get(b.fields, HashKey(b));
    if h.Str? {
      TagVerdictIs(v, b, h.s);
    }
    if BlockKey(v, b).Some? {
      var key := BlockKey(v, b).value;
      assert NamesKey(v, version, key) && KeepsSealIn(b, HashKey(b));
      if h.Str? && StandsUnder(v, genesis, b, key, HashKey(b), h.s) {
        assert SealedUnder(v, genesis, b, key, HashKey(b), h.s) <==> (v.secret.Some? ==> TagAcceptable(v.p, v.secret.value, b, h.s));
      }
    }
  }

  /** The verifier raises at a block exactly for one of these reasons. */
  lemma RaisingIs(v: Verifier, genesis: Block, prev: Block, b: Block)
    ensures StepVerdict(v, genesis, prev, b) == Raises <==> Raising(v, genesis, prev, b)
  {
    hide IsLinkTo, LinkHash, StandsUnder, SealedUnder, TagIsNoText, DoNotCompare, Above, NamesKey, KeepsSealIn, HashKey,
      RequiresContentHash, SingleVerdict, IdentityVerdict, BlockKey, VersionField;
    if PrevHash in b.fields {
      LinkIs(v, prev, b, b.fields[PrevHash]);
    }
    ComparingIs(v.p, VersionIn(b), VersionIn(genesis));
    assert HasType(prev, "genesis") <==> IsGenesis(prev);
    hide HasType, IsGenesis;
    AloneIs(v, genesis, b);
    StandingIs(v, genesis, b);
  }
}
