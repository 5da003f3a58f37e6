/**
 The append-only chain: building, appending, truncating and verifying blocks.
 */
module Chain {
  import opened Json
  import opened TextOrder
  import opened Blocks
  import opened ContentHashes

  /** The outcome of a check: true, false, or an exception. */
  datatype Verdict = Accepts | Rejects | Raises

  /** The keys of every known version, as `get_mk_for_version` finds them. */
  type Versions = Option<map<int, Bytes>>

  /** What a verification runs with. */
  datatype Verifier = Verifier(p: Primitives, key: Bytes, secret: Option<Bytes>, versions: Versions)

  const CONTENT_HASH_REQUIRED_VERSION: seq<int> := [0, 4, 0]
  const DEFAULT_FORMAT_VERSION: seq<int> := [0, 2, 0]

  /** Tuple comparison a >= m after padding the shorter one with zeros. */
  predicate AtLeast(a: seq<int>, m: seq<int>)
    decreases |a| + |m|
  {
    if a == [] && m == [] then true
    else
      var x, y := if a == [] then 0 else a[0], if m == [] then 0 else m[0];
      if x != y then x > y
      else AtLeast(if a == [] then [] else a[1..], if m == [] then [] else m[1..])
  }

  predicate RequiresContentHash(p: Primitives, genesis: Block) {
    var fv := Get(genesis.fields, FormatVersion);
    var parsed := if fv.Str? then p.parseVersion(fv.s) else None;
    AtLeast(if parsed.Some? then parsed.value else DEFAULT_FORMAT_VERSION, CONTENT_HASH_REQUIRED_VERSION)
  }

  function KeyVersionOf(b: Block): Option<int> {
    var kv := Get(b.fields, KeyVersion);
    if kv.Int? then Some(kv.n) else None
  }

  /** A value that counts as a number: True is 1 and False is 0. */
  function NumberOf(v: Value): Option<int> {
    match v
    case Int(n) => Some(n)
    case Bool(b) => Some(if b then 1 else 0)
    case _ => None
  }

  /** A value that cannot be looked up. */
  predicate Unhashable(v: Value) {
    v.List? || v.Obj?
  }

  /** `a > b`; None when the two do not compare. */
  function Above(p: Primitives, a: Value, b: Value): Option<bool> {
    if NumberOf(a).Some? && NumberOf(b).Some? then Some(NumberOf(a).value > NumberOf(b).value)
    else if a.Str? && b.Str? then Some(TextLess(b.s, a.s))
    else if a.List? && b.List? then p.listAbove(a.items, b.items)
    else None
  }

  /** The field "prev_block_hash_v{version}". */
  function VersionField(p: Primitives, version: Value): Field {
    match version
    case Int(n) => PrevBlockHash(n)
    case Bool(b) => Named("prev_block_hash_v" + if b then "True" else "False")
    case Str(s) =>
      var n := p.parseInt(s);
      if n.Some? && p.showInt(n.value) == s then PrevBlockHash(n.value) else Named("prev_block_hash_v" + s)
    case _ => Named("prev_block_hash_v" + p.showValue(version))
  }

  function VersionIn(b: Block): Value {
    Get(b.fields, KeyVersion)
  }

  /** Whether a lookup is given and finds this version. */
  predicate Known(v: Verifier, version: Value) {
    v.versions.Some? && NumberOf(version).Some? && NumberOf(version).value in v.versions.value
  }

  function EntriesOf(b: Block): seq<Entry> {
    if b.entries.Some? then b.entries.value else []
  }

  /** The hash a block of key version `version` must name as its predecessor.
      A re-sealed genesis answers with the hash it had at that version. */
  function LinkHash(v: Verifier, prev: Block, version: Value): Value {
    if version != Null && v.versions.Some? && IsGenesis(prev) then
      var held := Get(prev.fields, VersionField(v.p, version));
      if held != Null then held
      else if Known(v, version) then
        Str(SealOf(v.p, v.versions.value[NumberOf(version).value], SealedBody(prev, HashKey(prev))))
      else GetBlockHash(prev)
    else GetBlockHash(prev)
  }

  /** The key a block's seal and content are checked under. */
  function BlockKey(v: Verifier, b: Block): Option<Bytes> {
    var version := VersionIn(b);
    if version != Null && v.versions.Some? then
      if Known(v, version) then Some(v.versions.value[NumberOf(version).value]) else None
    else Some(v.key)
  }

  predicate EntryValid(p: Primitives, key: Bytes, required: bool, e: Entry) {
    && EntryHashAccepted(p, e.data, e.hash)
    && (required ==> ContentHashValid(p, key, e.data))
  }

  function SingleVerdict(v: Verifier, b: Block, required: bool): Verdict {
    var key := BlockKey(v, b);
    if v.versions.Some? && Unhashable(VersionIn(b)) then Raises
    else if key.None? then Rejects
    else
      var stored := Get(b.fields, HashKey(b));
      if !stored.Str? then Raises
      else if stored.s != SealOf(v.p, key.value, SealedBody(b, HashKey(b))) then Rejects
      else if IsDay(b) && exists e | e in EntriesOf(b) :: !EntryValid(v.p, key.value, required, e) then Rejects
      else Accepts
  }

  /** The identity seal of a block, in its current or its legacy field. */
  function IdentitySealOf(b: Block): Value {
    Or(Get(b.fields, IdentitySeal), Get(b.fields, Signature))
  }

  function IdentityVerdict(v: Verifier, b: Block): Verdict {
    var tag := IdentitySealOf(b);
    if v.secret.None? || !Truthy(tag) then Accepts
    else
      var stored := Get(b.fields, HashKey(b));
      if !stored.Str? || !tag.Str? then Raises
      else if tag.s == v.p.mac(stored.s, v.secret.value) then Accepts
      else Rejects
  }

  /** The last check: the block's version against genesis's, when both have one. */
  function BoundVerdict(v: Verifier, genesis: Block, b: Block): Verdict {
    if VersionIn(genesis) == Null || VersionIn(b) == Null then Accepts
    else
      match Above(v.p, VersionIn(b), VersionIn(genesis))
      case None => Raises
      case Some(above) => if above then Rejects else Accepts
  }

  predicate WithinGenesis(p: Primitives, genesis: Block, b: Block) {
    VersionIn(genesis) == Null || VersionIn(b) == Null || Above(p, VersionIn(b), VersionIn(genesis)) == Some(false)
  }

  /** Looking up the version for the link raises. */
  predicate LinkRaises(v: Verifier, prev: Block, b: Block) {
    && v.versions.Some? && Unhashable(VersionIn(b)) && IsGenesis(prev)
    && Get(prev.fields, VersionField(v.p, VersionIn(b))) == Null
  }

  /** The verdict on one block after `prev` in a chain starting with `genesis`. */
  function StepVerdict(v: Verifier, genesis: Block, prev: Block, b: Block): Verdict {
    if LinkRaises(v, prev, b) || PrevHash !in b.fields then Raises
    else if b.fields[PrevHash] != LinkHash(v, prev, VersionIn(b)) then Rejects
    else if SingleVerdict(v, b, RequiresContentHash(v.p, genesis)) != Accepts then
      SingleVerdict(v, b, RequiresContentHash(v.p, genesis))
    else if IdentityVerdict(v, b) != Accepts then IdentityVerdict(v, b)
    else BoundVerdict(v, genesis, b)
  }

  /** The verdict on blocks i, i+1, ...: the first one that is not acceptance. */
  function VerdictFrom(v: Verifier, blocks: seq<Block>, i: nat): Verdict
    requires 1 <= i
    decreases |blocks| - i
  {
    if i >= |blocks| then Accepts
    else
      var step := StepVerdict(v, blocks[0], blocks[i - 1], blocks[i]);
      if step != Accepts then step else VerdictFrom(v, blocks, i + 1)
  }

  /** What an accepted block satisfies, condition by condition. */
  ghost predicate StepOk(v: Verifier, genesis: Block, prev: Block, b: Block) {
    && PrevHash in b.fields && b.fields[PrevHash] == LinkHash(v, prev, VersionIn(b))
    && SealValid(v, b)
    && (IsDay(b) ==> forall e | e in EntriesOf(b) ::
                       EntryValid(v.p, BlockKey(v, b).value, RequiresContentHash(v.p, genesis), e))
    && (v.secret.Some? && Truthy(IdentitySealOf(b)) ==>
          IdentitySealOf(b) == Str(v.p.mac(b.fields[HashKey(b)].s, v.secret.value)))
    && WithinGenesis(v.p, genesis, b)
  }

  predicate SealValid(v: Verifier, b: Block) {
    && BlockKey(v, b).Some?
    && HashKey(b) in b.fields
    && b.fields[HashKey(b)] == Str(SealOf(v.p, BlockKey(v, b).value, SealedBody(b, HashKey(b))))
  }

  /** A chain every block of which is accepted. Genesis itself is never checked. */
  ghost predicate Accepted(v: Verifier, blocks: seq<Block>) {
    forall i :: 1 <= i < |blocks| ==> StepOk(v, blocks[0], blocks[i - 1], blocks[i])
  }

  lemma StepAcceptedIff(v: Verifier, genesis: Block, prev: Block, b: Block)
    ensures StepVerdict(v, genesis, prev, b) == Accepts <==> StepOk(v, genesis, prev, b)
  {
  }

  lemma {:induction false} VerdictFromIff(v: Verifier, blocks: seq<Block>, i: nat)
    requires 1 <= i
    ensures VerdictFrom(v, blocks, i) == Accepts <==>
            forall j :: i <= j < |blocks| ==> StepOk(v, blocks[0], blocks[j - 1], blocks[j])
    decreases |blocks| - i
  {
    if i < |blocks| {
      StepAcceptedIff(v, blocks[0], blocks[i - 1], blocks[i]);
      VerdictFromIff(v, blocks, i + 1);
    }
  }

  /** `verify` answers true exactly on the accepted chains. */
  lemma VerifyAcceptsIff(v: Verifier, blocks: seq<Block>)
    ensures VerdictFrom(v, blocks, 1) == Accepts <==> Accepted(v, blocks)
  {
    VerdictFromIff(v, blocks, 1);
  }

  /** Acceptance of a longer chain is acceptance of the old one and of each new step. */
  lemma AcceptedExtends(v: Verifier, blocks: seq<Block>, b: Block)
    requires blocks != []
    ensures Accepted(v, blocks + [b]) <==>
            Accepted(v, blocks) && StepOk(v, blocks[0], blocks[|blocks| - 1], b)
  {
    var longer := blocks + [b];
    var n := |blocks|;
    assert longer[n] == b && longer[n - 1] == blocks[n - 1] && longer[0] == blocks[0];
    if Accepted(v, longer) {
      assert StepOk(v, longer[0], longer[n - 1], longer[n]);
      forall i | 1 <= i < n ensures StepOk(v, blocks[0], blocks[i - 1], blocks[i]) {
        assert longer[i] == blocks[i] && longer[i - 1] == blocks[i - 1];
      }
    }
    if Accepted(v, blocks) && StepOk(v, blocks[0], blocks[n - 1], b) {
      forall i | 1 <= i < |longer| ensures StepOk(v, longer[0], longer[i - 1], longer[i]) {
        assert i < n ==> longer[i] == blocks[i] && longer[i - 1] == blocks[i - 1];
      }
    }
  }

  /** Every prefix of an accepted chain is accepted, so truncation is safe. */
  lemma AcceptedPrefix(v: Verifier, blocks: seq<Block>, n: nat)
    requires Accepted(v, blocks) && n <= |blocks|
    ensures Accepted(v, blocks[..n])
  {
    forall i | 1 <= i < n ensures StepOk(v, blocks[0], blocks[i - 1], blocks[i]) {
    }
  }

  // ----- Linkage ---------------------------------------------------------

  predicate Linked(prev: Block, b: Block) {
    Get(b.fields, PrevHash) == GetBlockHash(prev)
  }

  predicate AllLinked(blocks: seq<Block>) {
    forall i :: 1 <= i < |blocks| ==> Linked(blocks[i - 1], blocks[i])
  }

  // ----- The chain as an object ------------------------------------------

  datatype AppendResult = Appended | LinkBroken(index: nat)

  class LedgerChain {
    const p: Primitives
    const key: Bytes
    const secret: Option<Bytes>
    var blocks: seq<Block>

    constructor (p: Primitives, key: Bytes, secret: Option<Bytes>, blocks: seq<Block>)
      ensures this.p == p && this.key == key && this.secret == secret && this.blocks == blocks
    {
      this.p, this.key, this.secret, this.blocks := p, key, secret, blocks;
    }

    function Checker(versions: Versions): Verifier {
      Verifier(p, key, secret, versions)
    }

    method VerifySingleBlock(b: Block, versions: Versions, required: bool) returns (r: Verdict)
      requires OrdersKeys(p)
      ensures r == SingleVerdict(Checker(versions), b, required)
    {
      var crypto := key;
      var version := VersionIn(b);
      if version != Null && versions.Some? {
        if Unhashable(version) {
          return Raises;
        }
        var n := NumberOf(version);
        if n.None? || n.value !in versions.value {
          return Rejects;
        }
        crypto := versions.value[n.value];
      }
      var stored := Get(b.fields, HashKey(b));
      if !stored.Str? {
        return Raises;
      }
      if p.seal(crypto, p.dumpBlock(SealedBody(b, HashKey(b)))) != stored.s {
        return Rejects;
      }
      if IsDay(b) {
        var ok := VerifyEntries(EntriesOf(b), crypto, required);
        if !ok {
          return Rejects;
        }
      }
      r := Accepts;
    }

    /** The entry loop of a day block. */
    method VerifyEntries(entries: seq<Entry>, crypto: Bytes, required: bool) returns (ok: bool)
      requires OrdersKeys(p)
      ensures ok == forall e | e in entries :: EntryValid(p, crypto, required, e)
    {
      hide EntryHashAccepted, ContentAccepted;
      for i := 0 to |entries|
        invariant forall e | e in entries[..i] :: EntryValid(p, crypto, required, e)
      {
        var e := entries[i];
        assert e in entries;
        if !EntryHashAccepted(p, e.data, e.hash) {
          return false;
        }
        if required {
          if ContentHash !in e.data {
            return false;
          }
          var valid := VerifyContentHash(p, crypto, e.data);
          if !valid {
            return false;
          }
        }
        assert entries[..i + 1] == entries[..i] + [e];
      }
      assert entries[..|entries|] == entries;
      ok := true;
    }

    method VerifyStep(genesis: Block, prev: Block, b: Block, versions: Versions) returns (r: Verdict)
      requires OrdersKeys(p)
      ensures r == StepVerdict(Checker(versions), genesis, prev, b)
    {
      var version, genesisVersion := VersionIn(b), VersionIn(genesis);
      if LinkRaises(Checker(versions), prev, b) || PrevHash !in b.fields {
        return Raises;
      }
      if b.fields[PrevHash] != LinkHash(Checker(versions), prev, version) {
        return Rejects;
      }
      var single := VerifySingleBlock(b, versions, RequiresContentHash(p, genesis));
      if single != Accepts {
        return single;
      }
      var tag := IdentitySealOf(b);
      if secret.Some? && Truthy(tag) {
        var stored := Get(b.fields, HashKey(b));
        if !stored.Str? || !tag.Str? {
          return Raises;
        }
        if tag.s != p.mac(stored.s, secret.value) {
          return Rejects;
        }
      }
      if genesisVersion != Null && version != Null {
        var above := Above(p, version, genesisVersion);
        if above.None? {
          return Raises;
        }
        if above.value {
          return Rejects;
        }
      }
      r := Accepts;
    }

    method Verify(versions: Versions) returns (r: Verdict)
      requires OrdersKeys(p)
      ensures r == VerdictFrom(Checker(versions), blocks, 1)
      ensures r == Accepts <==> Accepted(Checker(versions), blocks)
    {
      VerifyAcceptsIff(Checker(versions), blocks);
      var i := 1;
      while i < |blocks|
        invariant 1 <= i
        invariant VerdictFrom(Checker(versions), blocks, 1) == VerdictFrom(Checker(versions), blocks, i)
      {
        var step := VerifyStep(blocks[0], blocks[i - 1], blocks[i], versions);
        if step != Accepts {
          return step;
        }
        i := i + 1;
      }
      r := Accepts;
    }

    method BuildDayBlock(datas: seq<Data>, prevHash: Value, date: Text, version: Option<int>)
      returns (b: Block)
      ensures b == DayBlock(p, key, secret, datas, prevHash, date, NextDayIndex(blocks), version)
      ensures b.fields.Keys >= {Type, DayIndex, Date, PrevHash, DayHash}
      ensures b.fields[Type] == Str("day") && b.fields[Date] == Str(date) && b.fields[PrevHash] == prevHash
      ensures var after := blocks != [] && Get(blocks[|blocks| - 1].fields, Type) == Str("day")
                           && Get(blocks[|blocks| - 1].fields, DayIndex).Int?;
              b.fields[DayIndex] == Int(if after then blocks[|blocks| - 1].fields[DayIndex].n + 1 else 1)
      ensures b.entries.Some? && |b.entries.value| == |datas|
      ensures forall i :: 0 <= i < |datas| ==> b.entries.value[i] == Entry(p.sha(p.dumpIndented(datas[i])), datas[i])
    {
      hide NextDayIndex, CanonicalEntryHash, HashedEntries;
      var entries := HashEntries(datas);
      var fields: Data := map[Type := Str("day"), DayIndex := Int(NextDayIndex(blocks)),
                              Date := Str(date), PrevHash := prevHash];
      if version.Some? {
        fields := fields[KeyVersion := Int(version.value)];
      }
      var body := Block(fields - {KeyVersion}, Some(entries));
      fields := fields[DayHash := Str(p.seal(key, p.dumpBlock(body)))];
      if Signs(secret) {
        fields := fields[IdentitySeal := Str(p.mac(fields[DayHash].s, secret.value))];
      }
      b := Block(fields, Some(entries));
      assert body.fields == DayFields(prevHash, date, NextDayIndex(blocks));
      assert b == DayBlock(p, key, secret, datas, prevHash, date, NextDayIndex(blocks), version);
      hide DayBlock;
      DayBlockIs(p, key, secret, datas, prevHash, date, NextDayIndex(blocks), version);
      NextIs(blocks);
    }

    /** The entries of a day block, each hashed anew. */
    method HashEntries(datas: seq<Data>) returns (entries: seq<Entry>)
      ensures entries == HashedEntries(p, datas)
    {
      entries := [];
      for i := 0 to |datas|
        invariant entries == HashedEntries(p, datas[..i])
      {
        entries := entries + [Entry(CanonicalEntryHash(p, datas[i]), datas[i])];
        assert datas[..i + 1][..i] == datas[..i];
      }
      assert datas[..|datas|] == datas;
    }

    method AppendBlocks(more: seq<Block>) returns (r: AppendResult)
      modifies this`blocks
      ensures r == Appended <==>
              forall i :: |old(blocks)| <= i < |old(blocks) + more| && i > 0 ==>
                            Linked((old(blocks) + more)[i - 1], (old(blocks) + more)[i])
      ensures blocks == if r == Appended then old(blocks) + more else old(blocks)
    {
      if more == [] {
        return Appended;
      }
      ghost var n := |blocks|;
      ghost var combined := blocks + more;
      assert combined[n] == more[0];
      if blocks != [] && Get(more[0].fields, PrevHash) != GetBlockHash(blocks[|blocks| - 1]) {
        assert !Linked(combined[n - 1], combined[n]);
        return LinkBroken(0);
      }
      for i := 1 to |more|
        invariant forall j :: n < j < n + i ==> Linked(combined[j - 1], combined[j])
      {
        assert combined[n + i] == more[i] && combined[n + i - 1] == more[i - 1];
        if Get(more[i].fields, PrevHash) != GetBlockHash(more[i - 1]) {
          assert !Linked(combined[n + i - 1], combined[n + i]);
          return LinkBroken(i);
        }
      }
      blocks := blocks + more;
      r := Appended;
    }

    method Truncate(removeCount: int) returns (removed: seq<Block>)
      modifies this`blocks
      ensures blocks + removed == old(blocks)
      ensures |removed| == RemovedCount(|old(blocks)|, removeCount)
      ensures removeCount <= 0 ==> removed == []
      ensures 0 < removeCount < |old(blocks)| ==> |removed| == removeCount
      ensures removeCount >= |old(blocks)| > 0 ==> blocks == [old(blocks)[0]]
    {
      var total := |blocks|;
      if removeCount <= 0 || total == 0 {
        return [];
      }
      var keep := if total - removeCount < 1 then 1 else total - removeCount;
      if keep >= total {
        return [];
      }
      removed := blocks[keep..];
      blocks := blocks[..keep];
    }
  }

  /** How many blocks a truncation takes: never genesis. */
  function RemovedCount(total: nat, removeCount: int): (n: nat)
    ensures n <= total && (total > 0 ==> n < total)
  {
    if removeCount <= 0 || total == 0 then 0
    else if removeCount >= total then total - 1
    else removeCount
  }

  // ----- Day blocks -------------------------------------------------------

  function NextDayIndex(blocks: seq<Block>): int {
    if blocks == [] then 1
    else
      var last := blocks[|blocks| - 1];
      if Get(last.fields, Type) == Str("day") && Get(last.fields, DayIndex).Int?
      then last.fields[DayIndex].n + 1 else 1
  }

  lemma NextIs(blocks: seq<Block>)
    ensures var after := blocks != [] && Get(blocks[|blocks| - 1].fields, Type) == Str("day")
                         && Get(blocks[|blocks| - 1].fields, DayIndex).Int?;
            NextDayIndex(blocks) == if after then blocks[|blocks| - 1].fields[DayIndex].n + 1 else 1
  {
  }

  function HashedEntries(p: Primitives, datas: seq<Data>): (es: seq<Entry>)
    ensures |es| == |datas|
  {
    if datas == [] then []
    else
      var d := datas[|datas| - 1];
      HashedEntries(p, datas[..|datas| - 1]) + [Entry(CanonicalEntryHash(p, d), d)]
  }

  lemma {:induction false} HashedEntryIn(p: Primitives, datas: seq<Data>, e: Entry)
    requires e in HashedEntries(p, datas)
    ensures e.data in datas && e.hash == CanonicalEntryHash(p, e.data)
  {
    var n := |datas| - 1;
    if e in HashedEntries(p, datas[..n]) {
      HashedEntryIn(p, datas[..n], e);
    }
  }

  /** The entries keep their order, each with the hash of its data in the indented layout. */
  lemma {:induction false} HashedEntriesAt(p: Primitives, datas: seq<Data>, i: nat)
    requires i < |datas|
    ensures HashedEntries(p, datas)[i] == Entry(p.sha(p.dumpIndented(datas[i])), datas[i])
  {
    if i < |datas| - 1 {
      HashedEntriesAt(p, datas[..|datas| - 1], i);
    }
  }

  function DayFields(prevHash: Value, date: Text, index: int): Data {
    map[Type := Str("day"), DayIndex := Int(index), Date := Str(date), PrevHash := prevHash]
  }

  function DayBlock(p: Primitives, key: Bytes, secret: Option<Bytes>, datas: seq<Data>, prevHash: Value,
                    date: Text, index: int, version: Option<int>): Block
  {
    var b := SealedBlock(p, key, secret, DayFields(prevHash, date, index), Some(HashedEntries(p, datas)), DayHash);
    if version.Some? then b.(fields := b.fields[KeyVersion := Int(version.value)]) else b
  }

  lemma DayBlockIs(p: Primitives, key: Bytes, secret: Option<Bytes>, datas: seq<Data>, prevHash: Value,
                   date: Text, index: int, version: Option<int>)
    ensures var b := DayBlock(p, key, secret, datas, prevHash, date, index, version);
            && b.fields.Keys >= {Type, DayIndex, Date, PrevHash, DayHash}
            && b.fields[Type] == Str("day") && b.fields[Date] == Str(date) && b.fields[PrevHash] == prevHash
            && b.fields[DayIndex] == Int(index) && b.entries.Some? && |b.entries.value| == |datas|
            && forall i :: 0 <= i < |datas| ==> b.entries.value[i] == Entry(p.sha(p.dumpIndented(datas[i])), datas[i])
  {
    forall i | 0 <= i < |datas| ensures HashedEntries(p, datas)[i] == Entry(p.sha(p.dumpIndented(datas[i])), datas[i]) {
      HashedEntriesAt(p, datas, i);
    }
    hide HashedEntries;
  }

  lemma DayBlockFields(p: Primitives, key: Bytes, secret: Option<Bytes>, datas: seq<Data>, prevHash: Value,
                       date: Text, index: int, version: Option<int>)
    ensures var b := DayBlock(p, key, secret, datas, prevHash, date, index, version);
            Get(b.fields, PrevHash) == prevHash && KeyVersionOf(b) == version
  {
  }

  /** The seal of a built day block covers all of it but its version and seals. */
  lemma DayBlockIsSealed(p: Primitives, key: Bytes, secret: Option<Bytes>, datas: seq<Data>, prevHash: Value,
                         date: Text, index: int, version: Option<int>)
    ensures var b := DayBlock(p, key, secret, datas, prevHash, date, index, version);
            && SealedBody(b, DayHash) == Block(DayFields(prevHash, date, index), b.entries)
            && b.fields[DayHash] == Str(SealOf(p, key, SealedBody(b, DayHash)))
  {
    var b := DayBlock(p, key, secret, datas, prevHash, date, index, version);
    assert SealedBody(b, DayHash).fields == DayFields(prevHash, date, index);
  }

  // ----- Blocks written at the current key --------------------------------

  /** The field a block of the given type keeps its hash in. */
  predicate HashKeyOfType(t: Value, hashKey: Field) {
    || (t == Str("day") && hashKey == DayHash)
    || (t == Str("month_summary") && hashKey == MonthHash)
    || (t == Str("year_summary") && hashKey == YearHash)
  }

  /** The body of a block a writer seals without a key version. */
  predicate WritableBody(body: Data, hashKey: Field) {
    && Type in body && HashKeyOfType(body[Type], hashKey) && PrevHash in body
    && body.Keys !! {BlockHash, DayHash, MonthHash, YearHash, IdentitySeal, Signature, FormatVersion, KeyVersion}
  }

  /** A verifier that shares the writer's key, and its secret if both have one. */
  predicate Trusts(v: Verifier, key: Bytes, secret: Option<Bytes>) {
    v.key == key && (Signs(secret) && v.secret.Some? ==> v.secret == secret)
  }

  /** A written block passes exactly when it is linked and its entries are valid,
      and it carries a hash for the next block to link to. */
  lemma WrittenBlockStep(v: Verifier, genesis: Block, prev: Block, secret: Option<Bytes>,
                         body: Data, entries: Option<seq<Entry>>, hashKey: Field)
    requires WritableBody(body, hashKey) && Trusts(v, v.key, secret) && SealsAreNonEmpty(v.p)
    ensures var b := SealedBlock(v.p, v.key, secret, body, entries, hashKey);
            && (StepOk(v, genesis, prev, b) <==>
                  && body[PrevHash] == GetBlockHash(prev)
                  && (body[Type] == Str("day") ==> forall e | e in EntriesOf(b) ::
                        EntryValid(v.p, v.key, RequiresContentHash(v.p, genesis), e)))
            && Truthy(GetBlockHash(b)) && PrevLink(b) == GetBlockHash(b)
  {
    var b := SealedBlock(v.p, v.key, secret, body, entries, hashKey);
    WrittenBlockFields(v.p, v.key, secret, body, entries, hashKey);
    hide EntryValid, RequiresContentHash, SealedBody, SealedBlock, GetBlockHash, HashKey, PrevLink;
  }

  lemma WrittenBlockFields(p: Primitives, key: Bytes, secret: Option<Bytes>,
                           body: Data, entries: Option<seq<Entry>>, hashKey: Field)
    requires WritableBody(body, hashKey) && SealsAreNonEmpty(p)
    ensures var b := SealedBlock(p, key, secret, body, entries, hashKey);
            && HashKey(b) == hashKey && hashKey in b.fields
            && b.fields[hashKey] == Str(SealOf(p, key, SealedBody(b, hashKey)))
            && b.fields[hashKey] == GetBlockHash(b) == PrevLink(b) && Truthy(GetBlockHash(b))
            && KeyVersion !in b.fields && PrevHash in b.fields && b.fields[PrevHash] == body[PrevHash]
            && Type in b.fields && b.fields[Type] == body[Type] && b.entries == entries
            && (!Signs(secret) ==> IdentitySealOf(b) == Null)
            && (Signs(secret) && Truthy(IdentitySealOf(b)) ==>
                  IdentitySealOf(b) == Str(p.mac(b.fields[hashKey].s, secret.value)))
  {
    var b := SealedBlock(p, key, secret, body, entries, hashKey);
    assert SealedBody(b, hashKey).fields == body;
    WrittenIdentity(p, key, secret, body, entries, hashKey);
    hide IdentitySealOf;
  }

  lemma WrittenIdentity(p: Primitives, key: Bytes, secret: Option<Bytes>,
                        body: Data, entries: Option<seq<Entry>>, hashKey: Field)
    requires WritableBody(body, hashKey)
    ensures var b := SealedBlock(p, key, secret, body, entries, hashKey);
            if Signs(secret) && Truthy(IdentitySealOf(b))
            then b.fields[hashKey].Str? && IdentitySealOf(b) == Str(p.mac(b.fields[hashKey].s, secret.value))
            else Signs(secret) || IdentitySealOf(b) == Null
  {
  }
}
