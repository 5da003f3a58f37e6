/**
 Diagnosing a chain whose links may be broken, and cutting it back to the
 longest prefix whose links hold.
 */
module Repair {
  import opened Json
  import opened Blocks
  import opened Chain

  /** One broken link: where, what the previous block's hash is, what was named. */
  datatype BreakPoint = BreakPoint(index: nat, expected: Value, actual: Value)

  datatype Diagnosis = Diagnosis(total: nat, consistentPrefix: nat, breakPoints: seq<BreakPoint>)

  /** `curr.get("prev_hash", "")`. */
  function NamedPrev(b: Block): Value {
    if PrevHash in b.fields then b.fields[PrevHash] else Str("")
  }

  predicate Broken(blocks: seq<Block>, i: int) {
    1 <= i < |blocks| && NamedPrev(blocks[i]) != GetBlockHash(blocks[i - 1])
  }

  predicate LinksHold(blocks: seq<Block>) {
    forall i :: 1 <= i < |blocks| ==> !Broken(blocks, i)
  }

  /** `bs` lists exactly the broken links among the first n blocks, in order. */
  ghost predicate ListsBreaks(blocks: seq<Block>, n: nat, bs: seq<BreakPoint>)
    requires n <= |blocks|
  {
    && (forall i :: Broken(blocks, i) && i < n <==> exists k :: 0 <= k < |bs| && bs[k].index == i)
    && (forall j, k :: 0 <= j < k < |bs| ==> bs[j].index < bs[k].index)
    && (forall k :: 0 <= k < |bs| ==>
          1 <= bs[k].index < n && bs[k].expected == GetBlockHash(blocks[bs[k].index - 1])
          && bs[k].actual == NamedPrev(blocks[bs[k].index]))
  }

  /** The diagnosis lists exactly the broken links, and its prefix is the longest
      one without any. */
  ghost predicate Diagnoses(blocks: seq<Block>, d: Diagnosis) {
    && d.total == |blocks|
    && d.consistentPrefix <= |blocks|
    && LinksHold(blocks[..d.consistentPrefix])
    && (d.consistentPrefix < |blocks| ==> !LinksHold(blocks[..d.consistentPrefix + 1]))
    && ListsBreaks(blocks, |blocks|, d.breakPoints)
  }

  /** The break points among the first n blocks. */
  function BreaksUpTo(blocks: seq<Block>, n: nat): seq<BreakPoint>
    requires n <= |blocks|
  {
    if n < 2 then []
    else
      BreaksUpTo(blocks, n - 1)
      + (if Broken(blocks, n - 1)
         then [BreakPoint(n - 1, GetBlockHash(blocks[n - 2]), NamedPrev(blocks[n - 1]))] else [])
  }

  lemma BreakAdded(blocks: seq<Block>, n: nat, bs: seq<BreakPoint>, bp: BreakPoint)
    requires 1 <= n < |blocks| && ListsBreaks(blocks, n, bs) && Broken(blocks, n)
    requires bp == BreakPoint(n, GetBlockHash(blocks[n - 1]), NamedPrev(blocks[n]))
    ensures ListsBreaks(blocks, n + 1, bs + [bp])
  {
    hide Broken;
    var more := bs + [bp];
    assert more[|bs|] == bp;
    forall i | Broken(blocks, i) && i < n + 1 ensures exists k :: 0 <= k < |more| && more[k].index == i {
      if i < n {
        var k :| 0 <= k < |bs| && bs[k].index == i;
        assert more[k].index == i;
      }
    }
    forall k | 0 <= k < |more| ensures Broken(blocks, more[k].index) {
      if k < |bs| {
        assert more[k] == bs[k];
      }
    }
  }

  lemma {:induction false} BreaksAreExact(blocks: seq<Block>, n: nat)
    requires n <= |blocks|
    ensures ListsBreaks(blocks, n, BreaksUpTo(blocks, n))
  {
    if n >= 2 {
      BreaksAreExact(blocks, n - 1);
      if Broken(blocks, n - 1) {
        BreakAdded(blocks, n - 1, BreaksUpTo(blocks, n - 1),
                   BreakPoint(n - 1, GetBlockHash(blocks[n - 2]), NamedPrev(blocks[n - 1])));
      } else {
        assert BreaksUpTo(blocks, n) == BreaksUpTo(blocks, n - 1);
        assert forall i :: Broken(blocks, i) && i < n ==> i < n - 1;
      }
    }
  }

  method DiagnoseChain(blocks: seq<Block>) returns (d: Diagnosis)
    ensures Diagnoses(blocks, d)
  {
    var prefix := |blocks|;
    var breaks: seq<BreakPoint> := [];
    if |blocks| == 0 {
      return Diagnosis(0, 0, []);
    }
    for i := 1 to |blocks|
      invariant breaks == BreaksUpTo(blocks, i)
      invariant prefix == |blocks| || (prefix < i && Broken(blocks, prefix))
      invariant forall j :: 1 <= j < i && j < prefix ==> !Broken(blocks, j)
    {
      if NamedPrev(blocks[i]) != GetBlockHash(blocks[i - 1]) {
        breaks := breaks + [BreakPoint(i, GetBlockHash(blocks[i - 1]), NamedPrev(blocks[i]))];
        if i < prefix {
          prefix := i;
        }
      }
    }
    d := Diagnosis(|blocks|, prefix, breaks);
    BreaksAreExact(blocks, |blocks|);
    assert forall i :: 1 <= i < prefix ==> (Broken(blocks[..prefix], i) <==> Broken(blocks, i));
    if prefix < |blocks| {
      assert Broken(blocks[..prefix + 1], prefix);
    }
  }

  lemma BreakPointsMeanBroken(blocks: seq<Block>, d: Diagnosis)
    requires Diagnoses(blocks, d) && d.breakPoints != []
    ensures !LinksHold(blocks)
  {
    assert Broken(blocks, d.breakPoints[0].index);
  }

  /** The exported prefix diagnoses clean, and no longer prefix does. */
  lemma ExportedPrefixIsClean(blocks: seq<Block>, d: Diagnosis, again: Diagnosis)
    requires Diagnoses(blocks, d) && Diagnoses(blocks[..d.consistentPrefix], again)
    ensures again.breakPoints == [] && again.consistentPrefix == d.consistentPrefix
    ensures forall n :: d.consistentPrefix < n <= |blocks| ==> !LinksHold(blocks[..n])
  {
    var kept := blocks[..d.consistentPrefix];
    if again.breakPoints != [] {
      BreakPointsMeanBroken(kept, again);
      assert false;
    }
    if again.consistentPrefix < |kept| {
      var shorter := kept[..again.consistentPrefix + 1];
      var i :| 1 <= i < |shorter| && Broken(shorter, i);
      assert Broken(kept, i);
    }
    forall n | d.consistentPrefix < n <= |blocks| ensures !LinksHold(blocks[..n]) {
      var m := d.consistentPrefix + 1;
      var i :| 1 <= i < m && Broken(blocks[..m], i);
      assert Broken(blocks[..n], i);
    }
  }

  // ----- Chains grown by appending and cut by truncating ------------------

  datatype ChainOp = Append(more: seq<Block>) | Cut(count: int)

  /** `append_blocks` refuses a batch that does not link; `truncate` keeps genesis. */
  function Apply(blocks: seq<Block>, op: ChainOp): seq<Block> {
    match op
    case Append(more) =>
      if forall i :: |blocks| <= i < |blocks + more| && i > 0 ==> Linked((blocks + more)[i - 1], (blocks + more)[i])
      then blocks + more else blocks
    case Cut(count) => blocks[..|blocks| - RemovedCount(|blocks|, count)]
  }

  function Run(blocks: seq<Block>, ops: seq<ChainOp>): seq<Block> {
    if ops == [] then blocks else Apply(Run(blocks, ops[..|ops| - 1]), ops[|ops| - 1])
  }

  /** Every chain grown and cut from one genesis diagnoses clean and keeps it. */
  lemma {:induction false} RunsStayLinked(genesis: Block, ops: seq<ChainOp>)
    ensures var c := Run([genesis], ops); c != [] && c[0] == genesis && AllLinked(c) && LinksHold(c)
  {
    if ops != [] {
      RunsStayLinked(genesis, ops[..|ops| - 1]);
      var before, op := Run([genesis], ops[..|ops| - 1]), ops[|ops| - 1];
      var c := Apply(before, op);
      if c == before + (if op.Append? then op.more else []) {
        forall i | 1 <= i < |c| ensures Linked(c[i - 1], c[i]) {
          if i < |before| {
            assert Linked(before[i - 1], before[i]);
          }
        }
      } else if op.Cut? {
        forall i | 1 <= i < |c| ensures Linked(c[i - 1], c[i]) {
          assert Linked(before[i - 1], before[i]);
        }
      }
    }
    LinkedIsUnbroken(Run([genesis], ops));
  }

  /** A missing `prev_hash` links to nothing: hashes are never null. */
  lemma LinkedIsUnbroken(c: seq<Block>)
    requires AllLinked(c)
    ensures LinksHold(c)
  {
    forall i | 1 <= i < |c| ensures !Broken(c, i) {
      assert Linked(c[i - 1], c[i]);
    }
  }

  /** Truncating what was just appended restores the chain. */
  lemma TruncateUndoesAppend(blocks: seq<Block>, more: seq<Block>)
    requires blocks != [] && Apply(blocks, Append(more)) == blocks + more
    ensures Apply(Apply(blocks, Append(more)), Cut(|more|)) == blocks
  {
    assert (blocks + more)[..|blocks|] == blocks;
  }
}
