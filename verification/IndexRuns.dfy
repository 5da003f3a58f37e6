/**
 The blind index kept through commits and reverts: what it holds after any run,
 and exactly when that is what the remaining chain says.
 */
module IndexRuns {
  import opened Json
  import opened Blocks
  import opened ContentHashes
  import opened Chain
  import opened SyncDay
  import opened IndexManagers
  import opened Repair

  // ----- What an entry does to the index ------------------------------------

  datatype Change = Change(date: Text, title: Text, amount: int)

  /** The title an entry is indexed under: its own, none if it is only there encrypted, else "". */
  function IndexableTitle(d: Data): Option<Text> {
    var title := Get(d, Title);
    if Truthy(title) then if title.Str? then Some(title.s) else None
    else if Enc(Title) in d then None
    else Some("")
  }

  function AmountOf(d: Data): int {
    if Get(d, Duration).Int? then d[Duration].n else 0
  }

  /** An encrypted title takes the place of the plain one; one that does not decrypt stays as it is. */
  function TitleRestored(p: Primitives, key: Bytes, d: Data): Data {
    var title := if Truthy(Get(d, Enc(Title))) then DecryptValue(p, key, d[Enc(Title)]) else None;
    if title.Some? then d[Title := Str(title.value)] - {Enc(Title)} else d
  }

  function DurationRestored(p: Primitives, key: Bytes, d: Data): Data {
    var text := if Truthy(Get(d, Enc(Duration))) then DecryptValue(p, key, d[Enc(Duration)]) else None;
    var n := if text.None? then None else if text.value == "" then Some(0) else p.parseInt(text.value);
    if n.Some? then d[Duration := Int(n.value)] - {Enc(Duration)} else d
  }

  function Restored(p: Primitives, key: Bytes, d: Data): Data {
    DurationRestored(p, key, TitleRestored(p, key, d))
  }

  /** The three readings of an entry: commit and rebuild put it in as it is stored;
      revert takes out what it restores; and what revert takes out that was never in. */
  datatype Mode = In | Out | Concealed

  function EntryChange(p: Primitives, key: Bytes, date: Text, d: Data, mode: Mode): seq<Change> {
    var seen := if mode == In then d else Restored(p, key, d);
    var title := if mode == Concealed && IndexableTitle(d).Some? then None else IndexableTitle(seen);
    if title.None? then [] else [Change(date, title.value, if mode == Out then -AmountOf(seen) else AmountOf(seen))]
  }

  function EntryChanges(p: Primitives, key: Bytes, date: Text, es: seq<Entry>, mode: Mode): seq<Change> {
    if es == [] then []
    else EntryChanges(p, key, date, es[..|es| - 1], mode) + EntryChange(p, key, date, es[|es| - 1].data, mode)
  }

  function BlockChanges(p: Primitives, key: Bytes, b: Block, mode: Mode): seq<Change> {
    if IsDay(b) && Get(b.fields, Date).Str? then EntryChanges(p, key, Get(b.fields, Date).s, EntriesOf(b), mode) else []
  }

  function Changes(p: Primitives, key: Bytes, bs: seq<Block>, mode: Mode): seq<Change> {
    if bs == [] then []
    else Changes(p, key, bs[..|bs| - 1], mode) + BlockChanges(p, key, bs[|bs| - 1], mode)
  }

  function Applied(index: Index, cs: seq<Change>): Index {
    if cs == [] then index
    else
      var c := cs[|cs| - 1];
      Updated(Applied(index, cs[..|cs| - 1]), c.date, c.title, c.amount)
  }

  lemma {:induction false} AppliedInTurn(index: Index, a: seq<Change>, b: seq<Change>)
    ensures Applied(index, a + b) == Applied(Applied(index, a), b)
  {
    hide Updated;
    if b == [] {
      assert a + b == a;
    } else {
      assert (a + b)[..|a + b| - 1] == a + b[..|b| - 1];
      AppliedInTurn(index, a, b[..|b| - 1]);
    }
  }

  lemma {:induction false} AppliedIsNormal(index: Index, cs: seq<Change>)
    requires Normal(index)
    ensures Normal(Applied(index, cs))
  {
    hide Normal, Updated;
    if cs != [] {
      var c := cs[|cs| - 1];
      AppliedIsNormal(index, cs[..|cs| - 1]);
      UpdatedIsNormal(Applied(index, cs[..|cs| - 1]), c.date, c.title, c.amount);
    }
  }

  /** The loop over blocks of commit and rebuild, and the one of revert. */
  method PostBlocks(manager: IndexManager, p: Primitives, key: Bytes, bs: seq<Block>, mode: Mode)
    requires mode != Concealed
    requires Apart(manager.cache)
    modifies manager, manager.cache.Values
    ensures Apart(manager.cache)
    ensures forall d :: d in manager.cache ==>
              fresh(manager.cache[d]) || (d in old(manager.cache) && manager.cache[d] == old(manager.cache)[d])
    ensures Contents(manager.cache) == Applied(old(Contents(manager.cache)), Changes(p, key, bs, mode))
  {
    hide Contents, BlockChanges, Apart;
    ghost var index := Contents(manager.cache);
    for i := 0 to |bs|
      invariant Apart(manager.cache)
      invariant forall d :: d in manager.cache ==>
                  fresh(manager.cache[d]) || (d in old(manager.cache) && manager.cache[d] == old(manager.cache)[d])
      invariant Contents(manager.cache) == Applied(index, Changes(p, key, bs[..i], mode))
    {
      assert bs[..i + 1][..i] == bs[..i];
      AppliedInTurn(index, Changes(p, key, bs[..i], mode), BlockChanges(p, key, bs[i], mode));
      PostBlock(manager, p, key, bs[i], mode);
    }
    assert bs[..|bs|] == bs;
  }

  method PostBlock(manager: IndexManager, p: Primitives, key: Bytes, b: Block, mode: Mode)
    requires mode != Concealed
    requires Apart(manager.cache)
    modifies manager, manager.cache.Values
    ensures Apart(manager.cache)
    ensures forall d :: d in manager.cache ==>
              fresh(manager.cache[d]) || (d in old(manager.cache) && manager.cache[d] == old(manager.cache)[d])
    ensures Contents(manager.cache) == Applied(old(Contents(manager.cache)), BlockChanges(p, key, b, mode))
  {
    hide Contents, Updated, Apart, EntryChange, EntryChanges, Applied;
    if !IsDay(b) || !Get(b.fields, Date).Str? {
      NothingChanges(Contents(manager.cache));
      return;
    }
    var date, es := Get(b.fields, Date).s, EntriesOf(b);
    ghost var index := Contents(manager.cache);
    NoEntries(p, key, index, date, es, mode);
    for i := 0 to |es|
      invariant Apart(manager.cache)
      invariant forall d :: d in manager.cache ==>
                  fresh(manager.cache[d]) || (d in old(manager.cache) && manager.cache[d] == old(manager.cache)[d])
      invariant Contents(manager.cache) == Applied(index, EntryChanges(p, key, date, es[..i], mode))
    {
      NextEntry(p, key, date, es, i, mode);
      AppliedInTurn(index, EntryChanges(p, key, date, es[..i], mode), EntryChange(p, key, date, es[i].data, mode));
      PostEntry(manager, p, key, date, es[i].data, mode);
    }
    assert es[..|es|] == es;
  }

  lemma NoEntries(p: Primitives, key: Bytes, index: Index, date: Text, es: seq<Entry>, mode: Mode)
    ensures Applied(index, EntryChanges(p, key, date, es[..0], mode)) == index && Applied(index, []) == index
  {
  }

  lemma NextEntry(p: Primitives, key: Bytes, date: Text, es: seq<Entry>, i: nat, mode: Mode)
    requires i < |es|
    ensures EntryChanges(p, key, date, es[..i + 1], mode)
         == EntryChanges(p, key, date, es[..i], mode) + EntryChange(p, key, date, es[i].data, mode)
  {
    hide EntryChange;
    assert es[..i + 1][..i] == es[..i];
  }

  method PostEntry(manager: IndexManager, p: Primitives, key: Bytes, date: Text, d: Data, mode: Mode)
    requires mode != Concealed
    requires Apart(manager.cache)
    modifies manager, manager.cache.Values
    ensures Apart(manager.cache)
    ensures forall e :: e in manager.cache ==>
              fresh(manager.cache[e]) || (e in old(manager.cache) && manager.cache[e] == old(manager.cache)[e])
    ensures Contents(manager.cache) == Applied(old(Contents(manager.cache)), EntryChange(p, key, date, d, mode))
  {
    hide Contents, Updated, Apart, Restored, IndexableTitle, AmountOf;
    var seen := if mode == In then d else Restored(p, key, d);
    var title := IndexableTitle(seen);
    if title.Some? {
      var amount := if mode == Out then -AmountOf(seen) else AmountOf(seen);
      OneApplied(Contents(manager.cache), Change(date, title.value, amount));
      manager.Update(date, title.value, amount);
    }
  }

  lemma OneApplied(index: Index, c: Change)
    ensures Applied(index, [c]) == Updated(index, c.date, c.title, c.amount)
  {
    assert [c][..0] == [];
  }

  /** `rebuild_index`: the index is cleared and the whole chain posted. */
  method RebuildIndex(manager: IndexManager, p: Primitives, key: Bytes, chain: seq<Block>)
    modifies manager
    ensures Apart(manager.cache)
    ensures Contents(manager.cache) == Applied(map[], Changes(p, key, chain, In))
  {
    manager.Clear();
    PostBlocks(manager, p, key, chain, In);
  }

  // ----- The floored walk ---------------------------------------------------

  /** The amounts that go to one date and title, in order. */
  function Deltas(cs: seq<Change>, d: Text, t: Text): seq<int> {
    if cs == [] then []
    else
      var before, c := Deltas(cs[..|cs| - 1], d, t), cs[|cs| - 1];
      if c.date == d && c.title == t then before + [c.amount] else before
  }

  function Sum(ds: seq<int>): int {
    if ds == [] then 0 else Sum(ds[..|ds| - 1]) + ds[|ds| - 1]
  }

  /** The least that any beginning adds up to, at most 0. */
  function Low(ds: seq<int>): int {
    if ds == [] then 0 else Min(Low(ds[..|ds| - 1]), Sum(ds))
  }

  function Min(a: int, b: int): int {
    if a < b then a else b
  }

  lemma {:induction false} DeltasAppend(a: seq<Change>, b: seq<Change>, d: Text, t: Text)
    ensures Deltas(a + b, d, t) == Deltas(a, d, t) + Deltas(b, d, t)
  {
    if b == [] {
      assert a + b == a;
    } else {
      assert (a + b)[..|a + b| - 1] == a + b[..|b| - 1];
      DeltasAppend(a, b[..|b| - 1], d, t);
    }
  }

  lemma {:induction false} SumAppend(a: seq<int>, b: seq<int>)
    ensures Sum(a + b) == Sum(a) + Sum(b)
  {
    if b == [] {
      assert a + b == a;
    } else {
      assert (a + b)[..|a + b| - 1] == a + b[..|b| - 1];
      SumAppend(a, b[..|b| - 1]);
    }
  }

  lemma LowStep(ds: seq<int>, x: int)
    ensures Sum(ds + [x]) == Sum(ds) + x && Low(ds + [x]) == Min(Low(ds), Sum(ds) + x)
  {
    assert (ds + [x])[..|ds|] == ds;
  }

  lemma {:induction false} LowIsLow(ds: seq<int>)
    ensures Low(ds) <= 0 && Low(ds) <= Sum(ds)
  {
    if ds != [] {
      LowIsLow(ds[..|ds| - 1]);
    }
  }

  /** Held at zero from below at every step, a total ends above its sum by what the least prefix lacked. */
  function Walked(start: int, ds: seq<int>): int {
    start + Sum(ds) - Min(0, start + Low(ds))
  }

  lemma WalkStep(start: int, ds: seq<int>, x: int)
    requires start >= 0
    ensures Walked(start, ds + [x]) == Max(0, Walked(start, ds) + x) && Walked(start, []) == start
  {
    LowStep(ds, x);
    LowIsLow(ds);
  }

  lemma {:induction false} WalkIs(index: Index, cs: seq<Change>, d: Text, t: Text)
    requires At(index, d, t) >= 0
    ensures At(Applied(index, cs), d, t) == Walked(At(index, d, t), Deltas(cs, d, t))
  {
    hide At, Updated, Walked;
    if cs == [] {
      WalkStep(At(index, d, t), [], 0);
    } else {
      var init, c := cs[..|cs| - 1], cs[|cs| - 1];
      WalkIs(index, init, d, t);
      UpdatedAt(Applied(index, init), c.date, c.title, c.amount, d, t);
      WalkStep(At(index, d, t), Deltas(init, d, t), c.amount);
    }
  }

  // ----- Totals -------------------------------------------------------------

  /** What the entries of the blocks come to, for one date and title, in one reading. */
  function Total(p: Primitives, key: Bytes, bs: seq<Block>, mode: Mode, d: Text, t: Text): int {
    Sum(Deltas(Changes(p, key, bs, mode), d, t))
  }

  lemma {:induction false} ChangesAppend(p: Primitives, key: Bytes, a: seq<Block>, b: seq<Block>, mode: Mode)
    ensures Changes(p, key, a + b, mode) == Changes(p, key, a, mode) + Changes(p, key, b, mode)
  {
    hide BlockChanges;
    if b == [] {
      assert a + b == a;
    } else {
      assert (a + b)[..|a + b| - 1] == a + b[..|b| - 1];
      ChangesAppend(p, key, a, b[..|b| - 1], mode);
    }
  }

  lemma TotalAppend(p: Primitives, key: Bytes, a: seq<Block>, b: seq<Block>, mode: Mode, d: Text, t: Text)
    ensures Total(p, key, a + b, mode, d, t) == Total(p, key, a, mode, d, t) + Total(p, key, b, mode, d, t)
  {
    hide Changes, Deltas, Sum;
    ChangesAppend(p, key, a, b, mode);
    DeltasAppend(Changes(p, key, a, mode), Changes(p, key, b, mode), d, t);
    SumAppend(Deltas(Changes(p, key, a, mode), d, t), Deltas(Changes(p, key, b, mode), d, t));
  }

  /** How commit leaves an entry: with an encrypted title, nothing of title and duration in
      the clear; without one, no encrypted duration. */
  predicate AsCommitted(d: Data) {
    if Enc(Title) in d then Title !in d && Duration !in d else Enc(Duration) !in d
  }

  predicate AllAsCommitted(bs: seq<Block>) {
    forall b, e :: b in bs && IsDay(b) && e in EntriesOf(b) ==> AsCommitted(e.data)
  }

  /** No duration of the blocks is negative, read as stored or restored. */
  predicate NonNegative(p: Primitives, key: Bytes, bs: seq<Block>) {
    forall b, e :: b in bs && IsDay(b) && e in EntriesOf(b) ==>
                     AmountOf(e.data) >= 0 && AmountOf(Restored(p, key, e.data)) >= 0
  }

  lemma PlainReadings(p: Primitives, key: Bytes, date: Text, e: Data)
    requires Enc(Title) !in e && Enc(Duration) !in e
    ensures Opposite(EntryChange(p, key, date, e, Out), EntryChange(p, key, date, e, In))
    ensures EntryChange(p, key, date, e, Concealed) == []
  {
    assert Restored(p, key, e) == e;
    hide Restored, IndexableTitle, AmountOf;
  }

  lemma EncryptedReadings(p: Primitives, key: Bytes, date: Text, e: Data)
    requires Enc(Title) in e && Title !in e
    ensures EntryChange(p, key, date, e, In) == []
    ensures Opposite(EntryChange(p, key, date, e, Out), EntryChange(p, key, date, e, Concealed))
  {
    assert IndexableTitle(e).None?;
    hide Restored, IndexableTitle, AmountOf;
  }

  /** At most one change, taken back. */
  predicate Opposite(out: seq<Change>, into: seq<Change>) {
    |out| == |into| <= 1 && (out != [] ==> out[0] == Change(into[0].date, into[0].title, -into[0].amount))
  }

  lemma EntrySplits(p: Primitives, key: Bytes, date: Text, e: Data, d: Text, t: Text)
    requires AsCommitted(e)
    ensures Sum(Deltas(EntryChange(p, key, date, e, Out), d, t))
         == -Sum(Deltas(EntryChange(p, key, date, e, In), d, t)) - Sum(Deltas(EntryChange(p, key, date, e, Concealed), d, t))
  {
    hide Deltas, Sum, EntryChange;
    if Enc(Title) !in e {
      PlainReadings(p, key, date, e);
    } else {
      EncryptedReadings(p, key, date, e);
    }
    OneDelta(EntryChange(p, key, date, e, Out), d, t);
    OneDelta(EntryChange(p, key, date, e, In), d, t);
    OneDelta(EntryChange(p, key, date, e, Concealed), d, t);
  }

  lemma OneDelta(cs: seq<Change>, d: Text, t: Text)
    requires |cs| <= 1
    ensures Sum(Deltas(cs, d, t)) == if cs != [] && cs[0].date == d && cs[0].title == t then cs[0].amount else 0
  {
    if cs != [] {
      assert cs[..0] == [];
      assert [cs[0].amount][..0] == [];
    }
  }

  lemma {:induction false} EntriesSplit(p: Primitives, key: Bytes, date: Text, es: seq<Entry>, d: Text, t: Text)
    requires forall e :: e in es ==> AsCommitted(e.data)
    ensures Sum(Deltas(EntryChanges(p, key, date, es, Out), d, t))
         == -Sum(Deltas(EntryChanges(p, key, date, es, In), d, t))
            - Sum(Deltas(EntryChanges(p, key, date, es, Concealed), d, t))
  {
    if es != [] {
      var init, e := es[..|es| - 1], es[|es| - 1];
      assert e in es;
      EntriesSplit(p, key, date, init, d, t);
      EntrySplits(p, key, date, e.data, d, t);
      hide AsCommitted, EntryChange, Deltas, Sum;
      EntriesTotalStep(p, key, date, es, In, d, t);
      EntriesTotalStep(p, key, date, es, Out, d, t);
      EntriesTotalStep(p, key, date, es, Concealed, d, t);
    }
  }

  lemma EntriesTotalStep(p: Primitives, key: Bytes, date: Text, es: seq<Entry>, mode: Mode, d: Text, t: Text)
    requires es != []
    ensures Sum(Deltas(EntryChanges(p, key, date, es, mode), d, t))
         == Sum(Deltas(EntryChanges(p, key, date, es[..|es| - 1], mode), d, t))
            + Sum(Deltas(EntryChange(p, key, date, es[|es| - 1].data, mode), d, t))
  {
    hide EntryChange, Deltas, Sum;
    var a, b := EntryChanges(p, key, date, es[..|es| - 1], mode), EntryChange(p, key, date, es[|es| - 1].data, mode);
    DeltasAppend(a, b, d, t);
    SumAppend(Deltas(a, d, t), Deltas(b, d, t));
  }

  /** What revert takes out is what commit put in and what was concealed. */
  lemma {:induction false} OutIsInAndConcealed(p: Primitives, key: Bytes, bs: seq<Block>, d: Text, t: Text)
    requires AllAsCommitted(bs)
    ensures Total(p, key, bs, Out, d, t) == -Total(p, key, bs, In, d, t) - Total(p, key, bs, Concealed, d, t)
  {
    if bs != [] {
      var init, b := bs[..|bs| - 1], bs[|bs| - 1];
      assert bs == init + [b];
      OutIsInAndConcealed(p, key, init, d, t);
      BlockSplits(p, key, b, d, t);
      hide Total, AsCommitted;
      TotalAppend(p, key, init, [b], In, d, t);
      TotalAppend(p, key, init, [b], Out, d, t);
      TotalAppend(p, key, init, [b], Concealed, d, t);
    }
  }

  lemma OneBlock(p: Primitives, key: Bytes, b: Block, mode: Mode)
    ensures Changes(p, key, [b], mode) == BlockChanges(p, key, b, mode)
  {
    assert [b][..0] == [];
  }

  lemma BlockSplits(p: Primitives, key: Bytes, b: Block, d: Text, t: Text)
    requires IsDay(b) ==> forall e :: e in EntriesOf(b) ==> AsCommitted(e.data)
    ensures Total(p, key, [b], Out, d, t) == -Total(p, key, [b], In, d, t) - Total(p, key, [b], Concealed, d, t)
  {
    OneBlock(p, key, b, In);
    OneBlock(p, key, b, Out);
    OneBlock(p, key, b, Concealed);
    hide AsCommitted, EntryChanges;
    if IsDay(b) && Get(b.fields, Date).Str? {
      hide Deltas, Sum;
      EntriesSplit(p, key, Get(b.fields, Date).s, EntriesOf(b), d, t);
    }
  }

  predicate AllAtLeast(cs: seq<Change>) {
    forall c :: c in cs ==> c.amount >= 0
  }

  predicate AllAtMost(cs: seq<Change>) {
    forall c :: c in cs ==> c.amount <= 0
  }

  lemma {:induction false} SignsOfEntries(p: Primitives, key: Bytes, date: Text, es: seq<Entry>)
    requires forall e :: e in es ==> AmountOf(e.data) >= 0 && AmountOf(Restored(p, key, e.data)) >= 0
    ensures AllAtLeast(EntryChanges(p, key, date, es, In)) && AllAtMost(EntryChanges(p, key, date, es, Out))
    ensures AllAtLeast(EntryChanges(p, key, date, es, Concealed))
  {
    hide AmountOf, Restored, IndexableTitle;
    if es != [] {
      assert es[|es| - 1] in es;
      SignsOfEntries(p, key, date, es[..|es| - 1]);
    }
  }

  lemma {:induction false} SignsOfChanges(p: Primitives, key: Bytes, bs: seq<Block>)
    requires NonNegative(p, key, bs)
    ensures AllAtLeast(Changes(p, key, bs, In)) && AllAtMost(Changes(p, key, bs, Out))
    ensures AllAtLeast(Changes(p, key, bs, Concealed))
  {
    hide AmountOf, Restored, EntryChanges;
    if bs != [] {
      var b := bs[|bs| - 1];
      assert b in bs;
      SignsOfChanges(p, key, bs[..|bs| - 1]);
      if IsDay(b) && Get(b.fields, Date).Str? {
        SignsOfEntries(p, key, Get(b.fields, Date).s, EntriesOf(b));
      }
    }
  }

  lemma {:induction false} RisingWalk(cs: seq<Change>, d: Text, t: Text)
    requires AllAtLeast(cs)
    ensures var ds := Deltas(cs, d, t); Low(ds) == 0 <= Sum(ds)
  {
    if cs != [] {
      var init, c := cs[..|cs| - 1], cs[|cs| - 1];
      assert c in cs;
      RisingWalk(init, d, t);
      LowStep(Deltas(init, d, t), c.amount);
    }
  }

  lemma {:induction false} FallingWalk(cs: seq<Change>, d: Text, t: Text)
    requires AllAtMost(cs)
    ensures var ds := Deltas(cs, d, t); Low(ds) == Sum(ds) <= 0
  {
    if cs != [] {
      var init, c := cs[..|cs| - 1], cs[|cs| - 1];
      assert c in cs;
      FallingWalk(init, d, t);
      LowStep(Deltas(init, d, t), c.amount);
      LowIsLow(Deltas(init, d, t));
    }
  }

  // ----- Runs ---------------------------------------------------------------

  /** What one chain operation does to the index: what it appends goes in, what it cuts comes out. */
  function OpChanges(p: Primitives, key: Bytes, chain: seq<Block>, op: ChainOp): seq<Change> {
    match op
    case Append(more) => if Apply(chain, op) == chain + more then Changes(p, key, more, In) else []
    case Cut(count) => Changes(p, key, chain[|chain| - RemovedCount(|chain|, count)..], Out)
  }

  /** The changes of a whole run, in order. */
  function RunChanges(p: Primitives, key: Bytes, genesis: Block, ops: seq<ChainOp>): seq<Change> {
    if ops == [] then []
    else
      var init := ops[..|ops| - 1];
      RunChanges(p, key, genesis, init) + OpChanges(p, key, Run([genesis], init), ops[|ops| - 1])
  }

  /** The index kept alongside a run, from an empty one. */
  function IndexRun(p: Primitives, key: Bytes, genesis: Block, ops: seq<ChainOp>): Index {
    if ops == [] then map[]
    else
      var init := ops[..|ops| - 1];
      Applied(IndexRun(p, key, genesis, init), OpChanges(p, key, Run([genesis], init), ops[|ops| - 1]))
  }

  /** Where the day blocks are, a block without a type among them. */
  function DayIndices(chain: seq<Block>): (r: seq<nat>)
    ensures forall i :: i in r ==> i < |chain| && IsDay(chain[i])
  {
    if chain == [] then []
    else
      var n := |chain| - 1;
      if IsDay(chain[n]) then DayIndices(chain[..n]) + [n] else DayIndices(chain[..n])
  }

  /** `revert(count)` keeps what comes before the last `count` day blocks: it is one cut. */
  lemma RevertIsCut(chain: seq<Block>, count: int)
    requires chain != [] && !IsDay(chain[0]) && 1 <= count <= |DayIndices(chain)|
    ensures var start := DayIndices(chain)[|DayIndices(chain)| - count];
            1 <= start < |chain| && Apply(chain, Cut(|chain| - start)) == chain[..start]
  {
    var days := DayIndices(chain);
    assert days[|days| - count] in days;
  }

  /** The day blocks are all there, in ascending order. */
  lemma {:induction false} DayIndicesAre(chain: seq<Block>)
    ensures forall i: nat :: i in DayIndices(chain) <==>
              i < |chain| && (Type in chain[i].fields ==> chain[i].fields[Type] == Str("day"))
    ensures forall j, k :: 0 <= j < k < |DayIndices(chain)| ==> DayIndices(chain)[j] < DayIndices(chain)[k]
  {
    if chain != [] {
      var n := |chain| - 1;
      DayIndicesAre(chain[..n]);
      var before := DayIndices(chain[..n]);
      forall j | 0 <= j < |before| ensures before[j] < n {
        assert before[j] in before;
      }
      assert chain == chain[..n] + [chain[n]];
    }
  }

  /** How many entries the day blocks hold. */
  function EntriesHeld(bs: seq<Block>): nat {
    if bs == [] then 0
    else
      var b := bs[|bs| - 1];
      EntriesHeld(bs[..|bs| - 1]) + if IsDay(b) then |EntriesOf(b)| else 0
  }

  /** `revert`: how many entries were restored, -1 if there are fewer days, and the blocks kept. */
  method Revert(manager: IndexManager, p: Primitives, key: Bytes, chain: seq<Block>, count: int)
    returns (restored: int, kept: seq<Block>)
    requires Apart(manager.cache)
    modifies manager, manager.cache.Values
    ensures Apart(manager.cache)
    ensures var days := DayIndices(chain);
            if 1 <= count <= |days| then
              var start := days[|days| - count];
              && start < |chain| && kept == chain[..start] && restored == EntriesHeld(chain[start..])
              && Contents(manager.cache) == Applied(old(Contents(manager.cache)), Changes(p, key, chain[start..], Out))
            else
              && kept == chain && restored == (if chain != [] && count > |days| then -1 else 0)
              && Contents(manager.cache) == old(Contents(manager.cache))
  {
    hide Contents, Changes, Apart, Applied, EntriesHeld;
    var days := DayIndices(chain);
    if chain == [] {
      return 0, chain;
    }
    if count > |days| {
      return -1, chain;
    }
    if count <= 0 {
      return 0, chain;
    }
    var start := days[|days| - count];
    assert start in days;
    PostBlocks(manager, p, key, chain[start..], Out);
    restored := CountEntries(chain[start..]);
    kept := chain[..start];
  }

  method CountEntries(bs: seq<Block>) returns (n: nat)
    ensures n == EntriesHeld(bs)
  {
    n := 0;
    for i := 0 to |bs|
      invariant n == EntriesHeld(bs[..i])
    {
      assert bs[..i + 1][..i] == bs[..i];
      if IsDay(bs[i]) {
        n := n + |EntriesOf(bs[i])|;
      }
    }
    assert bs[..|bs|] == bs;
  }

  /** How much more than was put in the cuts of a run have taken out. */
  function Drift(p: Primitives, key: Bytes, genesis: Block, ops: seq<ChainOp>, d: Text, t: Text): int {
    if ops == [] then 0
    else
      var init, op := ops[..|ops| - 1], ops[|ops| - 1];
      Drift(p, key, genesis, init, d, t) + OpDrift(p, key, Run([genesis], init), op, d, t)
  }

  function OpDrift(p: Primitives, key: Bytes, chain: seq<Block>, op: ChainOp, d: Text, t: Text): int {
    if op.Append? then 0
    else
      var cut := chain[|chain| - RemovedCount(|chain|, op.count)..];
      -Total(p, key, cut, Out, d, t) - Total(p, key, cut, In, d, t)
  }

  /** The index is in normal form and tells the positive part of every total over the chain. */
  ghost predicate Tells(p: Primitives, key: Bytes, index: Index, chain: seq<Block>) {
    Normal(index) && forall d, t :: At(index, d, t) == Max(0, Total(p, key, chain, In, d, t))
  }

  lemma {:induction false} RunIsApplied(p: Primitives, key: Bytes, genesis: Block, ops: seq<ChainOp>)
    ensures IndexRun(p, key, genesis, ops) == Applied(map[], RunChanges(p, key, genesis, ops))
  {
    hide OpChanges, Run;
    if ops != [] {
      var init := ops[..|ops| - 1];
      RunIsApplied(p, key, genesis, init);
      AppliedInTurn(map[], RunChanges(p, key, genesis, init), OpChanges(p, key, Run([genesis], init), ops[|ops| - 1]));
    }
  }

  lemma OpTotals(p: Primitives, key: Bytes, chain: seq<Block>, op: ChainOp, d: Text, t: Text)
    ensures Sum(Deltas(OpChanges(p, key, chain, op), d, t))
         == Total(p, key, Apply(chain, op), In, d, t) - Total(p, key, chain, In, d, t) - OpDrift(p, key, chain, op, d, t)
  {
    hide Changes, Sum;
    if op.Append? {
      TotalAppend(p, key, chain, op.more, In, d, t);
      NoSum();
    } else {
      var keep := |chain| - RemovedCount(|chain|, op.count);
      assert chain == chain[..keep] + chain[keep..];
      TotalAppend(p, key, chain[..keep], chain[keep..], In, d, t);
    }
  }

  lemma NoSum()
    ensures Sum([]) == 0
  {
  }

  /** Over a run the changes come to the total over the chain, less the drift. */
  lemma {:induction false} RunTotals(p: Primitives, key: Bytes, genesis: Block, ops: seq<ChainOp>, d: Text, t: Text)
    requires !IsDay(genesis)
    ensures Sum(Deltas(RunChanges(p, key, genesis, ops), d, t))
         == Total(p, key, Run([genesis], ops), In, d, t) - Drift(p, key, genesis, ops, d, t)
  {
    if ops == [] {
      OneBlock(p, key, genesis, In);
    } else {
      var init, op := ops[..|ops| - 1], ops[|ops| - 1];
      var chain := Run([genesis], init);
      RunTotals(p, key, genesis, init, d, t);
      OpTotals(p, key, chain, op, d, t);
      var a, b := RunChanges(p, key, genesis, init), OpChanges(p, key, chain, op);
      hide OpChanges, OpDrift, Apply, Total, Sum, Deltas;
      DeltasAppend(a, b, d, t);
      SumAppend(Deltas(a, d, t), Deltas(b, d, t));
    }
  }

  /** After every run: normal form, and each total is the sum of its changes less their least prefix sum. */
  lemma IndexAfterRun(p: Primitives, key: Bytes, genesis: Block, ops: seq<ChainOp>)
    ensures Normal(IndexRun(p, key, genesis, ops))
    ensures forall d, t :: var ds := Deltas(RunChanges(p, key, genesis, ops), d, t);
                           At(IndexRun(p, key, genesis, ops), d, t) == Sum(ds) - Low(ds)
  {
    hide RunChanges, IndexRun, Applied, Sum, Low, Deltas;
    RunIsApplied(p, key, genesis, ops);
    AppliedIsNormal(map[], RunChanges(p, key, genesis, ops));
    forall d, t ensures var ds := Deltas(RunChanges(p, key, genesis, ops), d, t);
                        At(IndexRun(p, key, genesis, ops), d, t) == Sum(ds) - Low(ds)
    {
      WalkIs(map[], RunChanges(p, key, genesis, ops), d, t);
      LowIsLow(Deltas(RunChanges(p, key, genesis, ops), d, t));
    }
  }

  /**
   When the index tells the chain. After any run of appended and cut blocks whatever
   their durations, it does exactly when for every date and title the sum of the
   changes less their least prefix sum is the positive part of that sum plus the drift.
   */
  lemma IndexTellsIff(p: Primitives, key: Bytes, genesis: Block, ops: seq<ChainOp>)
    requires !IsDay(genesis)
    ensures Tells(p, key, IndexRun(p, key, genesis, ops), Run([genesis], ops))
       <==> AllWalksTell(p, key, genesis, ops)
  {
    hide RunChanges, IndexRun, Run, Drift, Total, Deltas, Normal, At;
    IndexAfterRun(p, key, genesis, ops);
    forall d, t
      ensures At(IndexRun(p, key, genesis, ops), d, t) == Max(0, Total(p, key, Run([genesis], ops), In, d, t))
         <==> WalkTells(Deltas(RunChanges(p, key, genesis, ops), d, t), Drift(p, key, genesis, ops, d, t))
    {
      RunTotals(p, key, genesis, ops, d, t);
    }
    if AllWalksTell(p, key, genesis, ops) {
      forall d, t
        ensures At(IndexRun(p, key, genesis, ops), d, t) == Max(0, Total(p, key, Run([genesis], ops), In, d, t))
      {
        assert WalkTells(Deltas(RunChanges(p, key, genesis, ops), d, t), Drift(p, key, genesis, ops, d, t));
      }
    }
  }

  ghost predicate AllWalksTell(p: Primitives, key: Bytes, genesis: Block, ops: seq<ChainOp>) {
    forall d, t :: WalkTells(Deltas(RunChanges(p, key, genesis, ops), d, t), Drift(p, key, genesis, ops, d, t))
  }

  predicate WalkTells(ds: seq<int>, drift: int) {
    Sum(ds) - Low(ds) == Max(0, Sum(ds) + drift)
  }

  /** Without drift the condition is that no prefix sum is below both zero and the whole sum. */
  lemma WalkTellsIff(ds: seq<int>)
    ensures WalkTells(ds, 0) <==> Low(ds) == Min(0, Sum(ds))
  {
    LowIsLow(ds);
  }

  // ----- Non-negative durations ---------------------------------------------

  lemma TotalsAreNonNegative(p: Primitives, key: Bytes, bs: seq<Block>, d: Text, t: Text)
    requires NonNegative(p, key, bs)
    ensures Total(p, key, bs, In, d, t) >= 0 && Total(p, key, bs, Concealed, d, t) >= 0
  {
    SignsOfChanges(p, key, bs);
    RisingWalk(Changes(p, key, bs, In), d, t);
    RisingWalk(Changes(p, key, bs, Concealed), d, t);
  }

  lemma AppendTells(p: Primitives, key: Bytes, index: Index, chain: seq<Block>, more: seq<Block>)
    requires NonNegative(p, key, chain) && NonNegative(p, key, more) && Tells(p, key, index, chain)
    ensures Tells(p, key, Applied(index, Changes(p, key, more, In)), chain + more)
  {
    AppliedIsNormal(index, Changes(p, key, more, In));
    SignsOfChanges(p, key, more);
    hide Normal, At, NonNegative, Changes, Deltas;
    forall d, t
      ensures At(Applied(index, Changes(p, key, more, In)), d, t) == Max(0, Total(p, key, chain + more, In, d, t))
    {
      TotalsAreNonNegative(p, key, chain, d, t);
      TotalAppend(p, key, chain, more, In, d, t);
      RisingWalk(Changes(p, key, more, In), d, t);
      WalkIs(index, Changes(p, key, more, In), d, t);
    }
  }

  lemma CutTotal(p: Primitives, key: Bytes, index: Index, kept: seq<Block>, cut: seq<Block>, d: Text, t: Text)
    requires NonNegative(p, key, kept) && NonNegative(p, key, cut) && AllAsCommitted(cut)
    requires Tells(p, key, index, kept + cut)
    ensures At(Applied(index, Changes(p, key, cut, Out)), d, t)
         == Max(0, Total(p, key, kept, In, d, t) - Total(p, key, cut, Concealed, d, t))
  {
    TotalsAreNonNegative(p, key, kept, d, t);
    TotalsAreNonNegative(p, key, cut, d, t);
    TotalAppend(p, key, kept, cut, In, d, t);
    OutIsInAndConcealed(p, key, cut, d, t);
    SignsOfChanges(p, key, cut);
    FallingWalk(Changes(p, key, cut, Out), d, t);
    hide Normal, At, NonNegative, Changes, Deltas, AllAsCommitted;
    WalkIs(index, Changes(p, key, cut, Out), d, t);
  }

  /**
   A revert of committed blocks with non-negative durations leaves the index telling
   the blocks kept exactly when, for every date and title, these come to nothing or
   nothing under that title was concealed in the blocks cut.
   */
  lemma CutTellsIff(p: Primitives, key: Bytes, index: Index, kept: seq<Block>, cut: seq<Block>)
    requires NonNegative(p, key, kept) && NonNegative(p, key, cut) && AllAsCommitted(cut)
    requires Tells(p, key, index, kept + cut)
    ensures Tells(p, key, Applied(index, Changes(p, key, cut, Out)), kept) <==> NoneTakenTwice(p, key, kept, cut)
  {
    AppliedIsNormal(index, Changes(p, key, cut, Out));
    hide Normal, At, NonNegative, Changes, Total, Applied, AllAsCommitted;
    forall d, t
      ensures At(Applied(index, Changes(p, key, cut, Out)), d, t) == Max(0, Total(p, key, kept, In, d, t))
         <==> Total(p, key, kept, In, d, t) == 0 || Total(p, key, cut, Concealed, d, t) == 0
    {
      CutTotal(p, key, index, kept, cut, d, t);
      TotalsAreNonNegative(p, key, kept, d, t);
      TotalsAreNonNegative(p, key, cut, d, t);
    }
  }

  ghost predicate NoneTakenTwice(p: Primitives, key: Bytes, kept: seq<Block>, cut: seq<Block>) {
    forall d, t :: Total(p, key, kept, In, d, t) == 0 || Total(p, key, cut, Concealed, d, t) == 0
  }

  /** Nothing of title and duration is encrypted. */
  predicate Plain(bs: seq<Block>) {
    forall b, e :: b in bs && IsDay(b) && e in EntriesOf(b) ==> Enc(Title) !in e.data && Enc(Duration) !in e.data
  }

  lemma {:induction false} PlainConcealsNothing(p: Primitives, key: Bytes, bs: seq<Block>)
    requires Plain(bs)
    ensures Changes(p, key, bs, Concealed) == [] && AllAsCommitted(bs)
  {
    if bs != [] {
      var b := bs[|bs| - 1];
      assert b in bs;
      PlainConcealsNothing(p, key, bs[..|bs| - 1]);
      hide EntryChanges;
      if IsDay(b) && Get(b.fields, Date).Str? {
        PlainEntries(p, key, Get(b.fields, Date).s, EntriesOf(b));
      }
    }
  }

  lemma {:induction false} PlainEntries(p: Primitives, key: Bytes, date: Text, es: seq<Entry>)
    requires forall e :: e in es ==> Enc(Title) !in e.data && Enc(Duration) !in e.data
    ensures EntryChanges(p, key, date, es, Concealed) == []
  {
    if es != [] {
      assert es[|es| - 1] in es;
      PlainEntries(p, key, date, es[..|es| - 1]);
      hide IndexableTitle;
      assert Restored(p, key, es[|es| - 1].data) == es[|es| - 1].data;
    }
  }

  /** The blocks of a run are genesis and blocks that were appended. */
  lemma {:induction false} RunBlocks(genesis: Block, ops: seq<ChainOp>, b: Block)
    requires b in Run([genesis], ops)
    ensures b == genesis || exists op :: op in ops && op.Append? && b in op.more
  {
    if ops != [] {
      var init, op := ops[..|ops| - 1], ops[|ops| - 1];
      assert op in ops;
      if b in Run([genesis], init) {
        RunBlocks(genesis, init, b);
      }
    }
  }

  predicate AppendsPlain(ops: seq<ChainOp>) {
    forall op :: op in ops && op.Append? ==> Plain(op.more)
  }

  predicate AppendsNonNegative(p: Primitives, key: Bytes, ops: seq<ChainOp>) {
    forall op :: op in ops && op.Append? ==> NonNegative(p, key, op.more)
  }

  /** What runs of such blocks keep, for plain entries. */
  lemma PlainDrift(p: Primitives, key: Bytes, chain: seq<Block>, op: ChainOp, d: Text, t: Text)
    requires Plain(chain)
    ensures OpDrift(p, key, chain, op, d, t) == 0
  {
    if op.Cut? {
      var cut := chain[|chain| - RemovedCount(|chain|, op.count)..];
      PlainConcealsNothing(p, key, cut);
      hide Plain, AllAsCommitted, Changes;
      OutIsInAndConcealed(p, key, cut, d, t);
    }
  }

  lemma PlainRun(genesis: Block, ops: seq<ChainOp>)
    requires !IsDay(genesis) && AppendsPlain(ops)
    ensures Plain(Run([genesis], ops))
  {
    forall b, e | b in Run([genesis], ops) && IsDay(b) && e in EntriesOf(b)
      ensures Enc(Title) !in e.data && Enc(Duration) !in e.data
    {
      RunBlocks(genesis, ops, b);
      var op :| op in ops && op.Append? && b in op.more;
    }
  }

  lemma NonNegativeRun(p: Primitives, key: Bytes, genesis: Block, ops: seq<ChainOp>)
    requires !IsDay(genesis) && AppendsNonNegative(p, key, ops)
    ensures NonNegative(p, key, Run([genesis], ops))
  {
    forall b, e | b in Run([genesis], ops) && IsDay(b) && e in EntriesOf(b)
      ensures AmountOf(e.data) >= 0 && AmountOf(Restored(p, key, e.data)) >= 0
    {
      RunBlocks(genesis, ops, b);
      var op :| op in ops && op.Append? && b in op.more;
    }
  }

  lemma {:induction false} PlainRunsDoNotDrift(p: Primitives, key: Bytes, genesis: Block, ops: seq<ChainOp>, d: Text, t: Text)
    requires !IsDay(genesis) && AppendsPlain(ops)
    ensures Drift(p, key, genesis, ops, d, t) == 0
  {
    if ops != [] {
      var init := ops[..|ops| - 1];
      PlainRunsDoNotDrift(p, key, genesis, init, d, t);
      PlainRun(genesis, init);
      hide OpDrift, Run, Plain;
      PlainDrift(p, key, Run([genesis], init), ops[|ops| - 1], d, t);
    }
  }

  /**
   For plain entries of any durations: the index tells the chain exactly when, for every
   date and title, no beginning of the changes adds up to less than both zero and their sum.
   */
  lemma PlainRunsTellIff(p: Primitives, key: Bytes, genesis: Block, ops: seq<ChainOp>)
    requires !IsDay(genesis) && AppendsPlain(ops)
    ensures Tells(p, key, IndexRun(p, key, genesis, ops), Run([genesis], ops)) <==> NeverBelow(p, key, genesis, ops)
  {
    IndexTellsIff(p, key, genesis, ops);
    hide Tells, IndexRun, Run, RunChanges, Deltas, WalkTells, Drift;
    forall d, t
      ensures var ds := Deltas(RunChanges(p, key, genesis, ops), d, t);
              WalkTells(ds, Drift(p, key, genesis, ops, d, t)) <==> Low(ds) == Min(0, Sum(ds))
    {
      PlainRunsDoNotDrift(p, key, genesis, ops, d, t);
      WalkTellsIff(Deltas(RunChanges(p, key, genesis, ops), d, t));
    }
    assert AllWalksTell(p, key, genesis, ops) <==> NeverBelow(p, key, genesis, ops);
  }

  ghost predicate NeverBelow(p: Primitives, key: Bytes, genesis: Block, ops: seq<ChainOp>) {
    forall d, t :: LowIsEnd(Deltas(RunChanges(p, key, genesis, ops), d, t))
  }

  predicate LowIsEnd(ds: seq<int>) {
    Low(ds) == Min(0, Sum(ds))
  }

  /** In particular it does over every run of plain entries with non-negative durations. */
  lemma {:induction false} IndexFollowsRuns(p: Primitives, key: Bytes, genesis: Block, ops: seq<ChainOp>)
    requires !IsDay(genesis)
    requires AppendsPlain(ops) && AppendsNonNegative(p, key, ops)
    ensures Tells(p, key, IndexRun(p, key, genesis, ops), Run([genesis], ops))
  {
    if ops == [] {
      EmptyTells(p, key, genesis);
    } else {
      var init, op := ops[..|ops| - 1], ops[|ops| - 1];
      assert op in ops;
      IndexFollowsRuns(p, key, genesis, init);
      PlainRun(genesis, init);
      NonNegativeRun(p, key, genesis, init);
      var chain := Run([genesis], init);
      hide Tells, Changes, Plain, NonNegative, Applied;
      if op.Append? {
        AppendTells(p, key, IndexRun(p, key, genesis, init), chain, op.more);
        NothingChanges(IndexRun(p, key, genesis, init));
      } else {
        PlainCutTells(p, key, IndexRun(p, key, genesis, init), chain, |chain| - RemovedCount(|chain|, op.count));
      }
    }
  }

  lemma NothingChanges(index: Index)
    ensures Applied(index, []) == index
  {
  }

  lemma EmptyTells(p: Primitives, key: Bytes, genesis: Block)
    requires !IsDay(genesis)
    ensures Tells(p, key, map[], [genesis])
  {
    OneBlock(p, key, genesis, In);
  }

  lemma PlainCutTells(p: Primitives, key: Bytes, index: Index, chain: seq<Block>, keep: nat)
    requires keep <= |chain| && Plain(chain) && NonNegative(p, key, chain) && Tells(p, key, index, chain)
    ensures Tells(p, key, Applied(index, Changes(p, key, chain[keep..], Out)), chain[..keep])
  {
    var kept, cut := chain[..keep], chain[keep..];
    assert chain == kept + cut;
    PlainConcealsNothing(p, key, cut);
    CutTellsIff(p, key, index, kept, cut);
    hide Tells;
    forall d, t ensures Total(p, key, cut, Concealed, d, t) == 0 {
    }
  }

  // ----- Rebuilding ---------------------------------------------------------

  /** With non-negative durations, rebuilding tells the chain. */
  lemma RebuildTells(p: Primitives, key: Bytes, chain: seq<Block>)
    requires NonNegative(p, key, chain)
    ensures Tells(p, key, Applied(map[], Changes(p, key, chain, In)), chain)
  {
    var none: seq<Block> := [];
    assert none + chain == chain;
    AppendTells(p, key, map[], none, chain);
  }

  /** So it gives the very index a run has kept exactly when that one tells the chain. */
  lemma RebuildGivesTheSameIff(p: Primitives, key: Bytes, genesis: Block, ops: seq<ChainOp>)
    requires NonNegative(p, key, Run([genesis], ops))
    ensures var chain := Run([genesis], ops);
            Applied(map[], Changes(p, key, chain, In)) == IndexRun(p, key, genesis, ops)
            <==> Tells(p, key, IndexRun(p, key, genesis, ops), chain)
  {
    hide Run, IndexRun, Changes, Applied, Normal, At, Total, NonNegative;
    var chain := Run([genesis], ops);
    var index, rebuilt := IndexRun(p, key, genesis, ops), Applied(map[], Changes(p, key, chain, In));
    RebuildTells(p, key, chain);
    if Tells(p, key, index, chain) {
      forall d, t ensures At(index, d, t) == At(rebuilt, d, t) {
      }
      TotalsDetermine(rebuilt, index);
    }
  }

  // ----- Two runs on which the index does not tell the chain ----------------

  const GENESIS := Block(map[Type := Str("genesis"), BlockHash := Str("g")], None)

  const DAY := "2024-01-01"

  /** A day block with one entry. */
  function DayWith(prev: Value, hash: Text, d: Data): Block {
    Block(map[Type := Str("day"), Date := Str(DAY), PrevHash := prev, DayHash := Str(hash)], Some([Entry("", d)]))
  }

  lemma DayWithChanges(p: Primitives, key: Bytes, prev: Value, hash: Text, d: Data, mode: Mode)
    ensures Changes(p, key, [DayWith(prev, hash, d)], mode) == EntryChange(p, key, DAY, d, mode)
  {
    OneBlock(p, key, DayWith(prev, hash, d), mode);
    var es := [Entry("", d)];
    assert es[..0] == [];
    assert EntryChanges(p, key, DAY, es, mode) == EntryChange(p, key, DAY, d, mode);
  }

  /** A run that leaves this chain and this index. */
  ghost predicate Leaves(p: Primitives, key: Bytes, ops: seq<ChainOp>, chain: seq<Block>, index: Index) {
    Run([GENESIS], ops) == chain && IndexRun(p, key, GENESIS, ops) == index
  }

  lemma NextLeaves(p: Primitives, key: Bytes, ops: seq<ChainOp>, op: ChainOp, chain: seq<Block>, index: Index)
    requires Leaves(p, key, ops, chain, index)
    ensures Leaves(p, key, ops + [op], Apply(chain, op), Applied(index, OpChanges(p, key, chain, op)))
  {
    assert (ops + [op])[..|ops|] == ops;
  }

  /** A day block with this entry is appended. */
  lemma DayAdded(p: Primitives, key: Bytes, ops: seq<ChainOp>, chain: seq<Block>, index: Index, b: Block, hash: Text, d: Data)
    requires Leaves(p, key, ops, chain, index) && chain != [] && hash != ""
    requires b == DayWith(GetBlockHash(chain[|chain| - 1]), hash, d)
    ensures Leaves(p, key, ops + [Append([b])], chain + [b], Applied(index, EntryChange(p, key, DAY, d, In)))
    ensures GetBlockHash(b) == Str(hash)
  {
    hide Leaves, EntryChange, Changes, DayWith, GetBlockHash, Linked, Apply, OpChanges;
    var prev := chain[|chain| - 1];
    DayWithChanges(p, key, GetBlockHash(prev), hash, d, In);
    DayLinks(prev, hash, d);
    AppendOne(p, key, chain, b);
    NextLeaves(p, key, ops, Append([b]), chain, index);
  }

  lemma DayLinks(prev: Block, hash: Text, d: Data)
    requires hash != ""
    ensures var b := DayWith(GetBlockHash(prev), hash, d); Linked(prev, b) && GetBlockHash(b) == Str(hash)
  {
  }

  lemma AppendOne(p: Primitives, key: Bytes, chain: seq<Block>, b: Block)
    requires chain != [] && Linked(chain[|chain| - 1], b)
    ensures Apply(chain, Append([b])) == chain + [b]
    ensures OpChanges(p, key, chain, Append([b])) == Changes(p, key, [b], In)
  {
    hide Changes, Linked;
  }

  /** The last day block, with this entry, is cut. */
  lemma DayCut(p: Primitives, key: Bytes, ops: seq<ChainOp>, chain: seq<Block>, index: Index, prev: Value, hash: Text, d: Data)
    requires Leaves(p, key, ops, chain + [DayWith(prev, hash, d)], index) && chain != []
    ensures Leaves(p, key, ops + [Cut(1)], chain, Applied(index, EntryChange(p, key, DAY, d, Out)))
  {
    var b := DayWith(prev, hash, d);
    DayWithChanges(p, key, prev, hash, d, Out);
    NextLeaves(p, key, ops, Cut(1), chain + [b], index);
    hide Leaves, EntryChange, Changes, DayWith;
    assert (chain + [b])[..|chain|] == chain && (chain + [b])[|chain|..] == [b];
  }

  lemma NothingLeaves(p: Primitives, key: Bytes)
    ensures Leaves(p, key, [], [GENESIS], map[])
  {
  }

  /** A negative duration, committed and reverted: the index keeps five that nothing in the chain accounts for. */
  lemma NegativeDurationsDrift(p: Primitives, key: Bytes) returns (ops: seq<ChainOp>)
    ensures |ops| == 2 && ops[0].Append? && ops[1] == Cut(1) && Run([GENESIS], ops) == [GENESIS]
    ensures At(IndexRun(p, key, GENESIS, ops), DAY, "Run") == 5
    ensures !Tells(p, key, IndexRun(p, key, GENESIS, ops), Run([GENESIS], ops))
  {
    var d: Data := map[Title := Str("Run"), Duration := Int(-5)];
    PlainEntry(p, key, d, -5);
    FiveLeft();
    hide Leaves, Applied, EntryChange, DayWith, GetBlockHash, Tells, At, Run, IndexRun, Total, IsDay, GENESIS;
    var prev, start := GetBlockHash(GENESIS), [GENESIS];
    var down := Applied(map[], [Change(DAY, "Run", -5)]);
    var up := Applied(down, [Change(DAY, "Run", 5)]);
    var b := DayWith(prev, "h", d);
    NothingLeaves(p, key);
    DayAdded(p, key, [], start, map[], b, "h", d);
    var one := [] + [Append([b])];
    DayCut(p, key, one, start, down, prev, "h", d);
    ops := one + [Cut(1)];
    GenesisTotal(p, key);
    Mismatch(p, key, ops, start, up);
  }

  lemma Mismatch(p: Primitives, key: Bytes, ops: seq<ChainOp>, chain: seq<Block>, index: Index)
    requires Leaves(p, key, ops, chain, index)
    ensures IndexRun(p, key, GENESIS, ops) == index && Run([GENESIS], ops) == chain
    ensures At(index, DAY, "Run") != Max(0, Total(p, key, chain, In, DAY, "Run"))
            ==> !Tells(p, key, IndexRun(p, key, GENESIS, ops), Run([GENESIS], ops))
  {
    hide Run, IndexRun, Total;
  }

  lemma PlainEntry(p: Primitives, key: Bytes, d: Data, n: int)
    requires d == map[Title := Str("Run"), Duration := Int(n)]
    ensures EntryChange(p, key, DAY, d, In) == [Change(DAY, "Run", n)]
    ensures EntryChange(p, key, DAY, d, Out) == [Change(DAY, "Run", -n)]
  {
  }

  lemma FiveLeft()
    ensures At(Applied(Applied(map[], [Change(DAY, "Run", -5)]), [Change(DAY, "Run", 5)]), DAY, "Run") == 5
  {
    OneApplied(map[], Change(DAY, "Run", -5));
    OneApplied(map[], Change(DAY, "Run", 5));
    UpdatedAt(map[], DAY, "Run", 5, DAY, "Run");
  }

  lemma GenesisTotal(p: Primitives, key: Bytes)
    ensures Total(p, key, [GENESIS], In, DAY, "Run") == 0
  {
    OneBlock(p, key, GENESIS, In);
  }

  /**
   An entry with an encrypted title, committed after a plain one of the same title and
   day and then reverted: six are left in the index, ten in the chain and in a rebuilt index.
   */
  lemma ConcealedDurationsDrift(p: Primitives, key: Bytes, title: Text, duration: Text) returns (ops: seq<ChainOp>)
    requires title != "" && duration != "" && p.decrypt(key, title) == Some("Run")
    requires p.decrypt(key, duration) == Some("4") && p.parseInt("4") == Some(4)
    ensures |ops| == 3 && ops[0].Append? && ops[1].Append? && ops[2] == Cut(1) && |Run([GENESIS], ops)| == 2
    ensures At(IndexRun(p, key, GENESIS, ops), DAY, "Run") == 6
    ensures At(Applied(map[], Changes(p, key, Run([GENESIS], ops), In)), DAY, "Run") == 10
    ensures !Tells(p, key, IndexRun(p, key, GENESIS, ops), Run([GENESIS], ops))
  {
    var plain: Data := map[Title := Str("Run"), Duration := Int(10)];
    var hidden: Data := map[Enc(Title) := Str(title), Enc(Duration) := Str(duration)];
    PlainEntry(p, key, plain, 10);
    HiddenRestored(p, key, title, duration, hidden);
    TenThenFour();
    var b := DayWith(GetBlockHash(GENESIS), "h", plain);
    var kept := [GENESIS] + [b];
    GenesisAndDay(p, key, b, plain);
    hide Leaves, Applied, EntryChange, DayWith, GetBlockHash, Tells, At, Changes;
    NothingLeaves(p, key);
    DayAdded(p, key, [], [GENESIS], map[], b, "h", plain);
    var one := [] + [Append([b])];
    var prev := GetBlockHash(kept[|kept| - 1]);
    var c := DayWith(prev, "i", hidden);
    var ten := Applied(map[], [Change(DAY, "Run", 10)]);
    DayAdded(p, key, one, kept, ten, c, "i", hidden);
    var two := one + [Append([c])];
    NothingChanges(ten);
    DayCut(p, key, two, kept, ten, prev, "i", hidden);
    ops := two + [Cut(1)];
    TotalOfOne(p, key, kept, 10);
    Mismatch(p, key, ops, kept, Applied(ten, [Change(DAY, "Run", -4)]));
  }

  lemma GenesisAndDay(p: Primitives, key: Bytes, b: Block, d: Data)
    requires b == DayWith(GetBlockHash(GENESIS), "h", d)
    ensures Changes(p, key, [GENESIS] + [b], In) == EntryChange(p, key, DAY, d, In)
  {
    ChangesAppend(p, key, [GENESIS], [b], In);
    OneBlock(p, key, GENESIS, In);
    DayWithChanges(p, key, GetBlockHash(GENESIS), "h", d, In);
    hide EntryChange, Changes;
  }

  lemma HiddenRestored(p: Primitives, key: Bytes, title: Text, duration: Text, d: Data)
    requires title != "" && duration != "" && p.decrypt(key, title) == Some("Run")
    requires p.decrypt(key, duration) == Some("4") && p.parseInt("4") == Some(4)
    requires d == map[Enc(Title) := Str(title), Enc(Duration) := Str(duration)]
    ensures EntryChange(p, key, DAY, d, In) == [] && EntryChange(p, key, DAY, d, Out) == [Change(DAY, "Run", -4)]
  {
    var half := TitleRestored(p, key, d);
    assert Get(half, Title) == Str("Run") && Get(half, Enc(Duration)) == Str(duration);
  }

  lemma TenThenFour()
    ensures At(Applied(map[], [Change(DAY, "Run", 10)]), DAY, "Run") == 10
    ensures At(Applied(Applied(map[], [Change(DAY, "Run", 10)]), [Change(DAY, "Run", -4)]), DAY, "Run") == 6
  {
    var ten := Applied(map[], [Change(DAY, "Run", 10)]);
    OneApplied(map[], Change(DAY, "Run", 10));
    OneApplied(ten, Change(DAY, "Run", -4));
    UpdatedAt(map[], DAY, "Run", 10, DAY, "Run");
    UpdatedAt(ten, DAY, "Run", -4, DAY, "Run");
  }

  lemma TotalOfOne(p: Primitives, key: Bytes, bs: seq<Block>, n: int)
    requires Changes(p, key, bs, In) == [Change(DAY, "Run", n)]
    ensures Total(p, key, bs, In, DAY, "Run") == n
  {
    OneDelta([Change(DAY, "Run", n)], DAY, "Run");
  }
}
