/**
 Moving staged entries into the ledger: `sync_day` and
 `sync_day_with_selection` with the inline summary logic, and the
 blind index updated alongside.
 */
module SyncDay {
  import opened Json
  import opened TextOrder
  import opened Blocks
  import opened ContentHashes
  import opened Chain
  import opened Summaries
  import opened EntryCommit

  type Index = map<Text, map<Text, int>>

  /** What a sync writes besides the staging area. */
  datatype Books = Books(ledger: seq<Block>, index: Index)

  /** The randomness of each encryption: by position of the entry, by field. */
  type Draws = nat -> FieldDraws

  predicate IsActiveEntry(e: Entry) {
    Truthy(Get(e.data, IsActive))
  }

  // ----- One day ----------------------------------------------------------

  function DayOf(p: Primitives, key: Bytes, secret: Option<Bytes>, ledger: seq<Block>, date: Text, entries: seq<Entry>): Block
    requires ledger != []
  {
    SealedBlock(p, key, secret, DayFields(PrevLink(ledger[|ledger| - 1]), date, NextDayIndex(ledger)),
                Some(entries), DayHash)
  }

  /** The ledger after one day's summaries and day block. */
  function PostedLedger(p: Primitives, key: Bytes, secret: Option<Bytes>, ledger: seq<Block>, date: Text, entries: seq<Entry>)
    : (r: Option<seq<Block>>)
    requires ledger != []
    ensures r.Some? ==> r.value != []
  {
    var summaries :- InlineSummaries(p, key, secret, ledger[|ledger| - 1], date);
    Some(ledger + summaries + [DayOf(p, key, secret, ledger + summaries, date, entries)])
  }

  function At(index: Index, date: Text, title: Text): int {
    if date in index && title in index[date] then index[date][title] else 0
  }

  function Touched(index: Index, date: Text): Index {
    if date in index then index else index[date := map[]]
  }

  /** The index after the entries of one day; None when a title or a duration is
      missing or of the wrong type. */
  function PostedIndex(index: Index, date: Text, entries: seq<Entry>): (r: Option<Index>)
    ensures r.Some? ==> date in r.value
  {
    if entries == [] then Some(Touched(index, date))
    else
      var before :- PostedIndex(index, date, entries[..|entries| - 1]);
      var d := entries[|entries| - 1].data;
      var title, duration := Get(d, Title), Get(d, Duration);
      if !title.Str? || !duration.Int? then None
      else Some(before[date := before[date][title.s := At(before, date, title.s) + duration.n]])
  }

  function PostDay(p: Primitives, key: Bytes, secret: Option<Bytes>, books: Books, date: Text, entries: seq<Entry>)
    : (r: Option<Books>)
    requires books.ledger != []
    ensures r.Some? ==> r.value.ledger != []
  {
    var ledger :- PostedLedger(p, key, secret, books.ledger, date, entries);
    var index :- PostedIndex(books.index, date, entries);
    Some(Books(ledger, index))
  }

  lemma PostedLedgerOf(p: Primitives, key: Bytes, secret: Option<Bytes>, books: Books, date: Text, es: seq<Entry>)
    requires books.ledger != [] && PostDay(p, key, secret, books, date, es).Some?
    ensures PostedLedger(p, key, secret, books.ledger, date, es) == Some(PostDay(p, key, secret, books, date, es).value.ledger)
  {
    hide PostedLedger, PostedIndex;
  }

  // ----- All days ---------------------------------------------------------

  /** The committed entries of a list, in order; None when one raises. */
  function CommitAll(p: Primitives, key: Bytes, es: seq<Entry>, draws: Draws): (r: Option<seq<Dated>>)
    ensures r.Some? ==> |r.value| == |es|
  {
    if es == [] then Some([])
    else
      var before :- CommitAll(p, key, es[..|es| - 1], draws);
      var last :- Commit(p, key, es[|es| - 1].data, draws(|es| - 1));
      Some(before + [last])
  }

  /** The entries dated `date`, in order. */
  function EntriesOn(cs: seq<Dated>, date: Text): seq<Entry> {
    if cs == [] then []
    else
      var before := EntriesOn(cs[..|cs| - 1], date);
      if cs[|cs| - 1].date == date then before + [cs[|cs| - 1].entry] else before
  }

  function DatesOf(cs: seq<Dated>): set<Text> {
    set c | c in cs :: c.date
  }

  function PostDays(p: Primitives, key: Bytes, secret: Option<Bytes>, books: Books, dates: seq<Text>, cs: seq<Dated>)
    : (r: Option<Books>)
    requires books.ledger != []
    ensures r.Some? ==> r.value.ledger != []
  {
    if dates == [] then Some(books)
    else
      var before :- PostDays(p, key, secret, books, dates[..|dates| - 1], cs);
      var date := dates[|dates| - 1];
      PostDay(p, key, secret, before, date, EntriesOn(cs, date))
  }

  /** `dates` lists the days of the committed entries in ascending order. */
  predicate ListsDates(dates: seq<Text>, cs: seq<Dated>) {
    Ascending(dates) && (forall c | c in cs :: c.date in dates) && (forall d | d in dates :: d in DatesOf(cs))
  }

  /** `after` is what syncing `entries` makes of `before`. */
  ghost predicate Synced(p: Primitives, key: Bytes, secret: Option<Bytes>, before: Books, entries: seq<Entry>,
                         draws: Draws, after: Books)
    requires before.ledger != []
  {
    CommitAll(p, key, entries, draws).Some? &&
    exists dates ::
      && ListsDates(dates, CommitAll(p, key, entries, draws).value)
      && PostDays(p, key, secret, before, dates, CommitAll(p, key, entries, draws).value) == Some(after)
  }

  // ----- The verifier accepts what is written ------------------------------

  ghost predicate EntriesVerify(p: Primitives, key: Bytes, es: seq<Entry>) {
    forall e | e in es :: EntryValid(p, key, true, e)
  }

  lemma AppendWritten(v: Verifier, secret: Option<Bytes>, ledger: seq<Block>, body: Data,
                      entries: Option<seq<Entry>>, hashKey: Field)
    requires SealsAreNonEmpty(v.p) && Trusts(v, v.key, secret) && ledger != [] && Accepted(v, ledger)
    requires WritableBody(body, hashKey) && body[PrevHash] == GetBlockHash(ledger[|ledger| - 1])
    requires entries.Some? ==> EntriesVerify(v.p, v.key, entries.value)
    ensures var b := SealedBlock(v.p, v.key, secret, body, entries, hashKey);
            Accepted(v, ledger + [b]) && Truthy(GetBlockHash(b)) && PrevLink(b) == GetBlockHash(b)
  {
    hide StepOk, Accepted, SealedBlock, GetBlockHash, PrevLink, ContentHashValid, EntryHashAccepted, RequiresContentHash;
    var b := SealedBlock(v.p, v.key, secret, body, entries, hashKey);
    WrittenBlockFields(v.p, v.key, secret, body, entries, hashKey);
    WrittenBlockStep(v, ledger[0], ledger[|ledger| - 1], secret, body, entries, hashKey);
    AcceptedExtends(v, ledger, b);
  }

  /** A ledger the verifier accepts and whose last block can be linked to. */
  ghost predicate Ready(v: Verifier, ledger: seq<Block>) {
    ledger != [] && Accepted(v, ledger) && PrevLink(ledger[|ledger| - 1]) == GetBlockHash(ledger[|ledger| - 1])
  }

  lemma YearReady(v: Verifier, secret: Option<Bytes>, ledger: seq<Block>, year: int, link: Value, date: Text)
    requires SealsAreNonEmpty(v.p) && Trusts(v, v.key, secret) && Ready(v, ledger)
    requires link == PrevLink(ledger[|ledger| - 1])
    ensures var b := YearSummary(v.p, v.key, secret, year, link, date);
            Ready(v, ledger + [b]) && PrevLink(b) == Get(b.fields, YearHash)
  {
    hide Accepted, GetBlockHash, SealedBlock, PrevLink, Truthy;
    AppendWritten(v, secret, ledger, YearBody(year, link, date), None, YearHash);
    YearSummaryHash(v.p, v.key, secret, year, link, date);
  }

  lemma MonthReady(v: Verifier, secret: Option<Bytes>, ledger: seq<Block>, month: Text, link: Value, date: Text)
    requires SealsAreNonEmpty(v.p) && Trusts(v, v.key, secret) && Ready(v, ledger)
    requires link == PrevLink(ledger[|ledger| - 1])
    ensures Ready(v, ledger + [MonthSummary(v.p, v.key, secret, month, link, date)])
  {
    hide Accepted, GetBlockHash, SealedBlock, PrevLink, Truthy;
    AppendWritten(v, secret, ledger, MonthBody(month, link, date), None, MonthHash);
  }

  lemma PlanAccepted(v: Verifier, secret: Option<Bytes>, ledger: seq<Block>, plan: Plan, date: Text)
    requires SealsAreNonEmpty(v.p) && Trusts(v, v.key, secret) && Ready(v, ledger)
    ensures Ready(v, ledger + PlanBlocks(v.p, v.key, secret, plan, PrevLink(ledger[|ledger| - 1]), date))
  {
    var link := PrevLink(ledger[|ledger| - 1]);
    var s := PlanBlocks(v.p, v.key, secret, plan, link, date);
    assert plan.year.None? && plan.month.None? ==> ledger + s == ledger;
    hide Ready, PrevLink, YearSummary, MonthSummary;
    var mid := ledger;
    if plan.year.Some? {
      var year := YearSummary(v.p, v.key, secret, plan.year.value, link, date);
      YearReady(v, secret, ledger, plan.year.value, link, date);
      mid := ledger + [year];
      link := Get(year.fields, YearHash);
      assert plan.month.None? ==> s == [year];
    }
    if plan.month.Some? {
      var month := MonthSummary(v.p, v.key, secret, v.p.monthText(plan.month.value), link, date);
      MonthReady(v, secret, mid, v.p.monthText(plan.month.value), link, date);
      assert ledger + s == mid + [month];
    }
  }

  lemma DayAccepted(v: Verifier, secret: Option<Bytes>, ledger: seq<Block>, date: Text, entries: seq<Entry>)
    requires SealsAreNonEmpty(v.p) && Trusts(v, v.key, secret) && Ready(v, ledger)
    requires EntriesVerify(v.p, v.key, entries)
    ensures Ready(v, ledger + [DayOf(v.p, v.key, secret, ledger, date, entries)])
  {
    hide Accepted, GetBlockHash, SealedBlock, PrevLink, NextDayIndex, Truthy;
    AppendWritten(v, secret, ledger, DayFields(PrevLink(ledger[|ledger| - 1]), date, NextDayIndex(ledger)),
                  Some(entries), DayHash);
  }

  lemma PostedAccepted(v: Verifier, secret: Option<Bytes>, ledger: seq<Block>, date: Text, entries: seq<Entry>)
    requires SealsAreNonEmpty(v.p) && Trusts(v, v.key, secret) && Ready(v, ledger)
    requires EntriesVerify(v.p, v.key, entries) && PostedLedger(v.p, v.key, secret, ledger, date, entries).Some?
    ensures var after := PostedLedger(v.p, v.key, secret, ledger, date, entries).value;
            Ready(v, after) && ledger <= after
  {
    var prev := ledger[|ledger| - 1];
    var plan := InlinePlan(Get(prev.fields, Type), RecordDate(v.p, prev).value, v.p.parseDate(date).value);
    var s := InlineSummaries(v.p, v.key, secret, prev, date).value;
    hide Accepted, GetBlockHash, PrevLink, PlanBlocks, DayOf, Trusts;
    PlanAccepted(v, secret, ledger, plan, date);
    DayAccepted(v, secret, ledger + s, date, entries);
  }

  lemma {:induction false} CommittedVerify(p: Primitives, key: Bytes, es: seq<Entry>, draws: Draws, date: Text)
    requires DecryptsOwnCiphertexts(p) && IntegersRoundTrip(p) && CommitAll(p, key, es, draws).Some?
    ensures EntriesVerify(p, key, EntriesOn(CommitAll(p, key, es, draws).value, date))
  {
    hide Commit, ContentHashValid, EntryHashAccepted, View;
    if es != [] {
      var n := |es| - 1;
      CommittedVerify(p, key, es[..n], draws, date);
      CommitKeepsView(p, key, es[n].data, draws(n));
      var cs := CommitAll(p, key, es, draws).value;
      assert cs[..n] == CommitAll(p, key, es[..n], draws).value;
    }
  }

  lemma {:induction false} DaysAccepted(v: Verifier, secret: Option<Bytes>, books: Books, dates: seq<Text>, cs: seq<Dated>)
    requires SealsAreNonEmpty(v.p) && Trusts(v, v.key, secret) && books.ledger != [] && Ready(v, books.ledger)
    requires forall d :: EntriesVerify(v.p, v.key, EntriesOn(cs, d))
    requires PostDays(v.p, v.key, secret, books, dates, cs).Some?
    ensures var after := PostDays(v.p, v.key, secret, books, dates, cs).value.ledger;
            Ready(v, after) && books.ledger <= after
  {
    hide Ready, PostedLedger, EntriesVerify, PostedIndex, Trusts;
    if dates != [] {
      var n := |dates| - 1;
      DaysAccepted(v, secret, books, dates[..n], cs);
      PostedAccepted(v, secret, PostDays(v.p, v.key, secret, books, dates[..n], cs).value.ledger, dates[n],
                     EntriesOn(cs, dates[n]));
    }
  }

  /** Every sync of an accepted ledger leaves it accepted, the old chain an
      unchanged prefix, and its last block ready to be linked to. */
  lemma SyncAccepted(v: Verifier, secret: Option<Bytes>, before: Books, entries: seq<Entry>, draws: Draws, after: Books)
    requires DecryptsOwnCiphertexts(v.p) && IntegersRoundTrip(v.p) && SealsAreNonEmpty(v.p)
    requires Trusts(v, v.key, secret) && before.ledger != [] && Ready(v, before.ledger)
    requires Synced(v.p, v.key, secret, before, entries, draws, after)
    ensures Ready(v, after.ledger) && Accepted(v, after.ledger) && before.ledger <= after.ledger
  {
    hide Ready, PostDays, EntriesVerify, Trusts, CommitAll, ListsDates;
    var cs := CommitAll(v.p, v.key, entries, draws).value;
    var dates :| ListsDates(dates, cs) && PostDays(v.p, v.key, secret, before, dates, cs) == Some(after);
    forall d ensures EntriesVerify(v.p, v.key, EntriesOn(cs, d)) {
      CommittedVerify(v.p, v.key, entries, draws, d);
    }
    DaysAccepted(v, secret, before, dates, cs);
    ReadyIsAccepted(v, after.ledger);
  }

  lemma ReadyIsAccepted(v: Verifier, ledger: seq<Block>)
    requires Ready(v, ledger)
    ensures Accepted(v, ledger)
  {
  }

  /** Only a genesis without any hash cannot be linked to. */
  lemma AcceptedIsReady(v: Verifier, ledger: seq<Block>)
    requires SealsAreNonEmpty(v.p) && Accepted(v, ledger) && |ledger| > 1
    ensures Ready(v, ledger)
  {
    var n := |ledger| - 1;
    assert StepOk(v, ledger[0], ledger[n - 1], ledger[n]);
    assert SealValid(v, ledger[n]);
    StoredSealLinks(v, ledger[n]);
  }

  lemma StoredSealLinks(v: Verifier, b: Block)
    requires SealsAreNonEmpty(v.p) && SealValid(v, b)
    ensures PrevLink(b) == GetBlockHash(b)
  {
    assert Truthy(Get(b.fields, HashKey(b)));
    hide SealOf, SealedBody;
  }

  // ----- When the old ledger cannot be linked to ---------------------------

  lemma PlanFirst(p: Primitives, key: Bytes, secret: Option<Bytes>, plan: Plan, link: Value, date: Text)
    ensures var s := PlanBlocks(p, key, secret, plan, link, date);
            s != [] ==> Get(s[0].fields, PrevHash) == link && KeyVersion !in s[0].fields
  {
    var s := PlanBlocks(p, key, secret, plan, link, date);
    if plan.year.Some? {
      assert s[0] == YearSummary(p, key, secret, plan.year.value, link, date);
    } else if plan.month.Some? {
      assert s[0] == MonthSummary(p, key, secret, p.monthText(plan.month.value), link, date);
    }
  }

  lemma DayLink(p: Primitives, key: Bytes, secret: Option<Bytes>, ledger: seq<Block>, date: Text, entries: seq<Entry>)
    requires ledger != []
    ensures var b := DayOf(p, key, secret, ledger, date, entries);
            && Get(b.fields, PrevHash) == PrevLink(ledger[|ledger| - 1]) && KeyVersion !in b.fields
            && IsDay(b) && Get(b.fields, Date) == Str(date) && b.entries == Some(entries)
  {
    hide PrevLink;
  }

  /** The first block a day writes names the last block's link. */
  lemma PostedFirst(p: Primitives, key: Bytes, secret: Option<Bytes>, ledger: seq<Block>, date: Text, entries: seq<Entry>)
    requires ledger != [] && PostedLedger(p, key, secret, ledger, date, entries).Some?
    ensures var after, n := PostedLedger(p, key, secret, ledger, date, entries).value, |ledger|;
            && |after| > n && ledger <= after
            && Get(after[n].fields, PrevHash) == PrevLink(ledger[n - 1]) && KeyVersion !in after[n].fields
  {
    var prev := ledger[|ledger| - 1];
    var plan := InlinePlan(Get(prev.fields, Type), RecordDate(p, prev).value, p.parseDate(date).value);
    hide PrevLink, PlanBlocks, DayOf;
    PlanFirst(p, key, secret, plan, PrevLink(prev), date);
    DayLink(p, key, secret, ledger + InlineSummaries(p, key, secret, prev, date).value, date, entries);
  }

  lemma {:induction false} DaysFirst(p: Primitives, key: Bytes, secret: Option<Bytes>, books: Books, dates: seq<Text>, cs: seq<Dated>)
    requires books.ledger != [] && dates != [] && PostDays(p, key, secret, books, dates, cs).Some?
    ensures var after, n := PostDays(p, key, secret, books, dates, cs).value.ledger, |books.ledger|;
            && |after| > n && books.ledger <= after
            && Get(after[n].fields, PrevHash) == PrevLink(books.ledger[n - 1]) && KeyVersion !in after[n].fields
  {
    hide PrevLink, PostedLedger, PostedIndex;
    var before := PostDays(p, key, secret, books, dates[..|dates| - 1], cs).value;
    PostedFirst(p, key, secret, before.ledger, dates[|dates| - 1], EntriesOn(cs, dates[|dates| - 1]));
    if |dates| > 1 {
      DaysFirst(p, key, secret, books, dates[..|dates| - 1], cs);
    }
  }

  /** After a sync that wrote something, the ledger verifies exactly when the last
      block of the old one could be linked to. */
  lemma SyncAcceptedIff(v: Verifier, secret: Option<Bytes>, before: Books, entries: seq<Entry>, draws: Draws, after: Books)
    requires DecryptsOwnCiphertexts(v.p) && IntegersRoundTrip(v.p) && SealsAreNonEmpty(v.p)
    requires Trusts(v, v.key, secret) && before.ledger != [] && Accepted(v, before.ledger) && entries != []
    requires Synced(v.p, v.key, secret, before, entries, draws, after)
    ensures Accepted(v, after.ledger) <==> Ready(v, before.ledger)
  {
    if Ready(v, before.ledger) {
      SyncAccepted(v, secret, before, entries, draws, after);
    } else {
      var cs := CommitAll(v.p, v.key, entries, draws).value;
      var dates :| ListsDates(dates, cs) && PostDays(v.p, v.key, secret, before, dates, cs) == Some(after);
      assert cs[0].date in dates;
      hide PrevLink, PostDays, GetBlockHash, Truthy;
      DaysFirst(v.p, v.key, secret, before, dates, cs);
      UnlinkedIsRejected(v, before.ledger, after.ledger);
    }
  }

  lemma UnlinkedIsRejected(v: Verifier, ledger: seq<Block>, after: seq<Block>)
    requires ledger != [] && ledger < after && KeyVersion !in after[|ledger|].fields
    requires Get(after[|ledger|].fields, PrevHash) != GetBlockHash(ledger[|ledger| - 1])
    ensures !Accepted(v, after)
  {
    var n := |ledger|;
    assert after[n - 1] == ledger[n - 1];
    hide SealValid, EntryValid, GetBlockHash;
    assert !StepOk(v, after[0], after[n - 1], after[n]);
  }

  /** A ledger of a genesis block without any hash is accepted, and no sync that
      writes something leaves it so: the writer links to null where the verifier
      asks for the empty text. */
  lemma HashlessGenesisIsRejected(v: Verifier, secret: Option<Bytes>, entries: seq<Entry>, draws: Draws, after: Books)
    requires DecryptsOwnCiphertexts(v.p) && IntegersRoundTrip(v.p) && SealsAreNonEmpty(v.p)
    requires Trusts(v, v.key, secret) && entries != []
    requires Synced(v.p, v.key, secret, Books([Block(map[Type := Str("genesis")], None)], map[]), entries, draws, after)
    ensures Accepted(v, [Block(map[Type := Str("genesis")], None)]) && !Accepted(v, after.ledger)
  {
    var genesis := Block(map[Type := Str("genesis")], None);
    assert PrevLink(genesis) == Null && GetBlockHash(genesis) == Str("");
    hide Synced, PrevLink, GetBlockHash, StepOk, Trusts;
    SyncAcceptedIff(v, secret, Books([genesis], map[]), entries, draws, after);
  }

  // ----- The index agrees with the ledger ----------------------------------

  /** The duration an entry adds to a title. */
  function DurationFor(d: Data, title: Text): int {
    if Get(d, Title) == Str(title) && Get(d, Duration).Int? then d[Duration].n else 0
  }

  function EntriesTotal(es: seq<Entry>, title: Text): int {
    if es == [] then 0 else EntriesTotal(es[..|es| - 1], title) + DurationFor(es[|es| - 1].data, title)
  }

  function BlockTotal(b: Block, date: Text, title: Text): int {
    if IsDay(b) && Get(b.fields, Date) == Str(date) then EntriesTotal(EntriesOf(b), title) else 0
  }

  /** The total duration of a title on a date, over all day blocks. */
  function LedgerTotal(ledger: seq<Block>, date: Text, title: Text): int {
    if ledger == [] then 0
    else LedgerTotal(ledger[..|ledger| - 1], date, title) + BlockTotal(ledger[|ledger| - 1], date, title)
  }

  lemma {:induction false} LedgerTotalAdds(a: seq<Block>, b: seq<Block>, date: Text, title: Text)
    ensures LedgerTotal(a + b, date, title) == LedgerTotal(a, date, title) + LedgerTotal(b, date, title)
  {
    hide BlockTotal;
    if b == [] {
      assert a + b == a;
    } else {
      assert (a + b)[..|a + b| - 1] == a + b[..|b| - 1];
      LedgerTotalAdds(a, b[..|b| - 1], date, title);
    }
  }

  lemma {:induction false} PostedIndexTotals(index: Index, date: Text, entries: seq<Entry>, d: Text, title: Text)
    requires PostedIndex(index, date, entries).Some?
    ensures At(PostedIndex(index, date, entries).value, d, title)
         == At(index, d, title) + (if d == date then EntriesTotal(entries, title) else 0)
  {
    if entries != [] {
      PostedIndexTotals(index, date, entries[..|entries| - 1], d, title);
    }
  }

  lemma PlanTotal(p: Primitives, key: Bytes, secret: Option<Bytes>, plan: Plan, link: Value, date: Text, d: Text, title: Text)
    ensures LedgerTotal(PlanBlocks(p, key, secret, plan, link, date), d, title) == 0
  {
    PlanHasNoDays(p, key, secret, plan, link, date);
    NoDaysTotal(PlanBlocks(p, key, secret, plan, link, date), d, title);
  }

  lemma {:induction false} NoDaysTotal(s: seq<Block>, d: Text, title: Text)
    requires forall b | b in s :: !IsDay(b)
    ensures LedgerTotal(s, d, title) == 0
  {
    if s != [] {
      assert s[|s| - 1] in s;
      NoDaysTotal(s[..|s| - 1], d, title);
    }
  }

  lemma PostedTotals(p: Primitives, key: Bytes, secret: Option<Bytes>, ledger: seq<Block>, date: Text, entries: seq<Entry>,
                     d: Text, title: Text)
    requires ledger != [] && PostedLedger(p, key, secret, ledger, date, entries).Some? && p.parseDate(date).Some?
    ensures LedgerTotal(PostedLedger(p, key, secret, ledger, date, entries).value, d, title)
         == LedgerTotal(ledger, d, title) + (if d == date then EntriesTotal(entries, title) else 0)
  {
    var prev := ledger[|ledger| - 1];
    var plan := InlinePlan(Get(prev.fields, Type), RecordDate(p, prev).value, p.parseDate(date).value);
    var s := InlineSummaries(p, key, secret, prev, date).value;
    hide PrevLink, PlanBlocks, DayOf, EntriesTotal;
    var day := DayOf(p, key, secret, ledger + s, date, entries);
    PlanTotal(p, key, secret, plan, PrevLink(prev), date, d, title);
    DayLink(p, key, secret, ledger + s, date, entries);
    LedgerTotalAdds(ledger, s, d, title);
    assert (ledger + s + [day])[..|ledger + s|] == ledger + s;
  }

  /** The index moves in step with the ledger totals, day by day. */
  lemma {:induction false} DaysTotals(p: Primitives, key: Bytes, secret: Option<Bytes>, books: Books, dates: seq<Text>,
                                      cs: seq<Dated>, d: Text, title: Text)
    requires books.ledger != [] && PostDays(p, key, secret, books, dates, cs).Some?
    ensures var after := PostDays(p, key, secret, books, dates, cs).value;
            (At(after.index, d, title) - At(books.index, d, title)
             == LedgerTotal(after.ledger, d, title) - LedgerTotal(books.ledger, d, title))
  {
    if dates != [] {
      var n := |dates| - 1;
      DaysTotals(p, key, secret, books, dates[..n], cs, d, title);
      var before := PostDays(p, key, secret, books, dates[..n], cs).value;
      var es := EntriesOn(cs, dates[n]);
      assert PostDays(p, key, secret, books, dates, cs) == PostDay(p, key, secret, before, dates[n], es);
      PostedTotals(p, key, secret, before.ledger, dates[n], es, d, title);
      PostedIndexTotals(before.index, dates[n], es, d, title);
      hide At, LedgerTotal, EntriesTotal, PostedLedger, PostedIndex, PostDays;
    }
  }

  ghost predicate IndexAgrees(books: Books) {
    forall d, t :: At(books.index, d, t) == LedgerTotal(books.ledger, d, t)
  }

  /** Every sync keeps the blind index equal to the totals over the ledger. */
  lemma SyncKeepsIndex(p: Primitives, key: Bytes, secret: Option<Bytes>, before: Books, entries: seq<Entry>,
                       draws: Draws, after: Books)
    requires before.ledger != [] && IndexAgrees(before) && Synced(p, key, secret, before, entries, draws, after)
    ensures IndexAgrees(after)
  {
    var cs := CommitAll(p, key, entries, draws).value;
    var dates :| ListsDates(dates, cs) && PostDays(p, key, secret, before, dates, cs) == Some(after);
    hide At, LedgerTotal, PostDays, ListsDates;
    forall d, t ensures At(after.index, d, t) == LedgerTotal(after.ledger, d, t) {
      DaysTotals(p, key, secret, before, dates, cs, d, t);
    }
  }

  // ----- Entries are conserved ---------------------------------------------

  /** What the entries of a list say, with multiplicity. */
  function Views(p: Primitives, key: Bytes, es: seq<Entry>): multiset<Option<PlainEntry>> {
    if es == [] then multiset{}
    else Views(p, key, es[..|es| - 1]) + multiset{View(p, key, es[|es| - 1].data)}
  }

  /** What the day blocks of a ledger say. */
  function LedgerViews(p: Primitives, key: Bytes, ledger: seq<Block>): multiset<Option<PlainEntry>> {
    if ledger == [] then multiset{}
    else
      var b := ledger[|ledger| - 1];
      LedgerViews(p, key, ledger[..|ledger| - 1]) + (if IsDay(b) then Views(p, key, EntriesOf(b)) else multiset{})
  }

  lemma {:induction false} NoDaysViews(p: Primitives, key: Bytes, ledger: seq<Block>, s: seq<Block>)
    requires forall b | b in s :: !IsDay(b)
    ensures LedgerViews(p, key, ledger + s) == LedgerViews(p, key, ledger)
  {
    if s == [] {
      assert ledger + s == ledger;
    } else {
      assert (ledger + s)[..|ledger + s| - 1] == ledger + s[..|s| - 1] && s[|s| - 1] in s;
      NoDaysViews(p, key, ledger, s[..|s| - 1]);
    }
  }

  lemma PlanHasNoDays(p: Primitives, key: Bytes, secret: Option<Bytes>, plan: Plan, link: Value, date: Text)
    ensures forall b | b in PlanBlocks(p, key, secret, plan, link, date) :: !IsDay(b)
  {
    var s := PlanBlocks(p, key, secret, plan, link, date);
    if plan.year.Some? {
      YearSummaryFields(p, key, secret, plan.year.value, link, date);
      assert s[0] == YearSummary(p, key, secret, plan.year.value, link, date);
    }
    if plan.month.Some? {
      var l := if plan.year.Some? then Get(s[0].fields, YearHash) else link;
      MonthSummaryFields(p, key, secret, p.monthText(plan.month.value), l, date);
      assert s[|s| - 1] == MonthSummary(p, key, secret, p.monthText(plan.month.value), l, date);
    }
    hide YearSummary, MonthSummary;
  }

  lemma PostedViews(p: Primitives, key: Bytes, secret: Option<Bytes>, ledger: seq<Block>, date: Text, entries: seq<Entry>)
    requires ledger != [] && PostedLedger(p, key, secret, ledger, date, entries).Some?
    ensures LedgerViews(p, key, PostedLedger(p, key, secret, ledger, date, entries).value)
         == LedgerViews(p, key, ledger) + Views(p, key, entries)
  {
    var prev := ledger[|ledger| - 1];
    var plan := InlinePlan(Get(prev.fields, Type), RecordDate(p, prev).value, p.parseDate(date).value);
    var s := InlineSummaries(p, key, secret, prev, date).value;
    hide PrevLink, PlanBlocks, DayOf, Views;
    var day := DayOf(p, key, secret, ledger + s, date, entries);
    PlanHasNoDays(p, key, secret, plan, PrevLink(prev), date);
    NoDaysViews(p, key, ledger, s);
    DayLink(p, key, secret, ledger + s, date, entries);
    assert (ledger + s + [day])[..|ledger + s|] == ledger + s;
  }

  /** The entries of the listed days together. */
  function GroupViews(p: Primitives, key: Bytes, dates: seq<Text>, cs: seq<Dated>): multiset<Option<PlainEntry>> {
    if dates == [] then multiset{}
    else GroupViews(p, key, dates[..|dates| - 1], cs) + Views(p, key, EntriesOn(cs, dates[|dates| - 1]))
  }

  lemma {:induction false} DaysViews(p: Primitives, key: Bytes, secret: Option<Bytes>, books: Books, dates: seq<Text>, cs: seq<Dated>)
    requires books.ledger != [] && PostDays(p, key, secret, books, dates, cs).Some?
    ensures LedgerViews(p, key, PostDays(p, key, secret, books, dates, cs).value.ledger)
         == LedgerViews(p, key, books.ledger) + GroupViews(p, key, dates, cs)
  {
    hide LedgerViews, Views, PostedLedger, PostedIndex, EntriesOn;
    if dates != [] {
      var n := |dates| - 1;
      var before, es := PostDays(p, key, secret, books, dates[..n], cs).value, EntriesOn(cs, dates[n]);
      assert PostDays(p, key, secret, books, dates, cs) == PostDay(p, key, secret, before, dates[n], es);
      assert GroupViews(p, key, dates, cs) == GroupViews(p, key, dates[..n], cs) + Views(p, key, es);
      hide PostDays, GroupViews;
      DaysViews(p, key, secret, books, dates[..n], cs);
      PostedViews(p, key, secret, before.ledger, dates[n], es);
    }
  }

  /** A committed entry joins exactly one group: that of its own day. */
  lemma {:induction false} OneMoreInGroup(p: Primitives, key: Bytes, dates: seq<Text>, cs: seq<Dated>)
    requires cs != [] && NoRepeats(dates)
    ensures var c := cs[|cs| - 1];
            (GroupViews(p, key, dates, cs)
             == GroupViews(p, key, dates, cs[..|cs| - 1])
                + (if c.date in dates then multiset{View(p, key, c.entry.data)} else multiset{}))
  {
    hide View;
    if dates != [] {
      var n := |dates| - 1;
      OneMoreInGroup(p, key, dates[..n], cs);
      var c := cs[|cs| - 1];
      if c.date == dates[n] {
        assert c.date !in dates[..n];
        assert EntriesOn(cs, dates[n])[..|EntriesOn(cs, dates[n])| - 1] == EntriesOn(cs[..|cs| - 1], dates[n]);
      } else {
        assert c.date in dates <==> c.date in dates[..n];
      }
    }
  }

  lemma {:induction false} NoGroups(p: Primitives, key: Bytes, dates: seq<Text>)
    ensures GroupViews(p, key, dates, []) == multiset{}
  {
    if dates != [] {
      NoGroups(p, key, dates[..|dates| - 1]);
    }
  }

  /** Grouping by day loses and duplicates nothing, and committing changes nothing
      an entry says. */
  lemma {:induction false} GroupsHoldAll(p: Primitives, key: Bytes, es: seq<Entry>, draws: Draws, dates: seq<Text>)
    requires DecryptsOwnCiphertexts(p) && IntegersRoundTrip(p) && NoRepeats(dates)
    requires CommitAll(p, key, es, draws).Some? && forall c | c in CommitAll(p, key, es, draws).value :: c.date in dates
    ensures GroupViews(p, key, dates, CommitAll(p, key, es, draws).value) == Views(p, key, es)
  {
    var cs := CommitAll(p, key, es, draws).value;
    if es == [] {
      NoGroups(p, key, dates);
    } else {
      var n := |es| - 1;
      assert cs[..n] == CommitAll(p, key, es[..n], draws).value;
      CommitKeepsView(p, key, es[n].data, draws(n));
      assert cs[n] in cs && cs[n] == Commit(p, key, es[n].data, draws(n)).value;
      hide Commit, View, ContentHashValid, EntryHashAccepted;
      GroupsHoldAll(p, key, es[..n], draws, dates);
      OneMoreInGroup(p, key, dates, cs);
    }
  }

  /** Every sync moves what its entries say into the ledger, no more and no less. */
  lemma SyncConserves(p: Primitives, key: Bytes, secret: Option<Bytes>, before: Books, entries: seq<Entry>,
                      draws: Draws, after: Books)
    requires DecryptsOwnCiphertexts(p) && IntegersRoundTrip(p) && before.ledger != []
    requires Synced(p, key, secret, before, entries, draws, after)
    ensures LedgerViews(p, key, after.ledger) == LedgerViews(p, key, before.ledger) + Views(p, key, entries)
  {
    var cs := CommitAll(p, key, entries, draws).value;
    var dates :| ListsDates(dates, cs) && PostDays(p, key, secret, before, dates, cs) == Some(after);
    forall i, j | 0 <= i < j < |dates| ensures dates[i] != dates[j] {
      TextLessIrreflexive(dates[i]);
    }
    hide PostDays, LedgerViews, Views, GroupViews, CommitAll;
    DaysViews(p, key, secret, before, dates, cs);
    GroupsHoldAll(p, key, entries, draws, dates);
  }
}
