/**
 What the writers put into a chain, told field by field: the day blocks, the
 summaries before them, and the chains of whole runs.
 */
module Written {
  import opened Json
  import opened TextOrder
  import opened Picking
  import opened Blocks
  import opened Chain
  import opened Acceptance
  import opened Summaries
  import opened SummaryRuns
  import opened EntryCommit
  import opened SyncDay

  // ----- Blocks -------------------------------------------------------------

  /** The block is sealed in field f, and signed if there is a secret. */
  ghost predicate SealedAndSigned(p: Primitives, key: Bytes, secret: Option<Bytes>, b: Block, f: Field) {
    exists s ::
      && f in b.fields && b.fields[f] == Str(s) && IsSealOf(p, key, b, f, s)
      && (secret.Some? && secret.value != [] ==> Get(b.fields, IdentitySeal) == Str(p.mac(s, secret.value)))
  }

  function SignatureField(secret: Option<Bytes>): set<Field> {
    if secret.Some? && secret.value != [] then {IdentitySeal} else {}
  }

  /** A day after a day that has an index carries the next one, any other day carries 1. */
  ghost predicate NumberedAfter(prev: Block, b: Block) {
    Get(b.fields, DayIndex)
    == if Get(prev.fields, Type) == Str("day") && Get(prev.fields, DayIndex).Int?
       then Int(prev.fields[DayIndex].n + 1) else Int(1)
  }

  /** A day block: its date, its link, its number after `prev`, its entries, its seals, and nothing more. */
  ghost predicate IsDayAfter(p: Primitives, key: Bytes, secret: Option<Bytes>, prev: Block, link: Value, date: Text,
                             es: seq<Entry>, b: Block)
  {
    && b.entries == Some(es)
    && b.fields.Keys == {Type, DayIndex, Date, PrevHash, DayHash} + SignatureField(secret)
    && b.fields[Type] == Str("day") && b.fields[Date] == Str(date) && b.fields[PrevHash] == link
    && NumberedAfter(prev, b)
    && SealedAndSigned(p, key, secret, b, DayHash)
  }

  ghost predicate IsYearSummary(p: Primitives, key: Bytes, secret: Option<Bytes>, year: int, link: Value, date: Text, b: Block) {
    && b.entries == None
    && b.fields.Keys == {Type, Year, Date, PrevHash, YearHash} + SignatureField(secret)
    && b.fields[Type] == Str("year_summary") && b.fields[Year] == Int(year)
    && b.fields[Date] == Str(date) && b.fields[PrevHash] == link
    && SealedAndSigned(p, key, secret, b, YearHash)
  }

  ghost predicate IsMonthSummary(p: Primitives, key: Bytes, secret: Option<Bytes>, month: YearMonth, link: Value, date: Text,
                                 b: Block)
  {
    && b.entries == None
    && b.fields.Keys == {Type, Month, Date, PrevHash, MonthHash} + SignatureField(secret)
    && b.fields[Type] == Str("month_summary") && b.fields[Month] == Str(p.monthText(month))
    && b.fields[Date] == Str(date) && b.fields[PrevHash] == link
    && SealedAndSigned(p, key, secret, b, MonthHash)
  }

  /** A block built from a body has the body's fields, its own seal and the signature. */
  lemma BuiltIs(p: Primitives, key: Bytes, secret: Option<Bytes>, body: Data, entries: Option<seq<Entry>>, f: Field)
    requires body.Keys !! {f, IdentitySeal, Signature, FormatVersion, KeyVersion} && f != IdentitySeal
    ensures var b := SealedBlock(p, key, secret, body, entries, f);
            && b.entries == entries && b.fields.Keys == body.Keys + {f} + SignatureField(secret)
            && (forall g :: g in body ==> b.fields[g] == body[g])
            && SealedAndSigned(p, key, secret, b, f)
  {
    var b := SealedBlock(p, key, secret, body, entries, f);
    assert SealedBody(b, f).fields == body;
    SealIs(p, key, b, f, b.fields[f].s);
    hide IsSealOf;
  }

  lemma NumberIsNext(chain: seq<Block>, b: Block)
    requires chain != [] && Get(b.fields, DayIndex) == Int(NextDayIndex(chain))
    ensures NumberedAfter(chain[|chain| - 1], b)
  {
  }

  lemma BodyOfDay(link: Value, date: Text, index: int)
    ensures var body := DayFields(link, date, index);
            && body.Keys == {Type, DayIndex, Date, PrevHash}
            && body[Type] == Str("day") && body[DayIndex] == Int(index) && body[Date] == Str(date) && body[PrevHash] == link
  {
  }

  lemma DayBuilt(p: Primitives, key: Bytes, secret: Option<Bytes>, chain: seq<Block>, link: Value, date: Text, es: seq<Entry>)
    requires chain != []
    ensures var b := SealedBlock(p, key, secret, DayFields(link, date, NextDayIndex(chain)), Some(es), DayHash);
            IsDayAfter(p, key, secret, chain[|chain| - 1], link, date, es, b)
  {
    hide SealedBlock, SealedAndSigned, NextDayIndex, NumberedAfter, SignatureField;
    var body := DayFields(link, date, NextDayIndex(chain));
    BodyOfDay(link, date, NextDayIndex(chain));
    hide DayFields;
    BuiltIs(p, key, secret, body, Some(es), DayHash);
    NumberIsNext(chain, SealedBlock(p, key, secret, body, Some(es), DayHash));
  }

  lemma YearBuilt(p: Primitives, key: Bytes, secret: Option<Bytes>, year: int, link: Value, date: Text)
    ensures IsYearSummary(p, key, secret, year, link, date, YearSummary(p, key, secret, year, link, date))
  {
    hide SealedBlock, SealedAndSigned, SignatureField;
    var body := YearBody(year, link, date);
    assert body.Keys == {Type, Year, PrevHash, Date};
    assert body[Type] == Str("year_summary") && body[Year] == Int(year) && body[Date] == Str(date) && body[PrevHash] == link;
    hide YearBody;
    BuiltIs(p, key, secret, body, None, YearHash);
  }

  lemma MonthBuilt(p: Primitives, key: Bytes, secret: Option<Bytes>, month: YearMonth, link: Value, date: Text)
    ensures IsMonthSummary(p, key, secret, month, link, date, MonthSummary(p, key, secret, p.monthText(month), link, date))
  {
    hide SealedBlock, SealedAndSigned, SignatureField;
    var body := MonthBody(p.monthText(month), link, date);
    assert body.Keys == {Type, Month, PrevHash, Date};
    assert body[Type] == Str("month_summary") && body[Month] == Str(p.monthText(month)) && body[Date] == Str(date)
           && body[PrevHash] == link;
    hide MonthBody;
    BuiltIs(p, key, secret, body, None, MonthHash);
  }

  // ----- The summaries before a day -----------------------------------------

  /** At most a year summary and at most a month summary, in this order, for the given year and
      month, the first linked as told and the second to the first. */
  ghost predicate Summarizes(p: Primitives, key: Bytes, secret: Option<Bytes>, year: Option<int>, month: Option<YearMonth>,
                             link: Value, date: Text, added: seq<Block>)
  {
    var y: nat, m: nat := if year.Some? then 1 else 0, if month.Some? then 1 else 0;
    && |added| == y + m
    && (y == 1 ==> IsYearSummary(p, key, secret, year.value, link, date, added[0]))
    && (m == 1 ==> IsMonthSummary(p, key, secret, month.value, if y == 1 then Get(added[0].fields, YearHash) else link, date,
                                  added[y]))
  }

  lemma PlanSummarizes(p: Primitives, key: Bytes, secret: Option<Bytes>, plan: Plan, link: Value, date: Text)
    ensures Summarizes(p, key, secret, plan.year, plan.month, link, date, PlanBlocks(p, key, secret, plan, link, date))
  {
    hide IsYearSummary, IsMonthSummary, YearSummary, MonthSummary;
    var next := link;
    if plan.year.Some? {
      YearBuilt(p, key, secret, plan.year.value, link, date);
      next := Get(YearSummary(p, key, secret, plan.year.value, link, date).fields, YearHash);
    }
    if plan.month.Some? {
      MonthBuilt(p, key, secret, plan.month.value, next, date);
    }
  }

  /** What a writer of the inline logic links to: the first hash there is, the year hash if no other. */
  ghost predicate LinksAs(prev: Block, link: Value) {
    FirstTruthy([Get(prev.fields, BlockHash), Get(prev.fields, DayHash), Get(prev.fields, MonthHash)],
                Get(prev.fields, YearHash), link)
  }

  lemma PrevLinkIs(prev: Block)
    ensures LinksAs(prev, PrevLink(prev))
  {
    var vs := [Get(prev.fields, BlockHash), Get(prev.fields, DayHash), Get(prev.fields, MonthHash)];
    hide Get;
    assert PrevLink(prev) == Or(vs[0], Or(vs[1], Or(vs[2], Get(prev.fields, YearHash))));
  }

  /** The date of a record, 1970-01-01 when it has none. */
  ghost predicate IsDated(p: Primitives, b: Block, d: CivilDate) {
    if Date in b.fields then b.fields[Date].Str? && p.parseDate(b.fields[Date].s) == Some(d)
    else p.parseDate("1970-01-01") == Some(d)
  }

  /** The inline logic summarizes the year of the record before when a later one begins, and its
      month when one with a greater number begins, unless the record is such a summary itself. */
  ghost predicate InlineAsks(prev: Block, d: CivilDate, c: CivilDate, year: Option<int>, month: Option<YearMonth>) {
    && (year.Some? <==> c.year > d.year && Get(prev.fields, Type) != Str("year_summary"))
    && (year.Some? ==> year.value == d.year)
    && (month.Some? <==> c.month > d.month && (year.Some? || Get(prev.fields, Type) != Str("month_summary")))
    && (month.Some? ==> month.value == YearMonth(d.year, d.month))
  }

  /** The policy takes the month before the new day's, and the year before it when that is over. */
  ghost predicate PolicyAsks(p: Primitives, prev: Block, d: YearMonth, c: CivilDate, year: Option<int>, month: Option<YearMonth>) {
    var m := if c.month == 1 then YearMonth(c.year - 1, 12) else YearMonth(c.year, c.month - 1);
    && (year.Some? <==> c.year > d.year && Get(prev.fields, Type) != Str("year_summary"))
    && (year.Some? ==> year.value == d.year)
    && (month.Some? <==>
          && (c.month != d.month || c.year > d.year)
          && !(Get(prev.fields, Type) == Str("month_summary") && Get(prev.fields, Month) == Str(p.monthText(m)))
          && !(year.Some? && m.month == 12))
    && (month.Some? ==> month.value == m)
  }

  /** The year and month the policy sees in a record: those of the month a month summary names,
      those of the date of any other. */
  ghost predicate InPeriod(p: Primitives, prev: Block, d: YearMonth) {
    if Get(prev.fields, Type) == Str("month_summary") && Month in prev.fields then
      prev.fields[Month].Str? && p.parseMonth(prev.fields[Month].s) == Some(d)
    else exists c :: IsDated(p, prev, c) && d == YearMonth(c.year, c.month)
  }

  /** The summaries due before a day that follows `prev`. */
  ghost predicate InlineAdds(p: Primitives, key: Bytes, secret: Option<Bytes>, prev: Block, date: Text, added: seq<Block>) {
    && p.parseDate(date).Some?
    && exists d, year, month, link ::
         && IsDated(p, prev, d) && InlineAsks(prev, d, p.parseDate(date).value, year, month)
         && LinksAs(prev, link) && Summarizes(p, key, secret, year, month, link, date, added)
  }

  /** The summaries the inline logic writes, and when it raises: when a date cannot be read. */
  lemma InlineWrites(p: Primitives, key: Bytes, secret: Option<Bytes>, prev: Block, date: Text)
    ensures InlineSummaries(p, key, secret, prev, date).Some? <==> p.parseDate(date).Some? && exists d :: IsDated(p, prev, d)
    ensures InlineSummaries(p, key, secret, prev, date).Some? ==>
              InlineAdds(p, key, secret, prev, date, InlineSummaries(p, key, secret, prev, date).value)
  {
    hide PlanBlocks, Summarizes, LinksAs, PrevLink;
    PrevLinkIs(prev);
    DatedIs(p, prev);
    if InlineSummaries(p, key, secret, prev, date).Some? {
      var d, c := RecordDate(p, prev).value, p.parseDate(date).value;
      var plan := InlinePlan(Get(prev.fields, Type), d, c);
      PlanSummarizes(p, key, secret, plan, PrevLink(prev), date);
      assert IsDated(p, prev, d) && InlineAsks(prev, d, c, plan.year, plan.month);
    }
  }

  lemma DatedIs(p: Primitives, b: Block)
    ensures forall d :: IsDated(p, b, d) <==> RecordDate(p, b) == Some(d)
  {
  }

  lemma PeriodIs(p: Primitives, b: Block)
    ensures forall d :: InPeriod(p, b, d) <==> PrevPeriod(p, b) == Some(d)
  {
    DatedIs(p, b);
    hide IsDated, RecordDate;
    forall d ensures InPeriod(p, b, d) <==> PrevPeriod(p, b) == Some(d) {
      if RecordDate(p, b).Some? {
        assert IsDated(p, b, RecordDate(p, b).value);
      }
    }
  }

  ghost predicate PolicyAdds(p: Primitives, key: Bytes, secret: Option<Bytes>, prev: Block, date: Text, added: seq<Block>) {
    && p.parseDate(date).Some?
    && exists d, year, month, link ::
         && InPeriod(p, prev, d) && PolicyAsks(p, prev, d, p.parseDate(date).value, year, month)
         && HasHash(prev, link) && Summarizes(p, key, secret, year, month, link, date, added)
  }

  /** The summaries the policy writes, and when it raises: when a date or a month cannot be read. */
  lemma PolicyWrites(p: Primitives, key: Bytes, secret: Option<Bytes>, prev: Block, date: Text)
    ensures PolicyBlocks(p, key, secret, prev, date).Some? <==> p.parseDate(date).Some? && exists d :: InPeriod(p, prev, d)
    ensures PolicyBlocks(p, key, secret, prev, date).Some? ==>
              PolicyAdds(p, key, secret, prev, date, PolicyBlocks(p, key, secret, prev, date).value)
  {
    hide PlanBlocks, Summarizes, HasHash, GetBlockHash, InPeriod, PrevPeriod;
    HashIs(prev, GetBlockHash(prev));
    PeriodIs(p, prev);
    if PolicyBlocks(p, key, secret, prev, date).Some? {
      var d, c := PrevPeriod(p, prev).value, p.parseDate(date).value;
      var plan := PolicyPlanFor(p, prev, date).value;
      PlanSummarizes(p, key, secret, plan, GetBlockHash(prev), date);
      PolicyAsksIs(p, prev, d, c, date);
      assert InPeriod(p, prev, d);
    }
  }

  lemma PolicyAsksIs(p: Primitives, prev: Block, d: YearMonth, c: CivilDate, date: Text)
    requires PrevPeriod(p, prev) == Some(d) && p.parseDate(date) == Some(c)
    ensures PolicyPlanFor(p, prev, date).Some?
    ensures var plan := PolicyPlanFor(p, prev, date).value; PolicyAsks(p, prev, d, c, plan.year, plan.month)
  {
    hide PrevPeriod;
  }

  // ----- Days ---------------------------------------------------------------

  /** The chain after one day: the old one, the summaries due, and the day block, which links to
      and is numbered after the block it follows. */
  ghost predicate DayWritten(p: Primitives, key: Bytes, secret: Option<Bytes>, before: seq<Block>, date: Text, es: seq<Entry>,
                             after: seq<Block>)
    requires before != []
  {
    exists added, day ::
      && after == before + added + [day]
      && InlineAdds(p, key, secret, Last(before), date, added)
      && FollowsAsDay(p, key, secret, Last(before + added), date, es, day)
  }

  ghost predicate FollowsAsDay(p: Primitives, key: Bytes, secret: Option<Bytes>, prev: Block, date: Text, es: seq<Entry>,
                               day: Block)
  {
    exists link :: LinksAs(prev, link) && IsDayAfter(p, key, secret, prev, link, date, es, day)
  }

  function Last(chain: seq<Block>): Block
    requires chain != []
  {
    chain[|chain| - 1]
  }

  lemma PostedIsWritten(p: Primitives, key: Bytes, secret: Option<Bytes>, ledger: seq<Block>, date: Text, es: seq<Entry>)
    requires ledger != [] && PostedLedger(p, key, secret, ledger, date, es).Some?
    ensures DayWritten(p, key, secret, ledger, date, es, PostedLedger(p, key, secret, ledger, date, es).value)
  {
    hide InlineSummaries, IsDated, InlineAsks, LinksAs, Summarizes, IsDayAfter, PrevLink, SealedBlock, NextDayIndex, DayFields;
    var prev := ledger[|ledger| - 1];
    InlineWrites(p, key, secret, prev, date);
    var added := InlineSummaries(p, key, secret, prev, date).value;
    assert InlineAdds(p, key, secret, prev, date, added);
    hide InlineAdds;
    var longer := ledger + added;
    PrevLinkIs(Last(longer));
    DayBuilt(p, key, secret, longer, PrevLink(Last(longer)), date, es);
    assert FollowsAsDay(p, key, secret, Last(longer), date, es, DayOf(p, key, secret, longer, date, es));
  }

  /** Every day from place `from` on is numbered after the block before it. */
  ghost predicate NumberedFrom(chain: seq<Block>, from: nat) {
    forall i :: 1 <= i < |chain| && from <= i && Get(chain[i].fields, Type) == Str("day") ==> NumberedAfter(chain[i - 1], chain[i])
  }

  lemma SummariesAreNoDays(p: Primitives, key: Bytes, secret: Option<Bytes>, prev: Block, date: Text, added: seq<Block>)
    requires InlineAdds(p, key, secret, prev, date, added)
    ensures forall i :: 0 <= i < |added| ==> Get(added[i].fields, Type) != Str("day")
  {
    hide LinksAs, IsDated, InlineAsks, SealedAndSigned;
  }

  lemma DayNumbered(p: Primitives, key: Bytes, secret: Option<Bytes>, before: seq<Block>, date: Text, es: seq<Entry>,
                    after: seq<Block>)
    requires before != [] && DayWritten(p, key, secret, before, date, es, after)
    ensures before < after && NumberedFrom(after, |before|)
  {
    hide InlineAdds, NumberedAfter, SealedAndSigned, LinksAs;
    var added, day :| after == before + added + [day] && InlineAdds(p, key, secret, Last(before), date, added)
                      && FollowsAsDay(p, key, secret, Last(before + added), date, es, day);
    SummariesAreNoDays(p, key, secret, Last(before), date, added);
    assert NumberedAfter(Last(before + added), day);
    hide FollowsAsDay;
    assert forall i :: |before| <= i < |after| - 1 ==> after[i] == added[i - |before|];
    assert after[|after| - 2] == Last(before + added);
  }

  lemma NumberedOn(a: seq<Block>, b: seq<Block>, from: nat)
    requires a <= b && NumberedFrom(a, from) && NumberedFrom(b, |a|)
    ensures NumberedFrom(b, from)
  {
    hide NumberedAfter;
    forall i | 1 <= i < |b| && from <= i && Get(b[i].fields, Type) == Str("day") ensures NumberedAfter(b[i - 1], b[i]) {
      if i < |a| {
        assert b[i] == a[i] && b[i - 1] == a[i - 1];
      }
    }
  }

  /** The ledgers a sync passes through: `days` holds the entries of each date, and each ledger is
      the one before with that date written. */
  ghost predicate WrittenInTurn(p: Primitives, key: Bytes, secret: Option<Bytes>, ledgers: seq<seq<Block>>, dates: seq<Text>,
                                days: seq<seq<Entry>>)
  {
    && |ledgers| == |dates| + 1 == |days| + 1
    && forall i :: 0 <= i < |dates| ==>
         ledgers[i] != [] && DayWritten(p, key, secret, ledgers[i], dates[i], days[i], ledgers[i + 1])
  }

  ghost function EntriesIn(cs: seq<Dated>): (es: seq<Entry>)
    ensures |es| == |cs| && forall i :: 0 <= i < |cs| ==> es[i] == cs[i].entry
  {
    seq(|cs|, i requires 0 <= i < |cs| => cs[i].entry)
  }

  ghost function PlacesOf(cs: seq<Dated>, date: Text): (places: set<nat>)
    ensures forall i: nat :: i in places <==> i < |cs| && cs[i].date == date
  {
    set i: nat | i < |cs| && cs[i].date == date
  }

  /** The committed entries dated `date`, in their order. */
  ghost predicate AreThoseOf(cs: seq<Dated>, date: Text, es: seq<Entry>) {
    PickedFrom(EntriesIn(cs), PlacesOf(cs, date), es)
  }

  lemma {:induction false} EntriesOnAre(cs: seq<Dated>, date: Text)
    ensures AreThoseOf(cs, date, EntriesOn(cs, date))
  {
    hide PickedFrom;
    if cs == [] {
      PickedNone(EntriesIn(cs));
      assert PlacesOf(cs, date) == {} && EntriesIn(cs) == [];
    } else {
      var n := |cs| - 1;
      var init, c := cs[..n], cs[n];
      EntriesOnAre(init, date);
      PlacesGrow(cs, date);
      assert EntriesIn(cs) == EntriesIn(init) + [c.entry];
      if c.date == date {
        PickedNext(EntriesIn(init), c.entry, PlacesOf(init, date), EntriesOn(init, date));
      } else {
        PickedSkip(EntriesIn(init), c.entry, PlacesOf(init, date), EntriesOn(init, date));
      }
    }
  }

  lemma PlacesGrow(cs: seq<Dated>, date: Text)
    requires cs != []
    ensures var n := |cs| - 1;
            PlacesOf(cs, date) == if cs[n].date == date then PlacesOf(cs[..n], date) + {n} else PlacesOf(cs[..n], date)
  {
  }

  lemma {:induction false} DaysWrittenInTurn(p: Primitives, key: Bytes, secret: Option<Bytes>, books: Books, dates: seq<Text>,
                                             cs: seq<Dated>) returns (ledgers: seq<seq<Block>>, days: seq<seq<Entry>>)
    requires books.ledger != [] && PostDays(p, key, secret, books, dates, cs).Some?
    ensures WrittenInTurn(p, key, secret, ledgers, dates, days)
    ensures ledgers[0] == books.ledger && ledgers[|dates|] == PostDays(p, key, secret, books, dates, cs).value.ledger
    ensures forall i :: 0 <= i < |dates| ==> AreThoseOf(cs, dates[i], days[i])
  {
    hide DayWritten, AreThoseOf, EntriesOn, PostedLedger, PostedIndex, PostDay;
    if dates == [] {
      ledgers, days := [books.ledger], [];
    } else {
      var n := |dates| - 1;
      var before := PostDays(p, key, secret, books, dates[..n], cs).value.ledger;
      var es := EntriesOn(cs, dates[n]);
      PostedLedgerOf(p, key, secret, PostDays(p, key, secret, books, dates[..n], cs).value, dates[n], es);
      ledgers, days := DaysWrittenInTurn(p, key, secret, books, dates[..n], cs);
      PostedIsWritten(p, key, secret, before, dates[n], es);
      EntriesOnAre(cs, dates[n]);
      ledgers, days := ledgers + [PostedLedger(p, key, secret, before, dates[n], es).value], days + [es];
    }
  }

  /** Everything a sync writes: the ledgers it passes through, one for each date of its entries
      in ascending order, each with that date's summaries and its day block, which holds the
      entries of the date as they were committed and in their order. */
  lemma SyncWrites(p: Primitives, key: Bytes, secret: Option<Bytes>, before: Books, entries: seq<Entry>, draws: SyncDay.Draws,
                   after: Books)
    returns (cs: seq<Dated>, dates: seq<Text>, ledgers: seq<seq<Block>>, days: seq<seq<Entry>>)
    requires before.ledger != [] && Synced(p, key, secret, before, entries, draws, after)
    ensures |cs| == |entries| && forall i :: 0 <= i < |cs| ==> Commit(p, key, entries[i].data, draws(i)) == Some(cs[i])
    ensures Ascending(dates) && forall d :: d in dates <==> exists c :: c in cs && c.date == d
    ensures WrittenInTurn(p, key, secret, ledgers, dates, days) && ledgers[0] == before.ledger && ledgers[|dates|] == after.ledger
    ensures forall i :: 0 <= i < |dates| ==> AreThoseOf(cs, dates[i], days[i])
  {
    hide Commit, DayWritten, AreThoseOf, PostDays;
    cs := CommitAll(p, key, entries, draws).value;
    CommittedAt(p, key, entries, draws);
    dates :| ListsDates(dates, cs) && PostDays(p, key, secret, before, dates, cs) == Some(after);
    ledgers, days := DaysWrittenInTurn(p, key, secret, before, dates, cs);
  }

  lemma {:induction false} CommittedAt(p: Primitives, key: Bytes, es: seq<Entry>, draws: SyncDay.Draws)
    requires CommitAll(p, key, es, draws).Some?
    ensures forall i :: 0 <= i < |es| ==> Commit(p, key, es[i].data, draws(i)) == Some(CommitAll(p, key, es, draws).value[i])
  {
    hide Commit;
    if es != [] {
      CommittedAt(p, key, es[..|es| - 1], draws);
    }
  }

  lemma {:induction false} InTurnNumbered(p: Primitives, key: Bytes, secret: Option<Bytes>, ledgers: seq<seq<Block>>,
                                          dates: seq<Text>, days: seq<seq<Entry>>, n: nat)
    requires WrittenInTurn(p, key, secret, ledgers, dates, days) && n <= |dates|
    ensures ledgers[0] <= ledgers[n] && NumberedFrom(ledgers[n], |ledgers[0]|)
  {
    hide DayWritten, NumberedAfter;
    if n > 0 {
      InTurnNumbered(p, key, secret, ledgers, dates, days, n - 1);
      DayNumbered(p, key, secret, ledgers[n - 1], dates[n - 1], days[n - 1], ledgers[n]);
      hide NumberedFrom;
      NumberedOn(ledgers[n - 1], ledgers[n], |ledgers[0]|);
    }
  }

  /** After every sync each day block it appended has the number after that of the day right before
      it, and 1 when a summary or genesis is right before it. */
  lemma SyncNumbers(p: Primitives, key: Bytes, secret: Option<Bytes>, before: Books, entries: seq<Entry>, draws: SyncDay.Draws,
                    after: Books)
    requires before.ledger != [] && Synced(p, key, secret, before, entries, draws, after)
    ensures before.ledger <= after.ledger && NumberedFrom(after.ledger, |before.ledger|)
  {
    hide Synced, WrittenInTurn, NumberedFrom;
    var cs, dates, ledgers, days := SyncWrites(p, key, secret, before, entries, draws, after);
    assert |ledgers| == |dates| + 1 by { TurnLength(p, key, secret, ledgers, dates, days); }
    InTurnNumbered(p, key, secret, ledgers, dates, days, |dates|);
  }

  lemma TurnLength(p: Primitives, key: Bytes, secret: Option<Bytes>, ledgers: seq<seq<Block>>, dates: seq<Text>,
                   days: seq<seq<Entry>>)
    requires WrittenInTurn(p, key, secret, ledgers, dates, days)
    ensures |ledgers| == |dates| + 1 == |days| + 1
  {
  }

  // ----- Days under the policy ----------------------------------------------

  /** Entries made of data: in order, each with its hash in the indented layout. */
  ghost predicate AreHashed(p: Primitives, datas: seq<Data>, es: seq<Entry>) {
    |es| == |datas| && forall i :: 0 <= i < |es| ==> es[i] == Entry(p.sha(p.dumpIndented(datas[i])), datas[i])
  }

  /** The chain after one day under the policy. */
  ghost predicate PolicyDayWritten(p: Primitives, key: Bytes, secret: Option<Bytes>, before: seq<Block>, day: DayInput,
                                   after: seq<Block>)
    requires before != []
  {
    exists added, b ::
      && after == before + added + [b]
      && PolicyAdds(p, key, secret, Last(before), day.date, added)
      && HoldsDay(p, key, secret, Last(before + added), day, b)
  }

  ghost predicate HoldsDay(p: Primitives, key: Bytes, secret: Option<Bytes>, prev: Block, day: DayInput, b: Block) {
    exists link, es :: HasHash(prev, link) && AreHashed(p, day.datas, es) && IsDayAfter(p, key, secret, prev, link, day.date, es, b)
  }

  lemma HashedIs(p: Primitives, datas: seq<Data>)
    ensures AreHashed(p, datas, HashedEntries(p, datas))
  {
    forall i | 0 <= i < |datas| ensures HashedEntries(p, datas)[i] == Entry(p.sha(p.dumpIndented(datas[i])), datas[i]) {
      HashedEntriesAt(p, datas, i);
    }
  }

  lemma AddDayWrites(p: Primitives, key: Bytes, secret: Option<Bytes>, chain: seq<Block>, day: DayInput)
    requires chain != [] && AddDay(p, key, secret, chain, day).Some?
    ensures PolicyDayWritten(p, key, secret, chain, day, AddDay(p, key, secret, chain, day).value)
  {
    hide PolicyBlocks, PolicyAdds, HasHash, IsDayAfter, AreHashed, GetBlockHash, SealedBlock, NextDayIndex, DayFields;
    PolicyWrites(p, key, secret, Last(chain), day.date);
    var added := PolicyBlocks(p, key, secret, Last(chain), day.date).value;
    var longer := chain + added;
    var link, es := GetBlockHash(Last(longer)), HashedEntries(p, day.datas);
    HashIs(Last(longer), link);
    HashedIs(p, day.datas);
    DayBuilt(p, key, secret, longer, link, day.date, es);
    assert HoldsDay(p, key, secret, Last(longer), day,
                    DayBlock(p, key, secret, day.datas, link, day.date, NextDayIndex(longer), None));
  }

  lemma PolicySummariesAreNoDays(p: Primitives, key: Bytes, secret: Option<Bytes>, prev: Block, date: Text, added: seq<Block>)
    requires PolicyAdds(p, key, secret, prev, date, added)
    ensures forall i :: 0 <= i < |added| ==> Get(added[i].fields, Type) != Str("day")
  {
    hide HasHash, InPeriod, PolicyAsks, SealedAndSigned;
  }

  lemma PolicyDayNumbered(p: Primitives, key: Bytes, secret: Option<Bytes>, before: seq<Block>, day: DayInput, after: seq<Block>)
    requires before != [] && PolicyDayWritten(p, key, secret, before, day, after)
    ensures before < after && NumberedFrom(after, |before|)
  {
    hide PolicyAdds, NumberedAfter, SealedAndSigned, HasHash, AreHashed;
    var added, b :| after == before + added + [b] && PolicyAdds(p, key, secret, Last(before), day.date, added)
                    && HoldsDay(p, key, secret, Last(before + added), day, b);
    PolicySummariesAreNoDays(p, key, secret, Last(before), day.date, added);
    assert NumberedAfter(Last(before + added), b);
    hide HoldsDay;
    assert forall i :: |before| <= i < |after| - 1 ==> after[i] == added[i - |before|];
    assert after[|after| - 2] == Last(before + added);
  }

  /** Over every run under the policy each day block is written as told and numbered after the
      block before it. */
  lemma {:induction false} RunsNumber(p: Primitives, key: Bytes, secret: Option<Bytes>, chain: seq<Block>, days: seq<DayInput>)
    requires chain != [] && AddDays(p, key, secret, chain, days).Some?
    ensures chain <= AddDays(p, key, secret, chain, days).value
    ensures NumberedFrom(AddDays(p, key, secret, chain, days).value, |chain|)
    ensures days != [] ==>
              var n := |days| - 1;
              && AddDays(p, key, secret, chain, days[..n]).Some?
              && PolicyDayWritten(p, key, secret, AddDays(p, key, secret, chain, days[..n]).value, days[n],
                                  AddDays(p, key, secret, chain, days).value)
  {
    hide AddDay, PolicyDayWritten, NumberedAfter;
    if days != [] {
      var n := |days| - 1;
      RunsNumber(p, key, secret, chain, days[..n]);
      var before, after := AddDays(p, key, secret, chain, days[..n]).value, AddDays(p, key, secret, chain, days).value;
      AddDayWrites(p, key, secret, before, days[n]);
      PolicyDayNumbered(p, key, secret, before, days[n], after);
      hide NumberedFrom;
      NumberedOn(before, after, |chain|);
    }
  }
}
