/**
 Year and month summary blocks inserted before a day block: the pluggable
 policy, and the inline logic of the sync it was extracted from.
 */
module Summaries {
  import opened Json
  import opened Blocks
  import opened Chain

  function YearBody(year: int, prevHash: Value, date: Text): Data {
    map[Type := Str("year_summary"), Year := Int(year), PrevHash := prevHash, Date := Str(date)]
  }

  function MonthBody(month: Text, prevHash: Value, date: Text): Data {
    map[Type := Str("month_summary"), Month := Str(month), PrevHash := prevHash, Date := Str(date)]
  }

  function YearSummary(p: Primitives, key: Bytes, secret: Option<Bytes>, year: int, prevHash: Value, date: Text): Block {
    SealedBlock(p, key, secret, YearBody(year, prevHash, date), None, YearHash)
  }

  function MonthSummary(p: Primitives, key: Bytes, secret: Option<Bytes>, month: Text, prevHash: Value, date: Text): Block {
    SealedBlock(p, key, secret, MonthBody(month, prevHash, date), None, MonthHash)
  }

  const EPOCH_DATE := "1970-01-01"

  /** The date a record carries, the epoch when it has none. */
  function RecordDate(p: Primitives, b: Block): Option<CivilDate> {
    var d := if Date in b.fields then b.fields[Date] else Str(EPOCH_DATE);
    if d.Str? then p.parseDate(d.s) else None
  }

  /** The year and month the policy takes as those before the new day. */
  function PrevPeriod(p: Primitives, prev: Block): Option<YearMonth> {
    if Get(prev.fields, Type) == Str("month_summary") && Month in prev.fields then
      if prev.fields[Month].Str? then p.parseMonth(prev.fields[Month].s) else None
    else
      var d :- RecordDate(p, prev);
      Some(YearMonth(d.year, d.month))
  }

  /** The month just before a date's month. */
  function MonthBefore(d: CivilDate): YearMonth {
    if d.month == 1 then YearMonth(d.year - 1, 12) else YearMonth(d.year, d.month - 1)
  }

  /** What the policy inserts: a year to summarize, a month to summarize. */
  datatype Plan = Plan(year: Option<int>, month: Option<YearMonth>)

  function PolicyPlan(prevType: Value, prevPeriod: YearMonth, sameMonth: bool, curr: CivilDate): Plan {
    var year := if curr.year > prevPeriod.year && prevType != Str("year_summary") then Some(prevPeriod.year) else None;
    var month := MonthBefore(curr);
    var changed := curr.month != prevPeriod.month || curr.year > prevPeriod.year;
    var decemberCovered := month.month == 12 && curr.year > prevPeriod.year && year.Some?;
    Plan(year, if changed && !sameMonth && !decemberCovered then Some(month) else None)
  }

  /** What the inline logic inserts after a record dated `prev`. */
  function InlinePlan(prevType: Value, prev: CivilDate, curr: CivilDate): Plan {
    var year := if curr.year > prev.year && prevType != Str("year_summary") then Some(prev.year) else None;
    var lastType := if year.Some? then Str("year_summary") else prevType;
    Plan(year, if curr.month > prev.month && lastType != Str("month_summary") then Some(YearMonth(prev.year, prev.month)) else None)
  }

  /** The blocks of a plan, linked after `prevHash`. */
  function PlanBlocks(p: Primitives, key: Bytes, secret: Option<Bytes>, plan: Plan, prevHash: Value, date: Text): seq<Block> {
    var years := if plan.year.Some? then [YearSummary(p, key, secret, plan.year.value, prevHash, date)] else [];
    var link := if years != [] then Get(years[0].fields, YearHash) else prevHash;
    var months := if plan.month.Some?
                  then [MonthSummary(p, key, secret, p.monthText(plan.month.value), link, date)]
                  else [];
    years + months
  }

  function PolicyPlanFor(p: Primitives, prev: Block, date: Text): Option<Plan> {
    var curr :- p.parseDate(date);
    var period :- PrevPeriod(p, prev);
    var month := MonthBefore(curr);
    var sameMonth := Get(prev.fields, Type) == Str("month_summary")
                     && Get(prev.fields, Month) == Str(p.monthText(month));
    Some(PolicyPlan(Get(prev.fields, Type), period, sameMonth, curr))
  }

  /** `get_summary_blocks`; None when a date does not parse. */
  function PolicyBlocks(p: Primitives, key: Bytes, secret: Option<Bytes>, prev: Block, date: Text): Option<seq<Block>> {
    var plan :- PolicyPlanFor(p, prev, date);
    Some(PlanBlocks(p, key, secret, plan, GetBlockHash(prev), date))
  }

  /** The summaries the inline logic writes after `prev`. */
  function InlineSummaries(p: Primitives, key: Bytes, secret: Option<Bytes>, prev: Block, date: Text): Option<seq<Block>> {
    var d :- RecordDate(p, prev);
    var c :- p.parseDate(date);
    Some(PlanBlocks(p, key, secret, InlinePlan(Get(prev.fields, Type), d, c), PrevLink(prev), date))
  }

  method GetSummaryBlocks(p: Primitives, key: Bytes, secret: Option<Bytes>, prev: Block, date: Text)
    returns (r: Option<seq<Block>>)
    ensures r == PolicyBlocks(p, key, secret, prev, date)
  {
    var summaries: seq<Block> := [];
    var parsed := p.parseDate(date);
    if parsed.None? {
      return None;
    }
    var curr := parsed.value;
    var prevHash := GetBlockHash(prev);
    var period := PrevPeriod(p, prev);
    if period.None? {
      return None;
    }
    var YearMonth(prevYear, prevMonth) := period.value;
    if curr.year > prevYear && Get(prev.fields, Type) != Str("year_summary") {
      var year := YearSummary(p, key, secret, prevYear, prevHash, date);
      summaries := summaries + [year];
      prevHash := Get(year.fields, YearHash);
    }
    if curr.month != prevMonth || curr.year > prevYear {
      var summarized := MonthBefore(curr);
      var text := p.monthText(summarized);
      var isSameMonth := Get(prev.fields, Type) == Str("month_summary") && Get(prev.fields, Month) == Str(text);
      var decemberCovered := summarized.month == 12 && curr.year > prevYear && summaries != [];
      if !isSameMonth && !decemberCovered {
        summaries := summaries + [MonthSummary(p, key, secret, text, prevHash, date)];
      }
    }
    assert summaries == PlanBlocks(p, key, secret, PolicyPlanFor(p, prev, date).value, GetBlockHash(prev), date);
    r := Some(summaries);
  }

  // ----- Policy against inline logic ---------------------------------------

  /** Month labels read back as the numbers they were made from. */
  ghost predicate MonthsRoundTrip(p: Primitives) {
    forall m :: p.parseMonth(p.monthText(m)) == Some(m)
  }

  predicate ValidDate(d: CivilDate) {
    1 <= d.month <= 12
  }

  /** The order the two dates are appended in. */
  predicate NotBefore(curr: CivilDate, prev: CivilDate) {
    curr.year > prev.year || (curr.year == prev.year && curr.month >= prev.month)
  }

  /** After an ordinary record the two plans agree exactly when the month is the
      same or the next one of the same year, or a later year starts in January. */
  lemma PlansAgreeIff(prevType: Value, prev: CivilDate, curr: CivilDate)
    requires ValidDate(prev) && ValidDate(curr) && NotBefore(curr, prev)
    requires prevType != Str("year_summary") && prevType != Str("month_summary")
    ensures PolicyPlan(prevType, YearMonth(prev.year, prev.month), false, curr) == InlinePlan(prevType, prev, curr)
       <==> (curr.year == prev.year && curr.month <= prev.month + 1) || (curr.year > prev.year && curr.month == 1)
  {
  }

  /** Different plans make different blocks, and so do different links unless there is no block:
      labels and links are part of them. */
  lemma PlanBlocksInjective(p: Primitives, key: Bytes, secret: Option<Bytes>, a: Plan, x: Value, b: Plan, y: Value, date: Text)
    requires MonthsRoundTrip(p)
    ensures PlanBlocks(p, key, secret, a, x, date) == PlanBlocks(p, key, secret, b, y, date)
       <==> a == b && (x == y || a == Plan(None, None))
  {
    PlanReadBack(p, key, secret, a, x, date);
    PlanReadBack(p, key, secret, b, y, date);
    PlanStart(p, key, secret, a, x, date);
    PlanStart(p, key, secret, b, y, date);
    hide PlanBlocks, PlanOf;
  }

  lemma PlanStart(p: Primitives, key: Bytes, secret: Option<Bytes>, plan: Plan, link: Value, date: Text)
    ensures var blocks := PlanBlocks(p, key, secret, plan, link, date);
            if plan == Plan(None, None) then blocks == [] else blocks != [] && Get(blocks[0].fields, PrevHash) == link
  {
    if plan.year.Some? {
      YearSummaryFields(p, key, secret, plan.year.value, link, date);
    } else if plan.month.Some? {
      MonthSummaryFields(p, key, secret, p.monthText(plan.month.value), link, date);
    }
    hide YearSummary, MonthSummary;
  }

  /** The plan read back from the summary blocks it produced. */
  function PlanOf(p: Primitives, blocks: seq<Block>): Plan {
    Plan(if blocks != [] && Get(blocks[0].fields, Year).Int? then Some(blocks[0].fields[Year].n) else None,
         if blocks != [] && Get(blocks[|blocks| - 1].fields, Month).Str?
         then p.parseMonth(blocks[|blocks| - 1].fields[Month].s) else None)
  }

  lemma PlanReadBack(p: Primitives, key: Bytes, secret: Option<Bytes>, plan: Plan, prevHash: Value, date: Text)
    requires MonthsRoundTrip(p)
    ensures PlanOf(p, PlanBlocks(p, key, secret, plan, prevHash, date)) == plan
  {
    var blocks := PlanBlocks(p, key, secret, plan, prevHash, date);
    if plan.year.Some? {
      YearSummaryFields(p, key, secret, plan.year.value, prevHash, date);
      assert blocks[0] == YearSummary(p, key, secret, plan.year.value, prevHash, date);
    }
    if plan.month.Some? {
      var link := if plan.year.Some? then Get(blocks[0].fields, YearHash) else prevHash;
      var text := p.monthText(plan.month.value);
      MonthSummaryFields(p, key, secret, text, link, date);
      assert blocks[|blocks| - 1] == MonthSummary(p, key, secret, text, link, date);
      assert p.parseMonth(text) == plan.month;
    }
    hide YearSummary, MonthSummary;
    assert |blocks| == (if plan.year.Some? then 1 else 0) + (if plan.month.Some? then 1 else 0);
  }

  lemma YearSummaryFields(p: Primitives, key: Bytes, secret: Option<Bytes>, year: int, prevHash: Value, date: Text)
    ensures var f := YearSummary(p, key, secret, year, prevHash, date).fields;
            && Get(f, Type) == Str("year_summary") && Get(f, Year) == Int(year) && Get(f, Month) == Null
            && Get(f, PrevHash) == prevHash
  {
  }

  lemma MonthSummaryFields(p: Primitives, key: Bytes, secret: Option<Bytes>, month: Text, prevHash: Value, date: Text)
    ensures var f := MonthSummary(p, key, secret, month, prevHash, date).fields;
            && Get(f, Type) == Str("month_summary") && Get(f, Month) == Str(month) && Get(f, Year) == Null
            && Get(f, PrevHash) == prevHash
  {
  }

  /** The next block links to a year summary through its year hash. */
  lemma YearSummaryHash(p: Primitives, key: Bytes, secret: Option<Bytes>, year: int, prevHash: Value, date: Text)
    requires SealsAreNonEmpty(p)
    ensures var b := YearSummary(p, key, secret, year, prevHash, date); GetBlockHash(b) == Get(b.fields, YearHash)
  {
    WrittenBlockFields(p, key, secret, YearBody(year, prevHash, date), None, YearHash);
  }

  /** The same month. */
  predicate SamePeriod(d: CivilDate, c: CivilDate) {
    c.year == d.year && c.month == d.month
  }

  /** The next month of the year, or January of a later one. */
  predicate NextPeriod(d: CivilDate, c: CivilDate) {
    (c.year == d.year && c.month == d.month + 1) || (c.year > d.year && c.month == 1)
  }

  /** On the blocks themselves: after an ordinary record policy and inline logic write
      the same summaries exactly when none is due, or when the next month begins and
      the record has a hash, so that both link to it alike. */
  lemma PolicyMatchesInlineIff(p: Primitives, key: Bytes, secret: Option<Bytes>, prev: Block, date: Text)
    requires MonthsRoundTrip(p) && RecordDate(p, prev).Some? && p.parseDate(date).Some?
    requires var d, c := RecordDate(p, prev).value, p.parseDate(date).value;
             ValidDate(d) && ValidDate(c) && NotBefore(c, d)
    requires Get(prev.fields, Type) != Str("year_summary") && Get(prev.fields, Type) != Str("month_summary")
    ensures var d, c := RecordDate(p, prev).value, p.parseDate(date).value;
            PolicyBlocks(p, key, secret, prev, date) == InlineSummaries(p, key, secret, prev, date)
            <==> SamePeriod(d, c) || (NextPeriod(d, c) && PrevLink(prev) == GetBlockHash(prev))
  {
    var d, c := RecordDate(p, prev).value, p.parseDate(date).value;
    var t := Get(prev.fields, Type);
    PlansAgreeIff(t, d, c);
    PlanBlocksInjective(p, key, secret, PolicyPlan(t, YearMonth(d.year, d.month), false, c), GetBlockHash(prev),
                        InlinePlan(t, d, c), PrevLink(prev), date);
    hide PlanBlocks, GetBlockHash, PrevLink, RecordDate;
  }

  /** After a gap they part: from January to March the policy summarizes February, the inline logic January. */
  lemma GapSummarizesAnotherMonth(p: Primitives, key: Bytes, secret: Option<Bytes>) returns (prev: Block)
    requires MonthsRoundTrip(p)
    requires p.parseDate("2024-01-15") == Some(CivilDate(2024, 1, 15)) && p.parseDate("2024-03-01") == Some(CivilDate(2024, 3, 1))
    ensures IsDay(prev) && GetBlockHash(prev) == PrevLink(prev) == Str("h")
    ensures PolicyBlocks(p, key, secret, prev, "2024-03-01") != InlineSummaries(p, key, secret, prev, "2024-03-01")
  {
    prev := Block(map[Type := Str("day"), Date := Str("2024-01-15"), DayHash := Str("h")], None);
    LinkedByDayHash(prev, "2024-01-15", "h");
    assert RecordDate(p, prev) == Some(CivilDate(2024, 1, 15)) && Get(prev.fields, Type) == Str("day");
    hide PolicyBlocks, InlineSummaries, GetBlockHash, PrevLink, RecordDate, Get;
    PolicyMatchesInlineIff(p, key, secret, prev, "2024-03-01");
  }

  lemma LinkedByDayHash(b: Block, date: Text, hash: Text)
    requires b == Block(map[Type := Str("day"), Date := Str(date), DayHash := Str(hash)], None) && hash != ""
    ensures IsDay(b) && GetBlockHash(b) == PrevLink(b) == Str(hash)
  {
  }
}
