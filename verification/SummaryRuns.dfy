/**
 Growing a chain day by day under the year/month summary policy.
 */
module SummaryRuns {
  import opened Json
  import opened Blocks
  import opened Chain
  import opened Summaries

  /** A day to commit: its ISO date and its entries' data. */
  datatype DayInput = DayInput(date: Text, datas: seq<Data>)

  /** One committed day: the summaries the policy asks for, then the day block. */
  function AddDay(p: Primitives, key: Bytes, secret: Option<Bytes>, chain: seq<Block>, day: DayInput): Option<seq<Block>>
    requires chain != []
  {
    var summaries :- PolicyBlocks(p, key, secret, chain[|chain| - 1], day.date);
    var longer := chain + summaries;
    Some(longer + [DayBlock(p, key, secret, day.datas, GetBlockHash(longer[|longer| - 1]), day.date,
                            NextDayIndex(longer), None)])
  }

  /** All days in turn; None when a date does not parse. */
  function AddDays(p: Primitives, key: Bytes, secret: Option<Bytes>, chain: seq<Block>, days: seq<DayInput>)
    : (r: Option<seq<Block>>)
    requires chain != []
    ensures r.Some? ==> r.value != []
  {
    if days == [] then Some(chain)
    else
      var before :- AddDays(p, key, secret, chain, days[..|days| - 1]);
      AddDay(p, key, secret, before, days[|days| - 1])
  }

  function With<T>(xs: seq<T>, x: Option<T>): seq<T> {
    if x.Some? then xs + [x.value] else xs
  }

  /** The year a block summarizes, if it is a year summary. */
  function YearLabel(b: Block): Option<int> {
    if Get(b.fields, Type) == Str("year_summary") && Get(b.fields, Year).Int? then Some(b.fields[Year].n) else None
  }

  /** The month a block summarizes, if it is a month summary. */
  function MonthLabel(p: Primitives, b: Block): Option<YearMonth> {
    if Get(b.fields, Type) == Str("month_summary") && Get(b.fields, Month).Str?
    then p.parseMonth(b.fields[Month].s) else None
  }

  /** The years summarized by a chain, in order. */
  function YearLabels(chain: seq<Block>): seq<int> {
    if chain == [] then [] else With(YearLabels(chain[..|chain| - 1]), YearLabel(chain[|chain| - 1]))
  }

  /** The months summarized by a chain, in order. */
  function MonthLabels(p: Primitives, chain: seq<Block>): seq<YearMonth> {
    if chain == [] then [] else With(MonthLabels(p, chain[..|chain| - 1]), MonthLabel(p, chain[|chain| - 1]))
  }

  predicate Earlier(a: YearMonth, b: YearMonth) {
    a.year < b.year || (a.year == b.year && a.month < b.month)
  }

  predicate YearsIncrease(ys: seq<int>) {
    forall i, j :: 0 <= i < j < |ys| ==> ys[i] < ys[j]
  }

  predicate MonthsIncrease(ms: seq<YearMonth>) {
    forall i, j :: 0 <= i < j < |ms| ==> Earlier(ms[i], ms[j])
  }

  /** Labels strictly increase and all lie before the given year and month. */
  predicate LabelsBefore(years: seq<int>, months: seq<YearMonth>, year: int, month: YearMonth) {
    && YearsIncrease(years) && (forall y | y in years :: y < year)
    && MonthsIncrease(months) && (forall m | m in months :: Earlier(m, month))
  }

  function YearMonthOf(d: CivilDate): YearMonth {
    YearMonth(d.year, d.month)
  }

  predicate IsSummary(b: Block) {
    Get(b.fields, Type) == Str("month_summary") || Get(b.fields, Type) == Str("year_summary")
  }

  /** A well-formed chain whose last record is dated `d` and is no summary. */
  ghost predicate Grown(p: Primitives, chain: seq<Block>, d: CivilDate) {
    && chain != [] && AllLinked(chain)
    && RecordDate(p, chain[|chain| - 1]) == Some(d) && ValidDate(d)
    && !IsSummary(chain[|chain| - 1])
    && LabelsBefore(YearLabels(chain), MonthLabels(p, chain), d.year, YearMonthOf(d))
  }

  ghost predicate Links(p: Primitives) {
    SealsAreNonEmpty(p) && MonthsRoundTrip(p)
  }

  lemma LinkedOne(chain: seq<Block>, b: Block)
    requires AllLinked(chain) && chain != [] && Linked(chain[|chain| - 1], b)
    ensures AllLinked(chain + [b])
  {
    var longer := chain + [b];
    forall i | 1 <= i < |longer| ensures Linked(longer[i - 1], longer[i]) {
      assert i < |chain| ==> Linked(chain[i - 1], chain[i]);
    }
  }

  lemma LabelsOfOne(p: Primitives, chain: seq<Block>, b: Block)
    ensures YearLabels(chain + [b]) == With(YearLabels(chain), YearLabel(b))
    ensures MonthLabels(p, chain + [b]) == With(MonthLabels(p, chain), MonthLabel(p, b))
  {
    assert (chain + [b])[..|chain|] == chain;
  }

  lemma AddYear(p: Primitives, key: Bytes, secret: Option<Bytes>, chain: seq<Block>, year: int, date: Text)
    requires Links(p) && chain != [] && AllLinked(chain)
    ensures var b := YearSummary(p, key, secret, year, GetBlockHash(chain[|chain| - 1]), date);
            && AllLinked(chain + [b]) && GetBlockHash(b) == Get(b.fields, YearHash)
            && YearLabels(chain + [b]) == YearLabels(chain) + [year]
            && MonthLabels(p, chain + [b]) == MonthLabels(p, chain)
  {
    hide YearSummary, GetBlockHash;
    var link := GetBlockHash(chain[|chain| - 1]);
    YearSummaryFields(p, key, secret, year, link, date);
    YearSummaryHash(p, key, secret, year, link, date);
    LinkedOne(chain, YearSummary(p, key, secret, year, link, date));
    LabelsOfOne(p, chain, YearSummary(p, key, secret, year, link, date));
  }

  lemma AddMonth(p: Primitives, key: Bytes, secret: Option<Bytes>, chain: seq<Block>, m: YearMonth, date: Text)
    requires Links(p) && chain != [] && AllLinked(chain)
    ensures var b := MonthSummary(p, key, secret, p.monthText(m), GetBlockHash(chain[|chain| - 1]), date);
            && AllLinked(chain + [b])
            && MonthLabels(p, chain + [b]) == MonthLabels(p, chain) + [m]
            && YearLabels(chain + [b]) == YearLabels(chain)
  {
    hide MonthSummary, GetBlockHash;
    var link := GetBlockHash(chain[|chain| - 1]);
    MonthSummaryFields(p, key, secret, p.monthText(m), link, date);
    LinkedOne(chain, MonthSummary(p, key, secret, p.monthText(m), link, date));
    LabelsOfOne(p, chain, MonthSummary(p, key, secret, p.monthText(m), link, date));
  }

  lemma YearAdded(years: seq<int>, year: int)
    requires YearsIncrease(years) && forall y | y in years :: y < year
    ensures YearsIncrease(years + [year])
  {
    forall i, j | 0 <= i < j < |years| + 1 ensures (years + [year])[i] < (years + [year])[j] {
      assert years[i] in years;
    }
  }

  lemma MonthAdded(months: seq<YearMonth>, month: YearMonth)
    requires MonthsIncrease(months) && forall m | m in months :: Earlier(m, month)
    ensures MonthsIncrease(months + [month])
  {
    forall i, j | 0 <= i < j < |months| + 1 ensures Earlier((months + [month])[i], (months + [month])[j]) {
      assert months[i] in months;
    }
  }

  /** The labels a plan adds come after every label so far and before the new day. */
  lemma PlanLabels(prevType: Value, d: CivilDate, c: CivilDate, years: seq<int>, months: seq<YearMonth>)
    requires ValidDate(d) && ValidDate(c) && NotBefore(c, d) && prevType != Str("year_summary")
    requires LabelsBefore(years, months, d.year, YearMonthOf(d))
    ensures var plan := PolicyPlan(prevType, YearMonthOf(d), false, c);
            LabelsBefore(With(years, plan.year), With(months, plan.month), c.year, YearMonthOf(c))
  {
    var plan := PolicyPlan(prevType, YearMonthOf(d), false, c);
    assert !Earlier(YearMonthOf(c), YearMonthOf(d));
    if plan.month.Some? {
      assert !Earlier(plan.month.value, YearMonthOf(d)) && Earlier(plan.month.value, YearMonthOf(c));
      MonthAdded(months, plan.month.value);
    }
    if plan.year.Some? {
      YearAdded(years, plan.year.value);
    }
  }

  /** The blocks of a plan after a linked chain. */
  lemma AddPlan(p: Primitives, key: Bytes, secret: Option<Bytes>, chain: seq<Block>, plan: Plan, date: Text)
    requires Links(p) && chain != [] && AllLinked(chain)
    ensures var s := PlanBlocks(p, key, secret, plan, GetBlockHash(chain[|chain| - 1]), date);
            && |s| <= 2 && AllLinked(chain + s)
            && YearLabels(chain + s) == With(YearLabels(chain), plan.year)
            && MonthLabels(p, chain + s) == With(MonthLabels(p, chain), plan.month)
  {
    hide GetBlockHash, YearSummary, MonthSummary, YearLabels, MonthLabels, AllLinked;
    var s := PlanBlocks(p, key, secret, plan, GetBlockHash(chain[|chain| - 1]), date);
    var mid := chain;
    if plan.year.Some? {
      AddYear(p, key, secret, chain, plan.year.value, date);
      mid := chain + [s[0]];
    }
    if plan.month.Some? {
      AddMonth(p, key, secret, mid, plan.month.value, date);
      assert chain + s == mid + [s[|s| - 1]];
    } else {
      assert chain + s == mid;
    }
  }

  /** The summaries before a day dated `c`, after a chain last dated `d`. */
  lemma AddSummaries(p: Primitives, key: Bytes, secret: Option<Bytes>, chain: seq<Block>, d: CivilDate, date: Text)
    requires Links(p) && Grown(p, chain, d) && p.parseDate(date).Some?
    requires ValidDate(p.parseDate(date).value) && NotBefore(p.parseDate(date).value, d)
    ensures PolicyBlocks(p, key, secret, chain[|chain| - 1], date).Some?
    ensures var c := p.parseDate(date).value;
            var s := PolicyBlocks(p, key, secret, chain[|chain| - 1], date).value;
            && |s| <= 2 && AllLinked(chain + s)
            && LabelsBefore(YearLabels(chain + s), MonthLabels(p, chain + s), c.year, YearMonthOf(c))
  {
    var last, c := chain[|chain| - 1], p.parseDate(date).value;
    var plan := PolicyPlan(Get(last.fields, Type), YearMonthOf(d), false, c);
    assert PolicyPlanFor(p, last, date) == Some(plan);
    hide PolicyPlanFor, PolicyPlan, PlanBlocks, GetBlockHash, YearLabels, MonthLabels, AllLinked, LabelsBefore, RecordDate;
    AddPlan(p, key, secret, chain, plan, date);
    PlanLabels(Get(last.fields, Type), d, c, YearLabels(chain), MonthLabels(p, chain));
  }

  /** One day keeps the chain linked and the labels strictly increasing, and puts
      at most two summaries before the day block. */
  lemma AddDayGrows(p: Primitives, key: Bytes, secret: Option<Bytes>, chain: seq<Block>, d: CivilDate, day: DayInput)
    requires Links(p) && chain != [] && Grown(p, chain, d) && p.parseDate(day.date).Some?
    requires ValidDate(p.parseDate(day.date).value) && NotBefore(p.parseDate(day.date).value, d)
    ensures AddDay(p, key, secret, chain, day).Some?
    ensures var c := AddDay(p, key, secret, chain, day).value;
            && Grown(p, c, p.parseDate(day.date).value) && chain < c && |c| <= |chain| + 3
  {
    hide Grown, PolicyBlocks, PolicyPlanFor, YearLabels, MonthLabels, LabelsBefore, AllLinked, GetBlockHash, DayBlock;
    AddSummaries(p, key, secret, chain, d, day.date);
    var longer := chain + PolicyBlocks(p, key, secret, chain[|chain| - 1], day.date).value;
    var link, index := GetBlockHash(longer[|longer| - 1]), NextDayIndex(longer);
    DayFieldsOf(p, key, secret, day.datas, link, day.date, index);
    DayCompletes(p, longer, DayBlock(p, key, secret, day.datas, link, day.date, index, None), day.date);
  }

  /** A day block after a linked chain whose labels lie before it. */
  lemma DayCompletes(p: Primitives, longer: seq<Block>, b: Block, date: Text)
    requires longer != [] && AllLinked(longer) && Linked(longer[|longer| - 1], b)
    requires p.parseDate(date).Some? && ValidDate(p.parseDate(date).value)
    requires Get(b.fields, Type) == Str("day") && Date in b.fields && b.fields[Date] == Str(date)
    requires LabelsBefore(YearLabels(longer), MonthLabels(p, longer), p.parseDate(date).value.year,
                          YearMonthOf(p.parseDate(date).value))
    ensures Grown(p, longer + [b], p.parseDate(date).value)
  {
    LinkedOne(longer, b);
    LabelsOfOne(p, longer, b);
    hide YearLabels, MonthLabels, LabelsBefore, AllLinked;
  }

  lemma DayFieldsOf(p: Primitives, key: Bytes, secret: Option<Bytes>, datas: seq<Data>, prevHash: Value,
                    date: Text, index: int)
    ensures var f := DayBlock(p, key, secret, datas, prevHash, date, index, None).fields;
            && Get(f, Type) == Str("day") && Get(f, PrevHash) == prevHash
            && Date in f && f[Date] == Str(date)
  {
  }

  function LastDate(p: Primitives, d: CivilDate, days: seq<DayInput>): CivilDate {
    if days != [] && p.parseDate(days[|days| - 1].date).Some? then p.parseDate(days[|days| - 1].date).value else d
  }

  /** Dates that parse, never going back in year and month from `d` on. */
  predicate InOrder(p: Primitives, d: CivilDate, days: seq<DayInput>) {
    days == [] ||
    (var before, last := days[..|days| - 1], p.parseDate(days[|days| - 1].date);
     InOrder(p, d, before) && last.Some? && ValidDate(last.value) && NotBefore(last.value, LastDate(p, d, before)))
  }

  /** Over every run of non-decreasing dates from a genesis: the chain stays
      linked, and no year and no month is ever summarized twice or out of order. */
  lemma {:induction false} RunsGrow(p: Primitives, key: Bytes, secret: Option<Bytes>, chain: seq<Block>, d: CivilDate,
                                    days: seq<DayInput>)
    requires Links(p) && chain != [] && Grown(p, chain, d) && InOrder(p, d, days)
    ensures AddDays(p, key, secret, chain, days).Some?
    ensures var c := AddDays(p, key, secret, chain, days).value;
            && Grown(p, c, LastDate(p, d, days)) && chain <= c && |c| <= |chain| + 3 * |days|
  {
    hide Grown, AddDay;
    if days != [] {
      var before := days[..|days| - 1];
      RunsGrow(p, key, secret, chain, d, before);
      AddDayGrows(p, key, secret, AddDays(p, key, secret, chain, before).value, LastDate(p, d, before), days[|days| - 1]);
    }
  }

  lemma GenesisGrows(p: Primitives, g: Block, d: CivilDate)
    requires Get(g.fields, Type) == Str("genesis") && RecordDate(p, g) == Some(d) && ValidDate(d)
    ensures Grown(p, [g], d)
  {
    assert [g][..0] == [];
    LabelsOfOne(p, [], g);
    assert [] + [g] == [g];
  }

  /** From a genesis on: linked throughout, with every year and every month summarized at most once and in order. */
  lemma RunsFromGenesisGrow(p: Primitives, key: Bytes, secret: Option<Bytes>, g: Block, d: CivilDate, days: seq<DayInput>)
    requires Links(p) && Get(g.fields, Type) == Str("genesis") && RecordDate(p, g) == Some(d) && ValidDate(d)
    requires InOrder(p, d, days)
    ensures AddDays(p, key, secret, [g], days).Some?
    ensures var c := AddDays(p, key, secret, [g], days).value;
            && c != [] && c[0] == g && |c| <= 1 + 3 * |days|
            && AllLinked(c) && YearsIncrease(YearLabels(c)) && MonthsIncrease(MonthLabels(p, c))
  {
    hide AddDays, InOrder, YearLabels, MonthLabels, AllLinked;
    GenesisGrows(p, g, d);
    RunsGrow(p, key, secret, [g], d, days);
  }
}
