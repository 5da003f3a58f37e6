/**
 The staging area and the ledger it is synced into, as one object.
 */
module LedgerDomains {
  import opened Json
  import opened TextOrder
  import opened Picking
  import opened Blocks
  import opened ContentHashes
  import opened Chain
  import opened Summaries
  import opened EntryCommit
  import opened SyncDay

  /** The result of a sync: nothing to do, an exception, or the start of the new last hash. */
  datatype SyncOutcome = Nothing | Failed | Done(lastHash: Text)

  /** The first ten characters of a day block's hash. */
  ghost predicate StartsHashOf(b: Block, start: Text) {
    exists t :: Get(b.fields, DayHash) == Str(t) && start == if |t| < 10 then t else t[..10]
  }

  /** `(block_hash or day_hash)[:10]`. */
  function Start(b: Block): Text
    requires Or(Get(b.fields, BlockHash), Get(b.fields, DayHash)).Str?
  {
    var t := Or(Get(b.fields, BlockHash), Get(b.fields, DayHash)).s;
    if |t| < 10 then t else t[..10]
  }

  // ----- Selections ---------------------------------------------------------

  /** Changes the user made to a selected entry. */
  datatype Override = Override(endEpoch: Option<int>, comment: Option<Value>, media: Option<Value>)

  /** The entries whose position and content satisfy `f`, in order. */
  function Keep(es: seq<Entry>, f: (nat, Entry) -> bool): seq<Entry> {
    if es == [] then []
    else
      var n := |es| - 1;
      var before := Keep(es[..n], f);
      if f(n, es[n]) then before + [es[n]] else before
  }

  function Active(es: seq<Entry>): seq<Entry> {
    Keep(es, (i, e) => IsActiveEntry(e))
  }

  function Completed(es: seq<Entry>): seq<Entry> {
    Keep(es, (i, e) => !IsActiveEntry(e))
  }

  /** `_compute_duration` from the total of the closed pauses. */
  function DurationFrom(start: int, end: int, paused: int): int {
    if end - start - paused < 0 then 0 else end - start - paused
  }

  /** The pauses text of an entry, re-encrypted when it was in "plain:" form. */
  function ReconciledPauses(p: Primitives, key: Bytes, d: Data, draws: FieldDraws): Option<(Data, Text)> {
    var v := Get(d, Enc(Pauses));
    if v == Null then Some((d, "[]"))
    else
      var t :- ReadText(p, key, v);
      Some((if IsPlain(v.s) then d[Enc(Pauses) := Fresh(p, key, p.dumpPauses(t), draws, Enc(Pauses))] else d, t))
  }

  function WithNewEnd(p: Primitives, key: Bytes, d: Data, end: int, draws: FieldDraws): Option<Data> {
    var ended := d[Enc(EndTime) := Fresh(p, key, p.showInt(end), draws, Enc(EndTime))];
    var start :- ReadInt(p, key, Get(ended, Enc(StartTime)));
    var (reconciled, pauses) :- ReconciledPauses(p, key, ended, draws);
    var paused :- p.pausedTime(pauses);
    Some(reconciled[Duration := Int(DurationFrom(start, end, paused))])
  }

  function Overridden(p: Primitives, key: Bytes, d: Data, ov: Override, draws: FieldDraws): Option<Data> {
    var d1 :- if ov.endEpoch.Some? then WithNewEnd(p, key, d, ov.endEpoch.value, draws) else Some(d);
    var d2 := if ov.comment.Some? then d1[Comment := ov.comment.value] else d1;
    Some(if ov.media.Some? then d2[Media := ov.media.value] else d2)
  }

  predicate Within(staging: seq<Entry>, indices: seq<nat>) {
    forall k :: 0 <= k < |indices| ==> indices[k] < |staging|
  }

  /** The selected positions that hold a completed entry, in iteration order. */
  function Chosen(staging: seq<Entry>, order: seq<nat>): (r: seq<nat>)
    ensures Within(staging, r)
  {
    if order == [] then []
    else
      var i := order[|order| - 1];
      var before := Chosen(staging, order[..|order| - 1]);
      if i < |staging| && !IsActiveEntry(staging[i]) then before + [i] else before
  }

  /** The staging area after normalizing the chosen entries in place, and those
      of them that decrypted. */
  datatype Selection = Selection(staging: seq<Entry>, kept: seq<nat>)

  function NormalizeChosen(p: Primitives, key: Bytes, staging: seq<Entry>, chosen: seq<nat>): (r: Selection)
    requires Within(staging, chosen)
    ensures |r.staging| == |staging| && Within(r.staging, r.kept)
  {
    if chosen == [] then Selection(staging, [])
    else
      var before := NormalizeChosen(p, key, staging, chosen[..|chosen| - 1]);
      var i := chosen[|chosen| - 1];
      var (d, ok) := Normalized(p, key, before.staging[i].data, NORMALIZED_FIELDS);
      Selection(before.staging[i := before.staging[i].(data := d)], if ok then before.kept + [i] else before.kept)
  }

  /** The entries to sync: the kept ones with their overrides applied. An override
      is looked up by the position's place in the caller's list. */
  function Selected(p: Primitives, key: Bytes, s: Selection, indices: seq<nat>, overrides: map<nat, Override>,
                    draws: Draws, n: nat): (r: Option<seq<Entry>>)
    requires n <= |s.kept| && Within(s.staging, s.kept)
    ensures r.Some? ==> |r.value| == n
  {
    if n == 0 then Some([])
    else
      var before :- Selected(p, key, s, indices, overrides, draws, n - 1);
      var d := s.staging[s.kept[n - 1]].data;
      var data :- if n - 1 < |indices| && indices[n - 1] in overrides
                  then Overridden(p, key, d, overrides[indices[n - 1]], draws(n - 1)) else Some(d);
      Some(before + [Entry(CompactEntryHash(p, data), data)])
  }

  /** What stays staged: active entries and those neither synced nor removed. */
  function Remaining(staging: seq<Entry>, synced: seq<nat>, removals: set<nat>): seq<Entry> {
    Keep(staging, (i, e) => IsActiveEntry(e) || (i !in synced && i !in removals))
  }

  /** The completed entries the user removed without syncing them. */
  function RemovedEntries(staging: seq<Entry>, synced: seq<nat>, removals: set<nat>): seq<Entry> {
    Keep(staging, (i, e) => !IsActiveEntry(e) && i !in synced && i in removals)
  }

  // ----- Which entries these are --------------------------------------------

  /** The places of the entries that are still active, and of the others. */
  ghost function ActiveAt(es: seq<Entry>): (at: set<nat>)
    ensures forall i: nat :: i in at <==> i < |es| && Truthy(Get(es[i].data, IsActive))
  {
    set i: nat | i < |es| && Truthy(Get(es[i].data, IsActive))
  }

  ghost function CompletedAt(es: seq<Entry>): (at: set<nat>)
    ensures forall i: nat :: i in at <==> i < |es| && !Truthy(Get(es[i].data, IsActive))
  {
    set i: nat | i < |es| && !Truthy(Get(es[i].data, IsActive))
  }

  /** The places of the entries that are active, or neither synced nor removed. */
  ghost function StayingAt(es: seq<Entry>, synced: seq<nat>, removals: set<nat>): (at: set<nat>)
    ensures forall i: nat :: i in at <==>
              i < |es| && (Truthy(Get(es[i].data, IsActive)) || (i !in synced && i !in removals))
  {
    set i: nat | i < |es| && (Truthy(Get(es[i].data, IsActive)) || (i !in synced && i !in removals))
  }

  lemma {:induction false} KeepIs(es: seq<Entry>, f: (nat, Entry) -> bool, at: set<nat>)
    requires forall i: nat :: i in at <==> i < |es| && f(i, es[i])
    ensures PickedFrom(es, at, Keep(es, f))
  {
    hide PickedFrom;
    if es == [] {
      PickedNone(es);
      assert at == {};
    } else {
      var n := |es| - 1;
      var before := at - {n};
      KeepIs(es[..n], f, before);
      assert es == es[..n] + [es[n]];
      if f(n, es[n]) {
        PickedNext(es[..n], es[n], before, Keep(es[..n], f));
        assert at == before + {n};
      } else {
        PickedSkip(es[..n], es[n], before, Keep(es[..n], f));
        assert at == before;
      }
    }
  }

  lemma ActiveAndCompleted(es: seq<Entry>)
    ensures PickedFrom(es, ActiveAt(es), Active(es)) && PickedFrom(es, CompletedAt(es), Completed(es))
  {
    hide PickedFrom, Keep;
    KeepIs(es, (i, e) => IsActiveEntry(e), ActiveAt(es));
    KeepIs(es, (i, e) => !IsActiveEntry(e), CompletedAt(es));
  }

  lemma RemainingAre(es: seq<Entry>, synced: seq<nat>, removals: set<nat>)
    ensures PickedFrom(es, StayingAt(es, synced, removals), Remaining(es, synced, removals))
  {
    hide PickedFrom, Keep;
    KeepIs(es, (i, e) => IsActiveEntry(e) || (i !in synced && i !in removals), StayingAt(es, synced, removals));
  }

  /** The visited places that hold a completed entry. */
  ghost function ChosenAt(staging: seq<Entry>, order: seq<nat>): (at: set<nat>)
    ensures forall k: nat :: k in at <==>
              k < |order| && order[k] < |staging| && !Truthy(Get(staging[order[k]].data, IsActive))
  {
    set k: nat | k < |order| && order[k] < |staging| && !Truthy(Get(staging[order[k]].data, IsActive))
  }

  lemma {:induction false} ChosenAre(staging: seq<Entry>, order: seq<nat>)
    ensures PickedFrom(order, ChosenAt(staging, order), Chosen(staging, order))
  {
    hide PickedFrom;
    if order == [] {
      PickedNone(order);
      assert ChosenAt(staging, order) == {};
    } else {
      var n := |order| - 1;
      ChosenAre(staging, order[..n]);
      assert order == order[..n] + [order[n]];
      if order[n] < |staging| && !IsActiveEntry(staging[order[n]]) {
        PickedNext(order[..n], order[n], ChosenAt(staging, order[..n]), Chosen(staging, order[..n]));
        assert ChosenAt(staging, order) == ChosenAt(staging, order[..n]) + {n};
      } else {
        PickedSkip(order[..n], order[n], ChosenAt(staging, order[..n]), Chosen(staging, order[..n]));
        assert ChosenAt(staging, order) == ChosenAt(staging, order[..n]);
      }
    }
  }

  /** Every one of the four encrypted fields of an entry is in the clear or decrypts. */
  ghost predicate Normalizes(p: Primitives, key: Bytes, d: Data) {
    forall f | f in STRUCTURAL :: InTheClear(Get(d, f)) || p.decrypt(key, Get(d, f).s).Some?
  }

  ghost function KeptAt(p: Primitives, key: Bytes, staging: seq<Entry>, chosen: seq<nat>): (at: set<nat>)
    requires Within(staging, chosen)
    ensures forall k: nat :: k in at <==> k < |chosen| && Normalizes(p, key, staging[chosen[k]].data)
  {
    set k: nat | k < |chosen| && Normalizes(p, key, staging[chosen[k]].data)
  }

  /** No entry is touched that is not chosen, and a chosen one is normalized as it was at first. */
  lemma {:induction false} TouchedAre(p: Primitives, key: Bytes, staging: seq<Entry>, chosen: seq<nat>, i: nat)
    requires Within(staging, chosen) && Distinct(chosen) && i < |staging|
    ensures var after := NormalizeChosen(p, key, staging, chosen).staging[i];
            if i in chosen then after == staging[i].(data := Normalized(p, key, staging[i].data, NORMALIZED_FIELDS).0)
            else after == staging[i]
  {
    hide Normalized;
    if chosen != [] {
      var n := |chosen| - 1;
      assert chosen == chosen[..n] + [chosen[n]];
      TouchedAre(p, key, staging, chosen[..n], i);
    }
  }

  lemma KeptGrow(p: Primitives, key: Bytes, staging: seq<Entry>, chosen: seq<nat>)
    requires Within(staging, chosen) && chosen != []
    ensures var n := |chosen| - 1;
            var before := KeptAt(p, key, staging, chosen[..n]);
            KeptAt(p, key, staging, chosen)
            == if Normalizes(p, key, staging[chosen[n]].data) then before + {n} else before
  {
    hide Normalizes;
  }

  /** Of the chosen entries those are kept that normalize. */
  lemma {:induction false} KeptAre(p: Primitives, key: Bytes, staging: seq<Entry>, chosen: seq<nat>)
    requires Within(staging, chosen) && Distinct(chosen)
    ensures PickedFrom(chosen, KeptAt(p, key, staging, chosen), NormalizeChosen(p, key, staging, chosen).kept)
  {
    hide PickedFrom, Normalized, Normalizes, KeptAt;
    if chosen == [] {
      PickedNone(chosen);
      assert KeptAt(p, key, staging, chosen) == {} by { NoneKept(p, key, staging); }
    } else {
      var n := |chosen| - 1;
      var init, i := chosen[..n], chosen[n];
      KeptAre(p, key, staging, init);
      KeptGrow(p, key, staging, chosen);
      TouchedAre(p, key, staging, init, i);
      NormalizesIff(p, key, staging[i].data);
      assert chosen == init + [i];
      KeptStep(p, key, staging, chosen);
      hide NormalizeChosen;
      if Normalizes(p, key, staging[i].data) {
        PickedNext(init, i, KeptAt(p, key, staging, init), NormalizeChosen(p, key, staging, init).kept);
      } else {
        PickedSkip(init, i, KeptAt(p, key, staging, init), NormalizeChosen(p, key, staging, init).kept);
      }
    }
  }

  lemma NoneKept(p: Primitives, key: Bytes, staging: seq<Entry>)
    ensures KeptAt(p, key, staging, []) == {}
  {
  }

  lemma KeptStep(p: Primitives, key: Bytes, staging: seq<Entry>, chosen: seq<nat>)
    requires Within(staging, chosen) && chosen != []
    ensures var n := |chosen| - 1;
            var before := NormalizeChosen(p, key, staging, chosen[..n]);
            NormalizeChosen(p, key, staging, chosen).kept
            == if Normalized(p, key, before.staging[chosen[n]].data, NORMALIZED_FIELDS).1 then before.kept + [chosen[n]]
               else before.kept
  {
    hide Normalized;
  }

  lemma PickedByOrder(p: Primitives, key: Bytes, staging: seq<Entry>, order: seq<nat>)
    ensures var chosen := Chosen(staging, order);
            && PickedFrom(order, ChosenAt(staging, order), chosen)
            && (Distinct(order) ==>
                  PickedFrom(chosen, KeptAt(p, key, staging, chosen), NormalizeChosen(p, key, staging, chosen).kept))
  {
    hide PickedFrom, Normalizes, Normalized;
    ChosenAre(staging, order);
    if Distinct(order) {
      ChosenFrom(staging, order);
      KeptAre(p, key, staging, Chosen(staging, order));
    }
  }

  lemma NormalizesIff(p: Primitives, key: Bytes, d: Data)
    ensures Normalizes(p, key, d) <==> Normalized(p, key, d, NORMALIZED_FIELDS).1
  {
    hide Normalized;
    NormalizedIff(p, key, d);
  }

  predicate Distinct(ks: seq<nat>) {
    forall i, j :: 0 <= i < j < |ks| ==> ks[i] != ks[j]
  }

  // ----- The object ---------------------------------------------------------

  class LedgerDomain {
    const p: Primitives
    const key: Bytes
    const secret: Option<Bytes>
    var staging: seq<Entry>
    var ledger: seq<Block>
    var index: Index

    constructor (p: Primitives, key: Bytes, secret: Option<Bytes>, staging: seq<Entry>, ledger: seq<Block>, index: Index)
      ensures this.p == p && this.key == key && this.secret == secret
      ensures this.staging == staging && this.ledger == ledger && this.index == index
    {
      this.p, this.key, this.secret := p, key, secret;
      this.staging, this.ledger, this.index := staging, ledger, index;
    }

    /** The year and month boundary checks of the sync loop. */
    method InsertSummaries(before: seq<Block>, date: Text) returns (r: Option<seq<Block>>)
      requires before != []
      ensures match InlineSummaries(p, key, secret, before[|before| - 1], date)
              case Some(s) => r == Some(before + s)
              case None => r.None?
    {
      var ledger' := before;
      var prev := before[|before| - 1];
      var prevDate := RecordDate(p, prev);
      var currDate := p.parseDate(date);
      if prevDate.None? || currDate.None? {
        return None;
      }
      var link := PrevLink(prev);
      var lastType := Get(prev.fields, Type);
      if currDate.value.year > prevDate.value.year && lastType != Str("year_summary") {
        var year := YearSummary(p, key, secret, prevDate.value.year, link, date);
        ledger' := ledger' + [year];
        link, lastType := Get(year.fields, YearHash), Str("year_summary");
      }
      if currDate.value.month > prevDate.value.month && lastType != Str("month_summary") {
        var text := p.monthText(YearMonth(prevDate.value.year, prevDate.value.month));
        ledger' := ledger' + [MonthSummary(p, key, secret, text, link, date)];
      }
      assert ledger' == before + InlineSummaries(p, key, secret, prev, date).value;
      r := Some(ledger');
    }

    /** The index part of one day of the sync loop. */
    method UpdateIndex(before: Index, date: Text, entries: seq<Entry>) returns (r: Option<Index>)
      ensures r == PostedIndex(before, date, entries)
    {
      var index' := Touched(before, date);
      for i := 0 to |entries|
        invariant PostedIndex(before, date, entries[..i]) == Some(index')
      {
        assert entries[..i + 1][..i] == entries[..i];
        var title, duration := Get(entries[i].data, Title), Get(entries[i].data, Duration);
        if !title.Str? || !duration.Int? {
          IndexFailsOnce(before, date, entries, i + 1);
          return None;
        }
        index' := index'[date := index'[date][title.s := At(index', date, title.s) + duration.n]];
      }
      assert entries[..|entries|] == entries;
      r := Some(index');
    }

    /** One day of the sync loop. */
    method PostOneDay(books: Books, date: Text, entries: seq<Entry>) returns (r: Option<Books>)
      requires books.ledger != []
      ensures r == PostDay(p, key, secret, books, date, entries)
    {
      var ledger' := InsertSummaries(books.ledger, date);
      if ledger'.None? {
        return None;
      }
      var index' := UpdateIndex(books.index, date, entries);
      if index'.None? {
        return None;
      }
      r := Some(Books(ledger'.value + [DayOf(p, key, secret, ledger'.value, date, entries)], index'.value));
    }

    /** Grouping by day, then posting the days in order. */
    method PostCommitted(cs: seq<Dated>) returns (r: Option<Books>, ghost dates: seq<Text>)
      requires ledger != []
      ensures ListsDates(dates, cs) && r == PostDays(p, key, secret, Books(ledger, index), dates, cs)
    {
      var days := GroupByDate(cs);
      hide EntriesOn, PostDay;
      var sorted := SortTexts(days.Keys);
      dates := sorted;
      var books := Books(ledger, index);
      for j := 0 to |sorted|
        invariant PostDays(p, key, secret, Books(ledger, index), sorted[..j], cs) == Some(books) && books.ledger != []
      {
        assert sorted[..j + 1][..j] == sorted[..j];
        assert sorted[j] in sorted;
        var next := PostOneDay(books, sorted[j], days[sorted[j]]);
        if next.None? {
          DaysFailOnce(p, key, secret, Books(ledger, index), sorted, cs, j + 1);
          return None, sorted;
        }
        books := next.value;
      }
      assert sorted[..|sorted|] == sorted;
      r := Some(books);
    }

    /** The committed entries of each date, in order. */
    static method GroupByDate(cs: seq<Dated>) returns (days: map<Text, seq<Entry>>)
      ensures days.Keys == DatesOf(cs)
      ensures forall d :: d in days ==> days[d] == EntriesOn(cs, d)
    {
      days := map[];
      for i := 0 to |cs|
        invariant forall d :: d in days.Keys <==> d in DatesOf(cs[..i])
        invariant forall d :: d in days ==> days[d] == EntriesOn(cs[..i], d)
        invariant forall d :: d !in days ==> EntriesOn(cs[..i], d) == []
      {
        assert cs[..i + 1][..i] == cs[..i];
        assert cs[..i + 1] == cs[..i] + [cs[i]];
        var date := cs[i].date;
        if date !in days {
          days := days[date := []];
        }
        days := days[date := days[date] + [cs[i].entry]];
      }
      assert cs[..|cs|] == cs;
    }

    method SyncDay(draws: Draws) returns (o: SyncOutcome)
      modifies this
      ensures o == Nothing <==> Completed(old(staging)) == []
      ensures PickedFrom(old(staging), CompletedAt(old(staging)), Completed(old(staging)))
      ensures o.Done? ==>
        PickedFrom(old(staging), ActiveAt(old(staging)), staging) && ledger != [] && StartsHashOf(ledger[|ledger| - 1], o.lastHash)
      ensures !o.Done? ==> staging == old(staging) && ledger == old(ledger) && index == old(index)
      ensures o.Done? ==>
        && old(ledger) != [] && staging == Active(old(staging))
        && Synced(p, key, secret, Books(old(ledger), old(index)), Completed(old(staging)), draws, Books(ledger, index))
      ensures o == Failed ==>
        old(ledger) == [] ||
        forall after :: !Synced(p, key, secret, Books(old(ledger), old(index)), Completed(old(staging)), draws, after)
    {
      hide PickedFrom, Active, Completed, StartsHashOf, Synced;
      ActiveAndCompleted(staging);
      var toSync := Completed(staging);
      if toSync == [] {
        return Nothing;
      }
      var books, start := PostEntries(toSync, draws);
      if books.None? {
        return Failed;
      }
      ledger, index := books.value.ledger, books.value.index;
      staging := Active(staging);
      o := Done(start);
    }

    /** What both syncs do with the entries to write: commit them, group them by day and post the
        days; also the start of the last day's hash. */
    method PostEntries(entries: seq<Entry>, draws: Draws) returns (r: Option<Books>, start: Text)
      requires entries != []
      ensures r.Some? ==>
        && ledger != [] && Synced(p, key, secret, Books(ledger, index), entries, draws, r.value)
        && r.value.ledger != [] && StartsHashOf(r.value.ledger[|r.value.ledger| - 1], start)
      ensures r.None? ==>
        ledger == [] || forall after :: !Synced(p, key, secret, Books(ledger, index), entries, draws, after)
    {
      hide StartsHashOf, PostDays, ListsDates, Get, Or;
      var cs := CommitEntries(entries, draws);
      if cs.None? || ledger == [] {
        return None, "";
      }
      var books, dates := PostCommitted(cs.value);
      if books.None? {
        NotSynced(p, key, secret, Books(ledger, index), entries, draws, dates);
        return None, "";
      }
      LastIsHashedDay(p, key, secret, Books(ledger, index), dates, cs.value);
      r, start := books, Start(books.value.ledger[|books.value.ledger| - 1]);
    }

    method CommitEntries(es: seq<Entry>, draws: Draws) returns (r: Option<seq<Dated>>)
      ensures r == CommitAll(p, key, es, draws)
    {
      var cs: seq<Dated> := [];
      for i := 0 to |es|
        invariant CommitAll(p, key, es[..i], draws) == Some(cs)
      {
        assert es[..i + 1][..i] == es[..i];
        var c := Commit(p, key, es[i].data, draws(i));
        if c.None? {
          CommitFailsOnce(p, key, es, draws, i + 1);
          return None;
        }
        cs := cs + [c.value];
      }
      assert es[..|es|] == es;
      r := Some(cs);
    }

    method SyncDayWithSelection(indices: seq<nat>, order: seq<nat>, overrides: map<nat, Override>,
                                removals: set<nat>, draws: Draws) returns (o: SyncOutcome)
      requires forall i :: i in order <==> i in indices
      modifies this
      ensures !o.Done? ==> staging == old(staging) && ledger == old(ledger) && index == old(index)
      ensures o.Done? ==>
        && old(ledger) != []
        && var s := NormalizeChosen(p, key, old(staging), Chosen(old(staging), order));
           var entries := Selected(p, key, s, indices, overrides, draws, |s.kept|);
           && entries.Some?
           && Synced(p, key, secret, Books(old(ledger), old(index)), entries.value, draws, Books(ledger, index))
           && staging == Remaining(s.staging, s.kept, removals)
      ensures o == Nothing <==> NormalizeChosen(p, key, old(staging), Chosen(old(staging), order)).kept == []
      ensures o.Done? ==> ledger != [] && StartsHashOf(ledger[|ledger| - 1], o.lastHash)
      ensures o == Failed ==>
        var s := NormalizeChosen(p, key, old(staging), Chosen(old(staging), order));
        var entries := Selected(p, key, s, indices, overrides, draws, |s.kept|);
        old(ledger) == [] || entries.None? ||
        forall after :: !Synced(p, key, secret, Books(old(ledger), old(index)), entries.value, draws, after)
    {
      hide Chosen, NormalizeChosen, Selected, Remaining, StartsHashOf, Synced;
      var chosen := Chosen(staging, order);
      var s := NormalizeChosen(p, key, staging, chosen);
      if s.kept == [] {
        return Nothing;
      }
      var entries := Selected(p, key, s, indices, overrides, draws, |s.kept|);
      if entries.None? {
        return Failed;
      }
      var books, start := PostEntries(entries.value, draws);
      if books.None? {
        return Failed;
      }
      ledger, index := books.value.ledger, books.value.index;
      staging := Remaining(s.staging, s.kept, removals);
      o := Done(start);
    }
  }

  /** After days were posted the last block is a day block with its hash. */
  lemma LastIsHashedDay(p: Primitives, key: Bytes, secret: Option<Bytes>, books: Books, dates: seq<Text>, cs: seq<Dated>)
    requires books.ledger != [] && ListsDates(dates, cs) && cs != [] && PostDays(p, key, secret, books, dates, cs).Some?
    ensures var after := PostDays(p, key, secret, books, dates, cs).value.ledger;
            && Or(Get(after[|after| - 1].fields, BlockHash), Get(after[|after| - 1].fields, DayHash)).Str?
            && StartsHashOf(after[|after| - 1], Start(after[|after| - 1]))
  {
    assert cs[0].date in dates;
    hide PostedLedger, PostedIndex, ListsDates, PostDay, StartsHashOf;
    var n := |dates| - 1;
    var before, es := PostDays(p, key, secret, books, dates[..n], cs).value, EntriesOn(cs, dates[n]);
    PostedLedgerOf(p, key, secret, before, dates[n], es);
    PostedEndsHashed(p, key, secret, before.ledger, dates[n], es);
  }

  lemma PostedEndsHashed(p: Primitives, key: Bytes, secret: Option<Bytes>, ledger: seq<Block>, date: Text, es: seq<Entry>)
    requires ledger != [] && PostedLedger(p, key, secret, ledger, date, es).Some?
    ensures var after := PostedLedger(p, key, secret, ledger, date, es).value;
            && Or(Get(after[|after| - 1].fields, BlockHash), Get(after[|after| - 1].fields, DayHash)).Str?
            && StartsHashOf(after[|after| - 1], Start(after[|after| - 1]))
  {
    hide InlineSummaries, DayOf, StartsHashOf, Or;
    DayHashed(p, key, secret, ledger + InlineSummaries(p, key, secret, ledger[|ledger| - 1], date).value, date, es);
  }

  lemma DayHashed(p: Primitives, key: Bytes, secret: Option<Bytes>, ledger: seq<Block>, date: Text, es: seq<Entry>)
    requires ledger != []
    ensures var b := DayOf(p, key, secret, ledger, date, es);
            Or(Get(b.fields, BlockHash), Get(b.fields, DayHash)).Str? && StartsHashOf(b, Start(b))
  {
    hide PrevLink, NextDayIndex;
  }

  lemma {:induction false} IndexFailsOnce(index: Index, date: Text, entries: seq<Entry>, n: nat)
    requires n <= |entries| && PostedIndex(index, date, entries[..n]).None?
    ensures PostedIndex(index, date, entries).None?
    decreases |entries| - n
  {
    if n < |entries| {
      assert entries[..n + 1][..n] == entries[..n];
      IndexFailsOnce(index, date, entries, n + 1);
    } else {
      assert entries[..n] == entries;
    }
  }

  lemma {:induction false} CommitFailsOnce(p: Primitives, key: Bytes, es: seq<Entry>, draws: Draws, n: nat)
    requires n <= |es| && CommitAll(p, key, es[..n], draws).None?
    ensures CommitAll(p, key, es, draws).None?
    decreases |es| - n
  {
    hide Commit;
    if n < |es| {
      assert es[..n + 1][..n] == es[..n];
      CommitFailsOnce(p, key, es, draws, n + 1);
    } else {
      assert es[..n] == es;
    }
  }

  lemma {:induction false} DaysFailOnce(p: Primitives, key: Bytes, secret: Option<Bytes>, books: Books,
                                        dates: seq<Text>, cs: seq<Dated>, n: nat)
    requires books.ledger != [] && n <= |dates| && PostDays(p, key, secret, books, dates[..n], cs).None?
    ensures PostDays(p, key, secret, books, dates, cs).None?
    decreases |dates| - n
  {
    hide PostDay;
    if n < |dates| {
      assert dates[..n + 1][..n] == dates[..n];
      DaysFailOnce(p, key, secret, books, dates, cs, n + 1);
    } else {
      assert dates[..n] == dates;
    }
  }

  /** The days are posted in the one ascending order, so a failure there means
      there is nothing the sync could have written. */
  lemma NotSynced(p: Primitives, key: Bytes, secret: Option<Bytes>, before: Books, es: seq<Entry>, draws: Draws, dates: seq<Text>)
    requires before.ledger != [] && CommitAll(p, key, es, draws).Some?
    requires ListsDates(dates, CommitAll(p, key, es, draws).value)
    requires PostDays(p, key, secret, before, dates, CommitAll(p, key, es, draws).value).None?
    ensures forall after :: !Synced(p, key, secret, before, es, draws, after)
  {
    hide PostDays, CommitAll;
    var cs := CommitAll(p, key, es, draws).value;
    forall after ensures !Synced(p, key, secret, before, es, draws, after) {
      if Synced(p, key, secret, before, es, draws, after) {
        var other :| ListsDates(other, cs) && PostDays(p, key, secret, before, other, cs) == Some(after);
        AscendingIsUnique(dates, other);
      }
    }
  }

  // ----- What a sync conserves ---------------------------------------------

  lemma KeepStep(p: Primitives, key: Bytes, es: seq<Entry>, f: (nat, Entry) -> bool)
    requires es != []
    ensures var n := |es| - 1;
            (Views(p, key, Keep(es, f))
             == Views(p, key, Keep(es[..n], f)) + (if f(n, es[n]) then multiset{View(p, key, es[n].data)} else multiset{}))
  {
    hide View;
    var before := Keep(es[..|es| - 1], f);
    assert (before + [es[|es| - 1]])[..|before|] == before;
  }

  /** Splitting a list in two by position or content splits what it says. */
  lemma {:induction false} KeepSplit(p: Primitives, key: Bytes, es: seq<Entry>, f: (nat, Entry) -> bool,
                                     g: (nat, Entry) -> bool, h: (nat, Entry) -> bool)
    requires forall i: nat :: i < |es| ==>
               (f(i, es[i]) <==> g(i, es[i]) || h(i, es[i])) && !(g(i, es[i]) && h(i, es[i]))
    ensures Views(p, key, Keep(es, f)) == Views(p, key, Keep(es, g)) + Views(p, key, Keep(es, h))
  {
    if es != [] {
      KeepSplit(p, key, es[..|es| - 1], f, g, h);
      KeepStep(p, key, es, f);
      KeepStep(p, key, es, g);
      KeepStep(p, key, es, h);
      hide Views, Keep, View;
    }
  }

  lemma {:induction false} KeepNone(es: seq<Entry>, f: (nat, Entry) -> bool)
    requires forall i: nat :: i < |es| ==> !f(i, es[i])
    ensures Keep(es, f) == []
  {
    if es != [] {
      KeepNone(es[..|es| - 1], f);
    }
  }

  lemma {:induction false} KeepAll(es: seq<Entry>, f: (nat, Entry) -> bool)
    requires forall i: nat :: i < |es| ==> f(i, es[i])
    ensures Keep(es, f) == es
  {
    if es != [] {
      KeepAll(es[..|es| - 1], f);
    }
  }

  lemma {:induction false} KeepOne(es: seq<Entry>, f: (nat, Entry) -> bool, i: nat)
    requires i < |es| && forall j: nat :: j < |es| ==> (f(j, es[j]) <==> j == i)
    ensures Keep(es, f) == [es[i]]
  {
    var n := |es| - 1;
    if i == n {
      KeepNone(es[..n], f);
    } else {
      KeepOne(es[..n], f, i);
    }
  }

  /** Normalizing in place, also when it stops half way, changes nothing said. */
  lemma {:induction false} NormalizingKeepsViews(p: Primitives, key: Bytes, staging: seq<Entry>, chosen: seq<nat>)
    requires Within(staging, chosen)
    ensures var s := NormalizeChosen(p, key, staging, chosen).staging;
            forall i :: 0 <= i < |staging| ==>
              View(p, key, s[i].data) == View(p, key, staging[i].data) && IsActiveEntry(s[i]) == IsActiveEntry(staging[i])
  {
    hide View, Normalized;
    if chosen != [] {
      var n := |chosen| - 1;
      NormalizingKeepsViews(p, key, staging, chosen[..n]);
      NormalizedEntry(p, key, NormalizeChosen(p, key, staging, chosen[..n]).staging[chosen[n]]);
    }
  }

  lemma NormalizedEntry(p: Primitives, key: Bytes, e: Entry)
    ensures var d := Normalized(p, key, e.data, NORMALIZED_FIELDS).0;
            View(p, key, d) == View(p, key, e.data) && IsActiveEntry(e.(data := d)) == IsActiveEntry(e)
  {
    hide View, Normalized, Truthy;
    var d := Normalized(p, key, e.data, NORMALIZED_FIELDS).0;
    NormalizingKeepsView(p, key, e.data, NORMALIZED_FIELDS);
    OutsideStructural(d);
    OutsideStructural(e.data);
  }

  lemma OutsideStructural(d: Data)
    ensures Get(d, IsActive) == Get(d - STRUCTURAL, IsActive)
  {
  }

  /** The entries at the given positions. */
  function Picked(staging: seq<Entry>, ks: seq<nat>): (r: seq<Entry>)
    requires Within(staging, ks)
    ensures |r| == |ks|
  {
    seq(|ks|, k requires 0 <= k < |ks| => staging[ks[k]])
  }

  /** The entries at positions outside `ks`. */
  function Outside(staging: seq<Entry>, ks: seq<nat>): seq<Entry> {
    Keep(staging, (i, e) => i !in ks)
  }

  lemma ViewsAdd(p: Primitives, key: Bytes, es: seq<Entry>, e: Entry)
    ensures Views(p, key, es + [e]) == Views(p, key, es) + multiset{View(p, key, e.data)}
  {
    assert (es + [e])[..|es|] == es;
  }

  lemma OutsideOneMore(p: Primitives, key: Bytes, staging: seq<Entry>, ks: seq<nat>, i: nat)
    requires i !in ks && i < |staging|
    ensures Views(p, key, Outside(staging, ks))
         == Views(p, key, Outside(staging, ks + [i])) + multiset{View(p, key, staging[i].data)}
  {
    hide View, Views, Keep;
    var only := (j: nat, e: Entry) => j == i;
    KeepSplit(p, key, staging, (j, e) => j !in ks, (j, e) => j !in ks + [i], only);
    KeepOne(staging, only, i);
    ViewsAdd(p, key, [], staging[i]);
    assert [] + [staging[i]] == [staging[i]];
    ViewsOfNone(p, key);
  }

  lemma ViewsOfNone(p: Primitives, key: Bytes)
    ensures Views(p, key, []) == multiset{}
  {
  }

  lemma {:induction false} PickedAndOutside(p: Primitives, key: Bytes, staging: seq<Entry>, ks: seq<nat>)
    requires Within(staging, ks) && Distinct(ks)
    ensures Views(p, key, Picked(staging, ks)) + Views(p, key, Outside(staging, ks)) == Views(p, key, staging)
  {
    hide View, Views, Keep;
    if ks == [] {
      KeepAll(staging, (i, e) => i !in ks);
      ViewsOfNone(p, key);
    } else {
      var n := |ks| - 1;
      PickedAndOutside(p, key, staging, ks[..n]);
      OutsideOneMore(p, key, staging, ks[..n], ks[n]);
      assert ks[..n] + [ks[n]] == ks;
      assert Picked(staging, ks) == Picked(staging, ks[..n]) + [staging[ks[n]]];
      ViewsAdd(p, key, Picked(staging, ks[..n]), staging[ks[n]]);
    }
  }

  /** Entries outside the synced positions either stay or were removed. */
  lemma OutsideStaysOrGoes(p: Primitives, key: Bytes, staging: seq<Entry>, ks: seq<nat>, removals: set<nat>)
    requires Within(staging, ks) && forall k :: 0 <= k < |ks| ==> !IsActiveEntry(staging[ks[k]])
    ensures Views(p, key, Outside(staging, ks))
         == Views(p, key, Remaining(staging, ks, removals)) + Views(p, key, RemovedEntries(staging, ks, removals))
  {
    hide View, Views, Keep;
    KeepSplit(p, key, staging, (i, e) => i !in ks,
              (i, e) => IsActiveEntry(e) || (i !in ks && i !in removals),
              (i, e) => !IsActiveEntry(e) && i !in ks && i in removals);
  }

  lemma {:induction false} ViewsPointwise(p: Primitives, key: Bytes, a: seq<Entry>, b: seq<Entry>)
    requires |a| == |b| && forall i :: 0 <= i < |a| ==> View(p, key, a[i].data) == View(p, key, b[i].data)
    ensures Views(p, key, a) == Views(p, key, b)
  {
    hide View;
    if a != [] {
      ViewsPointwise(p, key, a[..|a| - 1], b[..|b| - 1]);
    }
  }

  lemma {:induction false} SelectedWithoutOverrides(p: Primitives, key: Bytes, s: Selection, indices: seq<nat>, draws: Draws, n: nat)
    requires n <= |s.kept| && Within(s.staging, s.kept)
    ensures var es := Selected(p, key, s, indices, map[], draws, n);
            es.Some? && forall k :: 0 <= k < n ==> es.value[k].data == s.staging[s.kept[k]].data
  {
    if n > 0 {
      SelectedWithoutOverrides(p, key, s, indices, draws, n - 1);
    }
  }

  lemma {:induction false} ChosenFrom(staging: seq<Entry>, order: seq<nat>)
    requires Distinct(order)
    ensures var c := Chosen(staging, order);
            && Distinct(c) && (forall k :: 0 <= k < |c| ==> c[k] in order && !IsActiveEntry(staging[c[k]]))
  {
    if order != [] {
      ChosenFrom(staging, order[..|order| - 1]);
    }
  }

  lemma {:induction false} KeptFrom(p: Primitives, key: Bytes, staging: seq<Entry>, chosen: seq<nat>)
    requires Within(staging, chosen) && Distinct(chosen)
    ensures var s := NormalizeChosen(p, key, staging, chosen);
            && Distinct(s.kept) && (forall k :: 0 <= k < |s.kept| ==> s.kept[k] in chosen)
  {
    hide Normalized;
    if chosen != [] {
      KeptFrom(p, key, staging, chosen[..|chosen| - 1]);
    }
  }

  /** What a sync of a selection does to everything the entries say: with no
      overrides, staging and ledger together lose exactly what the user removed,
      even when some selected entries do not decrypt. */
  lemma SelectionConserves(p: Primitives, key: Bytes, secret: Option<Bytes>, staging: seq<Entry>, before: Books,
                           indices: seq<nat>, order: seq<nat>, removals: set<nat>, draws: Draws, after: Books)
    requires DecryptsOwnCiphertexts(p) && IntegersRoundTrip(p) && before.ledger != [] && Distinct(order)
    requires var s := NormalizeChosen(p, key, staging, Chosen(staging, order));
             var es := Selected(p, key, s, indices, map[], draws, |s.kept|);
             es.Some? && Synced(p, key, secret, before, es.value, draws, after)
    ensures var s := NormalizeChosen(p, key, staging, Chosen(staging, order));
            (LedgerViews(p, key, after.ledger)
               + Views(p, key, Remaining(s.staging, s.kept, removals))
               + Views(p, key, RemovedEntries(s.staging, s.kept, removals))
             == LedgerViews(p, key, before.ledger) + Views(p, key, staging))
  {
    var s := NormalizeChosen(p, key, staging, Chosen(staging, order));
    var es := Selected(p, key, s, indices, map[], draws, |s.kept|).value;
    hide *;
    SyncConserves(p, key, secret, before, es, draws, after);
    SelectionSplits(p, key, staging, indices, order, removals, draws);
  }

  /** With no overrides, the selected, remaining and removed entries say together
      what the staging area said. */
  lemma SelectionSplits(p: Primitives, key: Bytes, staging: seq<Entry>, indices: seq<nat>, order: seq<nat>,
                        removals: set<nat>, draws: Draws)
    requires Distinct(order)
    ensures var s := NormalizeChosen(p, key, staging, Chosen(staging, order));
            var es := Selected(p, key, s, indices, map[], draws, |s.kept|);
            && es.Some?
            && Views(p, key, es.value) + Views(p, key, Remaining(s.staging, s.kept, removals))
                 + Views(p, key, RemovedEntries(s.staging, s.kept, removals))
               == Views(p, key, staging)
  {
    hide View, Views, Chosen, NormalizeChosen, Selected, Remaining, RemovedEntries, Within;
    var s := NormalizeChosen(p, key, staging, Chosen(staging, order));
    SelectedWithoutOverrides(p, key, s, indices, draws, |s.kept|);
    var es := Selected(p, key, s, indices, map[], draws, |s.kept|).value;
    ViewsPointwise(p, key, es, Picked(s.staging, s.kept));
    PickedSplits(p, key, staging, order, removals);
  }

  /** The entries picked by a selection, those that stay and those removed say
      together what the staging area said. */
  lemma PickedSplits(p: Primitives, key: Bytes, staging: seq<Entry>, order: seq<nat>, removals: set<nat>)
    requires Distinct(order)
    ensures var s := NormalizeChosen(p, key, staging, Chosen(staging, order));
            (Views(p, key, Picked(s.staging, s.kept)) + Views(p, key, Remaining(s.staging, s.kept, removals))
               + Views(p, key, RemovedEntries(s.staging, s.kept, removals))
             == Views(p, key, staging))
  {
    hide View, Views, Chosen, NormalizeChosen, Remaining, RemovedEntries, Outside, Picked, Within, IsActiveEntry;
    var chosen := Chosen(staging, order);
    var s := NormalizeChosen(p, key, staging, chosen);
    ChosenFrom(staging, order);
    KeptFrom(p, key, staging, chosen);
    NormalizingKeepsViews(p, key, staging, chosen);
    PickedAndOutside(p, key, s.staging, s.kept);
    ViewsPointwise(p, key, s.staging, staging);
    KeptAreCompleted(s.staging, staging, s.kept, chosen);
    OutsideStaysOrGoes(p, key, s.staging, s.kept, removals);
  }

  lemma KeptAreCompleted(after: seq<Entry>, before: seq<Entry>, kept: seq<nat>, chosen: seq<nat>)
    requires |after| == |before| && Within(after, kept) && Within(before, chosen)
    requires forall i :: 0 <= i < |before| ==> IsActiveEntry(after[i]) == IsActiveEntry(before[i])
    requires forall k :: 0 <= k < |kept| ==> kept[k] in chosen
    requires forall k :: 0 <= k < |chosen| ==> !IsActiveEntry(before[chosen[k]])
    ensures forall k :: 0 <= k < |kept| ==> !IsActiveEntry(after[kept[k]])
  {
    hide IsActiveEntry;
  }

  /** `sync_day` conserves everything the entries say. */
  lemma SyncDayConserves(p: Primitives, key: Bytes, secret: Option<Bytes>, staging: seq<Entry>, before: Books,
                         draws: Draws, after: Books)
    requires DecryptsOwnCiphertexts(p) && IntegersRoundTrip(p) && before.ledger != []
    requires Synced(p, key, secret, before, Completed(staging), draws, after)
    ensures LedgerViews(p, key, after.ledger) + Views(p, key, Active(staging))
         == LedgerViews(p, key, before.ledger) + Views(p, key, staging)
  {
    hide Synced, Views, LedgerViews, Keep;
    SyncConserves(p, key, secret, before, Completed(staging), draws, after);
    KeepSplit(p, key, staging, (i, e) => true, (i, e) => IsActiveEntry(e), (i, e) => !IsActiveEntry(e));
    KeepAll(staging, (i, e) => true);
  }
}
