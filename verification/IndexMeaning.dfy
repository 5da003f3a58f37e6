/**
 What the totals of the index runs count, told by the fields of the entries.
 */
module IndexMeaning {
  import opened Json
  import opened Blocks
  import opened Chain
  import opened SyncDay
  import opened Repair
  import opened IndexManagers
  import opened IndexRuns

  /** An entry that commit files under the title: its own, or "" when it has none, not even an encrypted one. */
  ghost predicate FiledUnder(d: Data, title: Text) {
    if Truthy(Get(d, Title)) then d[Title] == Str(title) else Enc(Title) !in d && title == ""
  }

  ghost function Lasted(d: Data): int {
    match Get(d, Duration) case Int(n) => n case _ => 0
  }

  /** What the day blocks of a date hold under a title. */
  ghost function StoredTotal(bs: seq<Block>, date: Text, title: Text): int {
    if bs == [] then 0
    else
      var b := bs[|bs| - 1];
      StoredTotal(bs[..|bs| - 1], date, title)
      + if IsDay(b) && Get(b.fields, Date) == Str(date) && b.entries.Some? then StoredIn(b.entries.value, title) else 0
  }

  ghost function StoredIn(es: seq<Entry>, title: Text): int {
    if es == [] then 0
    else
      var d := es[|es| - 1].data;
      StoredIn(es[..|es| - 1], title) + if FiledUnder(d, title) then Lasted(d) else 0
  }

  lemma EntryCounts(p: Primitives, key: Bytes, date: Text, d: Data, on: Text, title: Text)
    ensures Sum(Deltas(EntryChange(p, key, date, d, In), on, title))
         == if date == on && FiledUnder(d, title) then Lasted(d) else 0
  {
    OneDelta(EntryChange(p, key, date, d, In), on, title);
    hide Deltas, Sum;
  }

  lemma {:induction false} EntriesCount(p: Primitives, key: Bytes, date: Text, es: seq<Entry>, on: Text, title: Text)
    ensures Sum(Deltas(EntryChanges(p, key, date, es, In), on, title)) == if date == on then StoredIn(es, title) else 0
  {
    hide EntryChange, Deltas, Sum, FiledUnder, Lasted;
    if es == [] {
      assert EntryChanges(p, key, date, es, In) == [];
      NoDeltas(on, title);
    } else {
      EntriesCount(p, key, date, es[..|es| - 1], on, title);
      EntryCounts(p, key, date, es[|es| - 1].data, on, title);
      EntriesTotalStep(p, key, date, es, In, on, title);
    }
  }

  lemma NoDeltas(on: Text, title: Text)
    ensures Sum(Deltas([], on, title)) == 0
  {
  }

  /** The total a committed chain comes to is the sum of the durations filed under date and title. */
  lemma {:induction false} TotalMeans(p: Primitives, key: Bytes, bs: seq<Block>, on: Text, title: Text)
    ensures Total(p, key, bs, In, on, title) == StoredTotal(bs, on, title)
  {
    hide EntryChanges, Deltas, Sum, StoredIn;
    if bs == [] {
      NoDeltas(on, title);
    } else {
      var init, b := bs[..|bs| - 1], bs[|bs| - 1];
      assert bs == init + [b];
      TotalMeans(p, key, init, on, title);
      hide Total;
      TotalAppend(p, key, init, [b], In, on, title);
      BlockCounts(p, key, b, on, title);
    }
  }

  lemma BlockCounts(p: Primitives, key: Bytes, b: Block, on: Text, title: Text)
    ensures Total(p, key, [b], In, on, title)
         == if IsDay(b) && Get(b.fields, Date) == Str(on) && b.entries.Some? then StoredIn(b.entries.value, title) else 0
  {
    OneBlock(p, key, b, In);
    hide EntryChanges, Deltas, Sum;
    NoDeltas(on, title);
    if IsDay(b) && Get(b.fields, Date).Str? {
      EntriesCount(p, key, Get(b.fields, Date).s, EntriesOf(b), on, title);
    }
  }

  /** What a run leaves in the index tells the stored totals of the remaining chain. */
  lemma TellsMeans(p: Primitives, key: Bytes, index: Index, chain: seq<Block>)
    ensures Tells(p, key, index, chain) <==>
            Normal(index) && forall on, title :: At(index, on, title) == Max(0, StoredTotal(chain, on, title))
  {
    hide Normal, At, Total, StoredTotal;
    forall on, title ensures Total(p, key, chain, In, on, title) == StoredTotal(chain, on, title) {
      TotalMeans(p, key, chain, on, title);
    }
  }

  // ----- What revert takes out ----------------------------------------------

  /** Where an encrypted field that is not empty decrypts, its text takes the place of the plain field. */
  ghost predicate Uncovered(p: Primitives, key: Bytes, d: Data, f: Field, t: Text) {
    var v := Get(d, Enc(f));
    v.Str? && v.s != "" && p.decrypt(key, v.s) == Some(t)
  }

  /** The data of an entry as revert files it: an encrypted title or duration in the clear if it
      decrypts, and for the duration reads as a number, an empty text as 0. */
  ghost predicate RestoresTo(p: Primitives, key: Bytes, d: Data, r: Data) {
    && AgreeBut(d, r, {Title, Enc(Title), Duration, Enc(Duration)})
    && (if exists t :: Uncovered(p, key, d, Title, t)
        then Enc(Title) !in r && exists t :: Uncovered(p, key, d, Title, t) && Get(r, Title) == Str(t)
        else AgreeBut(d, r, {Duration, Enc(Duration)}))
    && (if exists n :: UncoveredNumber(p, key, d, n)
        then Enc(Duration) !in r && exists n :: UncoveredNumber(p, key, d, n) && Get(r, Duration) == Int(n)
        else AgreeBut(d, r, {Title, Enc(Title)}))
  }

  ghost predicate UncoveredNumber(p: Primitives, key: Bytes, d: Data, n: int) {
    exists t :: Uncovered(p, key, d, Duration, t) && if t == "" then n == 0 else p.parseInt(t) == Some(n)
  }

  lemma TitleUncovered(p: Primitives, key: Bytes, d: Data)
    ensures var r := TitleRestored(p, key, d);
            if exists t :: Uncovered(p, key, d, Title, t)
            then exists t :: Uncovered(p, key, d, Title, t) && Get(r, Title) == Str(t) && Enc(Title) !in r
                             && AgreeBut(d, r, {Title, Enc(Title)})
            else r == d
  {
    var v := Get(d, Enc(Title));
    if Truthy(v) && v.Str? && p.decrypt(key, v.s).Some? {
      assert Uncovered(p, key, d, Title, p.decrypt(key, v.s).value);
    }
  }

  lemma DurationUncovered(p: Primitives, key: Bytes, d: Data)
    ensures var r := DurationRestored(p, key, d);
            if exists n :: UncoveredNumber(p, key, d, n)
            then exists n :: UncoveredNumber(p, key, d, n) && Get(r, Duration) == Int(n) && Enc(Duration) !in r
                             && AgreeBut(d, r, {Duration, Enc(Duration)})
            else r == d
  {
    var v := Get(d, Enc(Duration));
    if Truthy(v) && v.Str? && p.decrypt(key, v.s).Some? {
      var t := p.decrypt(key, v.s).value;
      assert Uncovered(p, key, d, Duration, t);
      if t == "" {
        assert UncoveredNumber(p, key, d, 0);
      } else if p.parseInt(t).Some? {
        assert UncoveredNumber(p, key, d, p.parseInt(t).value);
      }
    }
  }

  /** Revert takes an entry out under the title it restores, with the duration it restores. */
  lemma RevertTakesOut(p: Primitives, key: Bytes, date: Text, d: Data)
    ensures RestoresTo(p, key, d, Restored(p, key, d))
    ensures var r := Restored(p, key, d);
            forall on, title :: Sum(Deltas(EntryChange(p, key, date, d, Out), on, title))
                                == if date == on && FiledUnder(r, title) then -Lasted(r) else 0
  {
    TitleUncovered(p, key, d);
    DurationUncovered(p, key, TitleRestored(p, key, d));
    SameDuration(p, key, d);
    forall on, title
      ensures Sum(Deltas(EntryChange(p, key, date, d, Out), on, title))
           == if date == on && FiledUnder(Restored(p, key, d), title) then -Lasted(Restored(p, key, d)) else 0
    {
      OneDelta(EntryChange(p, key, date, d, Out), on, title);
      hide Deltas, Sum, Restored;
    }
    hide TitleRestored, DurationRestored, Uncovered, UncoveredNumber, Deltas, Sum, FiledUnder, EntryChange;
  }

  lemma SameDuration(p: Primitives, key: Bytes, d: Data)
    ensures forall n :: UncoveredNumber(p, key, TitleRestored(p, key, d), n) <==> UncoveredNumber(p, key, d, n)
  {
    assert Get(TitleRestored(p, key, d), Enc(Duration)) == Get(d, Enc(Duration));
    hide TitleRestored;
    forall t ensures Uncovered(p, key, TitleRestored(p, key, d), Duration, t) <==> Uncovered(p, key, d, Duration, t) {
    }
    hide Uncovered;
  }
}
