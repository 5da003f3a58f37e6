/**
 The blind index as an object: updates, range queries, and the merge of a
 remote index.
 */
module IndexManagers {
  import opened Json
  import opened TextOrder
  import opened SyncDay

  // ----- Indexes as values --------------------------------------------------

  function Max(a: int, b: int): int {
    if a < b then b else a
  }

  /** All totals positive, no empty date. */
  predicate Normal(index: Index) {
    forall d :: d in index ==> index[d] != map[] && forall t :: t in index[d] ==> index[d][t] > 0
  }

  /** The total of a title is set, or removed when it is not positive. */
  function Written(index: Index, date: Text, title: Text, total: int): Index
    requires date in index
  {
    if total > 0 then index[date := index[date][title := total]]
    else if index[date] - {title} == map[] then index - {date}
    else index[date := index[date] - {title}]
  }

  lemma WrittenIs(index: Index, date: Text, title: Text, total: int)
    requires date in index
    ensures var totals := if total > 0 then index[date][title := total] else index[date] - {title};
            Written(index, date, title, total) == if totals == map[] then index - {date} else index[date := totals]
  {
    assert title in index[date][title := total];
  }

  function Updated(index: Index, date: Text, title: Text, delta: int): Index {
    if date !in index && delta <= 0 then index
    else Written(Touched(index, date), date, title, At(index, date, title) + delta)
  }

  /** An update moves one total, and holds it at zero from below. */
  lemma UpdatedAt(index: Index, date: Text, title: Text, delta: int, d: Text, t: Text)
    ensures At(Updated(index, date, title, delta), d, t)
         == if d == date && t == title then Max(0, At(index, date, title) + delta) else At(index, d, t)
  {
    if date in index && d == date && t != title && t in index[date] {
      assert t in index[date] - {title};
    }
  }

  lemma UpdatedIsNormal(index: Index, date: Text, title: Text, delta: int)
    requires Normal(index)
    ensures Normal(Updated(index, date, title, delta))
  {
    var updated := Updated(index, date, title, delta);
    forall d | d in updated ensures updated[d] != map[] {
      if d == date && At(index, date, title) + delta > 0 {
        assert title in updated[d];
      }
    }
  }

  /** Normal indexes with the same totals are the same. */
  lemma TotalsDetermine(a: Index, b: Index)
    requires Normal(a) && Normal(b) && forall d, t :: At(a, d, t) == At(b, d, t)
    ensures a == b
  {
    assert a.Keys == b.Keys by {
      forall d ensures d in a <==> d in b {
        HasATitle(a, b, d);
        HasATitle(b, a, d);
      }
    }
    forall d | d in a ensures a[d] == b[d] {
      forall t ensures t in a[d] <==> t in b[d] {
        assert At(a, d, t) == At(b, d, t);
      }
      forall t | t in a[d] ensures a[d][t] == b[d][t] {
        assert At(a, d, t) == At(b, d, t);
      }
      assert a[d].Keys == b[d].Keys;
    }
  }

  lemma HasATitle(a: Index, b: Index, d: Text)
    requires Normal(a) && forall d, t :: At(a, d, t) == At(b, d, t)
    ensures d in a ==> d in b
  {
    if d in a {
      var t :| t in a[d];
      assert At(a, d, t) == At(b, d, t);
    }
  }

  // ----- Range queries ------------------------------------------------------

  function InRange(index: Index, from: Text, to: Text): set<Text> {
    set d | d in index && !TextLess(d, from) && !TextLess(to, d)
  }

  ghost function SumOver(index: Index, dates: set<Text>, title: Text): int
    decreases |dates|
  {
    if dates == {} then 0
    else
      var d :| d in dates;
      At(index, d, title) + SumOver(index, dates - {d}, title)
  }

  lemma {:induction false} SumWith(index: Index, dates: set<Text>, d: Text, title: Text)
    requires d in dates
    ensures SumOver(index, dates, title) == At(index, d, title) + SumOver(index, dates - {d}, title)
    decreases |dates|
  {
    var e :| e in dates && SumOver(index, dates, title) == At(index, e, title) + SumOver(index, dates - {e}, title);
    if e != d {
      SumWith(index, dates - {e}, d, title);
      SumWith(index, dates - {d}, e, title);
      assert dates - {e} - {d} == dates - {d} - {e};
    }
  }

  lemma {:induction false} SumOfUnion(index: Index, a: set<Text>, b: set<Text>, title: Text)
    requires a !! b
    ensures SumOver(index, a + b, title) == SumOver(index, a, title) + SumOver(index, b, title)
    decreases |b|
  {
    if b == {} {
      assert a + b == a;
    } else {
      var d :| d in b;
      SumWith(index, a + b, d, title);
      SumWith(index, b, d, title);
      SumOfUnion(index, a, b - {d}, title);
      assert a + b - {d} == a + (b - {d});
    }
  }

  predicate TitleIn(index: Index, dates: set<Text>, title: Text) {
    exists d :: d in dates && d in index && title in index[d]
  }

  /** The answer lists the titles of those dates, each with its total over them. */
  ghost predicate Answers(index: Index, dates: set<Text>, result: map<Text, int>) {
    forall t :: (t in result <==> TitleIn(index, dates, t)) && (t in result ==> result[t] == SumOver(index, dates, t))
  }

  /** A title that is not listed has no total. */
  lemma {:induction false} UnlistedIsZero(index: Index, dates: set<Text>, title: Text)
    requires !TitleIn(index, dates, title)
    ensures SumOver(index, dates, title) == 0
    decreases |dates|
  {
    if dates != {} {
      var d :| d in dates;
      SumWith(index, dates, d, title);
      UnlistedIsZero(index, dates - {d}, title);
    }
  }

  function Reading(result: map<Text, int>, title: Text): int {
    if title in result then result[title] else 0
  }

  /** Queries over adjacent ranges add up to the query over both. */
  lemma AdjacentRangesAddUp(index: Index, from: Text, mid: Text, next: Text, to: Text,
                            first: map<Text, int>, second: map<Text, int>, whole: map<Text, int>)
    requires !TextLess(mid, from) && TextLess(mid, next) && !TextLess(to, next)
    requires forall d :: d in index ==> !(TextLess(mid, d) && TextLess(d, next))
    requires Answers(index, InRange(index, from, mid), first) && Answers(index, InRange(index, next, to), second)
    requires Answers(index, InRange(index, from, to), whole)
    ensures whole.Keys == first.Keys + second.Keys
    ensures forall t :: Reading(whole, t) == Reading(first, t) + Reading(second, t)
  {
    var a, b := InRange(index, from, mid), InRange(index, next, to);
    RangesSplit(index, from, mid, next, to);
    hide TextLess, InRange, Answers, TitleIn;
    forall t ensures Reading(whole, t) == Reading(first, t) + Reading(second, t)
                     && (t in whole <==> t in first || t in second) {
      UnionReading(index, a, b, first, second, whole, t);
    }
  }

  lemma UnionReading(index: Index, a: set<Text>, b: set<Text>, first: map<Text, int>, second: map<Text, int>,
                     whole: map<Text, int>, t: Text)
    requires a !! b && Answers(index, a, first) && Answers(index, b, second) && Answers(index, a + b, whole)
    ensures Reading(whole, t) == Reading(first, t) + Reading(second, t)
    ensures t in whole <==> t in first || t in second
  {
    ReadingIs(index, a, first, t);
    ReadingIs(index, b, second, t);
    ReadingIs(index, a + b, whole, t);
    SumOfUnion(index, a, b, t);
  }

  lemma ReadingIs(index: Index, dates: set<Text>, result: map<Text, int>, t: Text)
    requires Answers(index, dates, result)
    ensures Reading(result, t) == SumOver(index, dates, t) && (t in result <==> TitleIn(index, dates, t))
  {
    UnlistedIsZeroAll(index, dates, dates, t);
  }

  lemma UnlistedIsZeroAll(index: Index, a: set<Text>, b: set<Text>, t: Text)
    ensures !TitleIn(index, a, t) ==> SumOver(index, a, t) == 0
    ensures !TitleIn(index, b, t) ==> SumOver(index, b, t) == 0
  {
    if !TitleIn(index, a, t) {
      UnlistedIsZero(index, a, t);
    }
    if !TitleIn(index, b, t) {
      UnlistedIsZero(index, b, t);
    }
  }

  lemma RangesSplit(index: Index, from: Text, mid: Text, next: Text, to: Text)
    requires !TextLess(mid, from) && TextLess(mid, next) && !TextLess(to, next)
    requires forall d :: d in index ==> !(TextLess(mid, d) && TextLess(d, next))
    ensures InRange(index, from, mid) !! InRange(index, next, to)
    ensures InRange(index, from, to) == InRange(index, from, mid) + InRange(index, next, to)
  {
    hide TextLess;
    forall d | d in index
      ensures !(!TextLess(mid, d) && !TextLess(d, next))
      ensures !TextLess(mid, d) ==> !TextLess(to, d)
      ensures !TextLess(d, next) ==> !TextLess(d, from)
    {
      NotLessChain(d, mid, next);
      NotLessChain(d, mid, to);
      NotLessChain(d, next, from);
      NotLessChain(d, next, to);
      NotLessChain(mid, next, to);
      NotLessChain(from, mid, next);
      NotLessChain(from, next, d);
      TextLessAsymmetric(mid, next);
      TextLessAsymmetric(d, mid);
      TextLessTotal(d, mid);
      TextLessTotal(d, next);
    }
  }

  /** `not less` is a total preorder, strict parts included. */
  lemma NotLessChain(a: Text, b: Text, c: Text)
    ensures !TextLess(b, a) && !TextLess(c, b) ==> !TextLess(c, a)
    ensures !TextLess(b, a) && TextLess(b, c) ==> TextLess(a, c)
    ensures TextLess(a, b) && !TextLess(c, b) ==> TextLess(a, c)
  {
    hide TextLess;
    TextLessTotal(a, b);
    TextLessTotal(b, c);
    TextLessTotal(a, c);
    TextLessAsymmetric(a, c);
    if TextLess(a, b) && TextLess(b, c) {
      TextLessTransitive(a, b, c);
    }
    TextLessIrreflexive(a);
  }

  // ----- The manager --------------------------------------------------------

  /** One date's inner dictionary: an object, so that a shallow copy shares it. */
  class TitleDict {
    var totals: map<Text, int>

    constructor (totals: map<Text, int>)
      ensures this.totals == totals
    {
      this.totals := totals;
    }
  }

  function Contents(dicts: map<Text, TitleDict>): Index
    reads dicts.Values
  {
    map d | d in dicts :: dicts[d].totals
  }

  /** No two dates share a dictionary. */
  predicate Apart(dicts: map<Text, TitleDict>) {
    forall d, e :: d in dicts && e in dicts && d != e ==> dicts[d] != dicts[e]
  }

  lemma ContentsAt(dicts: map<Text, TitleDict>)
    ensures Contents(dicts).Keys == dicts.Keys
    ensures forall d :: d in dicts ==> Contents(dicts)[d] == dicts[d].totals
  {
  }

  lemma InsertContents(dicts: map<Text, TitleDict>, date: Text, dict: TitleDict)
    ensures Contents(dicts[date := dict]) == Contents(dicts)[date := dict.totals]
  {
  }

  lemma RemoveContents(dicts: map<Text, TitleDict>, date: Text)
    ensures Contents(dicts - {date}) == Contents(dicts) - {date}
  {
  }

  /** One inner dictionary is written; the other dates are not touched. */
  method Put(dicts: map<Text, TitleDict>, date: Text, totals: map<Text, int>)
    requires Apart(dicts) && date in dicts
    modifies dicts[date]
    ensures Contents(dicts) == old(Contents(dicts))[date := totals]
  {
    dicts[date].totals := totals;
  }

  class IndexManager {
    var cache: map<Text, TitleDict>
    var stored: Index

    constructor ()
      ensures cache == map[] && stored == map[]
    {
      cache, stored := map[], map[];
    }

    method Update(date: Text, title: Text, delta: int)
      requires Apart(cache)
      modifies this, cache.Values
      ensures Apart(cache)
      ensures forall d :: d in cache ==> fresh(cache[d]) || (d in old(cache) && cache[d] == old(cache)[d])
      ensures cache.Keys <= old(cache).Keys + {date}
      ensures Contents(cache) == Updated(old(Contents(cache)), date, title, delta)
      ensures old(stored == Contents(cache)) ==> stored == Contents(cache)
    {
      ghost var index := Contents(cache);
      ContentsAt(cache);
      hide Contents, Written;
      if date !in cache {
        if delta <= 0 {
          return;
        }
        var empty := new TitleDict(map[]);
        InsertContents(cache, date, empty);
        cache := cache[date := empty];
      }
      assert Contents(cache) == Touched(index, date);
      ContentsAt(cache);
      var total := (if title in cache[date].totals then cache[date].totals[title] else 0) + delta;
      Write(date, title, total);
      Flush();
    }

    /** The second half of an update. */
    method Write(date: Text, title: Text, total: int)
      requires Apart(cache) && date in cache
      modifies this`cache, cache[date]
      ensures forall d :: d in cache ==> d in old(cache) && cache[d] == old(cache)[d]
      ensures Contents(cache) == Written(old(Contents(cache)), date, title, total)
    {
      ContentsAt(cache);
      WrittenIs(Contents(cache), date, title, total);
      hide Contents, Written;
      var totals := if total > 0 then cache[date].totals[title := total] else cache[date].totals - {title};
      Put(cache, date, totals);
      if totals == map[] {
        RemoveContents(cache, date);
        cache := cache - {date};
      }
    }

    method Flush()
      modifies this`stored
      ensures stored == Contents(cache)
    {
      stored := Contents(cache);
    }

    /** A copy of the outer dictionary only: the inner ones are the manager's own. */
    method GetAll() returns (all: map<Text, TitleDict>)
      ensures all == cache
    {
      all := cache;
    }

    method Clear()
      modifies this
      ensures cache == map[] && stored == map[]
    {
      cache := map[];
      stored := map[];
    }

    method Query(from: Text, to: Text) returns (result: map<Text, int>)
      ensures Answers(Contents(cache), InRange(Contents(cache), from, to), result)
    {
      result := map[];
      ghost var index := Contents(cache);
      if TextLess(to, from) {
        EmptyRange(index, from, to);
        return;
      }
      var left := cache.Keys;
      ghost var done := {};
      while left != {}
        invariant left <= cache.Keys
        invariant done == set d | d in InRange(index, from, to) && d !in left
        invariant Answers(index, done, result)
      {
        var date :| date in left;
        left := left - {date};
        if !TextLess(date, from) && !TextLess(to, date) {
          result := AddTotals(index, done, date, cache[date].totals, result);
          done := done + {date};
        }
      }
      assert done == InRange(index, from, to);
    }

    /** The inner loop of a query: one date's totals are added. */
    static method AddTotals(ghost index: Index, ghost done: set<Text>, date: Text, totals: map<Text, int>,
                            before: map<Text, int>)
      returns (result: map<Text, int>)
      requires date in index && index[date] == totals && date !in done && Answers(index, done, before)
      ensures Answers(index, done + {date}, result)
    {
      result := before;
      var titles := totals.Keys;
      while titles != {}
        invariant titles <= totals.Keys
        invariant result.Keys == before.Keys + (totals.Keys - titles)
        invariant forall t :: t in result ==>
          result[t] == Reading(before, t) + if t in totals && t !in titles then totals[t] else 0
      {
        var title :| title in titles;
        titles := titles - {title};
        result := result[title := (if title in result then result[title] else 0) + totals[title]];
      }
      AddedAnswers(index, done, date, before, result);
    }
  }

  lemma EmptyRange(index: Index, from: Text, to: Text)
    requires TextLess(to, from)
    ensures Answers(index, InRange(index, from, to), map[])
  {
    hide TextLess;
    forall d | d in index ensures TextLess(d, from) || TextLess(to, d) {
      NotLessChain(from, d, to);
    }
    assert InRange(index, from, to) == {};
  }

  lemma AddedAnswers(index: Index, done: set<Text>, date: Text, before: map<Text, int>, result: map<Text, int>)
    requires date in index && date !in done && Answers(index, done, before)
    requires result.Keys == before.Keys + index[date].Keys
    requires forall t :: t in result ==> result[t] == Reading(before, t) + At(index, date, t)
    ensures Answers(index, done + {date}, result)
  {
    forall t
      ensures t in result <==> TitleIn(index, done + {date}, t)
      ensures t in result ==> result[t] == SumOver(index, done + {date}, t)
    {
      SumWith(index, done + {date}, date, t);
      assert done + {date} - {date} == done;
      UnlistedIsZeroAll(index, done, done, t);
      if t in index[date] {
        assert date in done + {date};
      }
    }
  }

  // ----- Merging a remote index ---------------------------------------------

  function RaisedDict(x: map<Text, int>, y: map<Text, int>): map<Text, int> {
    map t | t in x.Keys + y.Keys && (t in x || y[t] > 0) ::
      if t in y && y[t] > (if t in x then x[t] else 0) then y[t] else x[t]
  }

  /** The merged dictionaries: a date only one side has is taken as it is. */
  function Raised(a: Index, b: Index): Index {
    map d | d in a.Keys + b.Keys ::
      if d !in a then b[d] else if d in b then RaisedDict(a[d], b[d]) else a[d]
  }

  function PositiveDict(x: map<Text, int>): map<Text, int> {
    map t | t in x && x[t] > 0 :: x[t]
  }

  function Positive(index: Index): Index {
    map d | d in index && PositiveDict(index[d]) != map[] :: PositiveDict(index[d])
  }

  /** What the merge leaves. */
  function Joined(a: Index, b: Index): Index {
    Positive(Raised(a, b))
  }

  lemma PositiveIs(index: Index)
    ensures Normal(Positive(index))
    ensures forall d, t :: At(Positive(index), d, t) == Max(0, At(index, d, t))
  {
    forall d, t ensures At(Positive(index), d, t) == Max(0, At(index, d, t)) {
      if d in index && t in index[d] && index[d][t] > 0 {
        assert t in PositiveDict(index[d]);
      }
    }
  }

  /** The merge is the pointwise maximum, in normal form. */
  lemma JoinedIs(a: Index, b: Index)
    ensures Normal(Joined(a, b))
    ensures forall d, t :: At(Joined(a, b), d, t) == Max(0, Max(At(a, d, t), At(b, d, t)))
  {
    PositiveIs(Raised(a, b));
    hide Positive;
    forall d, t ensures Max(0, At(Raised(a, b), d, t)) == Max(0, Max(At(a, d, t), At(b, d, t))) {
    }
  }

  lemma JoinIsIdempotent(a: Index, b: Index)
    ensures Joined(Joined(a, b), b) == Joined(a, b)
    ensures Normal(a) ==> Joined(a, a) == a
  {
    JoinedIs(a, b);
    JoinedIs(Joined(a, b), b);
    JoinedIs(a, a);
    hide Joined, At, Normal;
    TotalsDetermine(Joined(Joined(a, b), b), Joined(a, b));
    if Normal(a) {
      NormalIsPositive(a);
      TotalsDetermine(Joined(a, a), a);
    }
  }

  lemma NormalIsPositive(a: Index)
    requires Normal(a)
    ensures forall d, t :: At(a, d, t) >= 0
  {
  }

  lemma JoinIsCommutative(a: Index, b: Index)
    ensures Joined(a, b) == Joined(b, a)
  {
    JoinedIs(a, b);
    JoinedIs(b, a);
    hide Joined, At, Normal;
    TotalsDetermine(Joined(a, b), Joined(b, a));
  }

  lemma JoinIsAssociative(a: Index, b: Index, c: Index)
    ensures Joined(Joined(a, b), c) == Joined(a, Joined(b, c))
  {
    JoinedIs(a, b);
    JoinedIs(b, c);
    JoinedIs(Joined(a, b), c);
    JoinedIs(a, Joined(b, c));
    hide Joined, At, Normal;
    TotalsDetermine(Joined(Joined(a, b), c), Joined(a, Joined(b, c)));
  }

  function MergeAll(local: Index, remotes: seq<Index>): Index {
    if remotes == [] then local else Joined(MergeAll(local, remotes[..|remotes| - 1]), remotes[|remotes| - 1])
  }

  /** The greatest of the totals the indexes hold, at least 0. */
  predicate Greatest(local: Index, remotes: seq<Index>, d: Text, t: Text, n: int) {
    && n >= 0 && n >= At(local, d, t) && (forall r :: r in remotes ==> n >= At(r, d, t))
    && (n == 0 || n == At(local, d, t) || exists r :: r in remotes && n == At(r, d, t))
  }

  lemma GreatestGrows(local: Index, init: seq<Index>, last: Index, d: Text, t: Text, n: int)
    requires Greatest(local, init, d, t, n)
    ensures Greatest(local, init + [last], d, t, Max(0, Max(n, At(last, d, t))))
  {
    assert forall r :: r in init + [last] <==> r in init || r == last;
    hide At;
    if n > 0 && n != At(local, d, t) {
      var r :| r in init && n == At(r, d, t);
      assert r in init + [last];
    }
    assert last in init + [last];
  }

  lemma {:induction false} MergeAllIs(local: Index, remotes: seq<Index>)
    requires remotes != []
    ensures Normal(MergeAll(local, remotes))
    ensures forall d, t :: Greatest(local, remotes, d, t, At(MergeAll(local, remotes), d, t))
  {
    var n := |remotes| - 1;
    var init, last := remotes[..n], remotes[n];
    assert remotes == init + [last];
    JoinedIs(MergeAll(local, init), last);
    if init != [] {
      MergeAllIs(local, init);
    }
    hide Joined, At, Normal;
    forall d, t ensures Greatest(local, remotes, d, t, At(MergeAll(local, remotes), d, t)) {
      if init != [] {
        GreatestGrows(local, init, last, d, t, At(MergeAll(local, init), d, t));
      }
    }
  }

  /** Merging depends only on which indexes are merged: not on order, grouping or repetition. */
  lemma MergeOrderDoesNotMatter(local: Index, one: seq<Index>, two: seq<Index>)
    requires one != [] && forall r :: r in one <==> r in two
    ensures MergeAll(local, one) == MergeAll(local, two)
  {
    assert one[0] in two;
    MergeAllIs(local, one);
    MergeAllIs(local, two);
    var a, b := MergeAll(local, one), MergeAll(local, two);
    hide MergeAll, At, Normal;
    forall d, t ensures At(a, d, t) == At(b, d, t) {
      assert Greatest(local, one, d, t, At(a, d, t)) && Greatest(local, two, d, t, At(b, d, t));
    }
    TotalsDetermine(a, b);
  }

  lemma RaisedStep(start: Index, done: Index, date: Text, titles: map<Text, int>)
    requires date !in done
    ensures Raised(start, done[date := titles])
         == Raised(start, done)[date := if date in start then RaisedDict(start[date], titles) else titles]
    ensures date in start ==> Raised(start, done)[date] == start[date]
    ensures date in Raised(start, done) <==> date in start
  {
  }

  lemma RaisedDictStep(x: map<Text, int>, done: map<Text, int>, title: Text, total: int)
    requires title !in done
    ensures var raised := RaisedDict(x, done);
            RaisedDict(x, done[title := total])
            == if total > Reading(raised, title) then raised[title := total] else raised
  {
  }

  /** One date of the remote index raises the totals of that date, in place. */
  method RaiseTitles(local: map<Text, TitleDict>, date: Text, titles: map<Text, int>)
    requires Apart(local) && date in local
    modifies local[date]
    ensures Contents(local) == old(Contents(local))[date := RaisedDict(old(local[date].totals), titles)]
  {
    var dict := local[date];
    ghost var x := dict.totals;
    assert RaisedDict(x, map[]) == x;
    var left := titles.Keys;
    while left != {}
      invariant left <= titles.Keys
      invariant dict.totals == RaisedDict(x, titles - left)
    {
      hide RaisedDict, Contents, Apart;
      var title :| title in left;
      ghost var done := titles - left;
      left := left - {title};
      assert titles - left == done[title := titles[title]];
      RaisedDictStep(x, done, title, titles[title]);
      if titles[title] > (if title in dict.totals then dict.totals[title] else 0) {
        dict.totals := dict.totals[title := titles[title]];
      }
    }
    assert titles - {} == titles;
  }

  /** The first loop: the remote dates go into the dictionaries, raising or joining them. */
  method RaiseDates(dicts: map<Text, TitleDict>, remote: Index) returns (local: map<Text, TitleDict>)
    requires Apart(dicts)
    modifies dicts.Values
    ensures Apart(local) && Contents(local) == Raised(old(Contents(dicts)), remote)
  {
    local := dicts;
    ghost var start := Contents(local);
    assert Raised(start, map[]) == start;
    ContentsAt(local);
    var left := remote.Keys;
    assert remote - left == map[];
    hide Contents, Raised, RaisedDict, Apart;
    while left != {}
      invariant left <= remote.Keys
      invariant Apart(local)
      invariant forall d :: d in local ==> fresh(local[d]) || (d in dicts && local[d] == dicts[d])
      invariant Contents(local) == Raised(start, remote - left)
    {
      var date :| date in left;
      ghost var done := remote - left;
      left := left - {date};
      assert remote - left == done[date := remote[date]];
      RaisedStep(start, done, date, remote[date]);
      ContentsAt(local);
      local := RaiseDate(local, date, remote[date]);
    }
    assert remote - {} == remote;
  }

  method RaiseDate(dicts: map<Text, TitleDict>, date: Text, titles: map<Text, int>)
    returns (local: map<Text, TitleDict>)
    requires Apart(dicts)
    modifies if date in dicts then {dicts[date]} else {}
    ensures Apart(local) && local.Keys == dicts.Keys + {date}
    ensures forall d :: d in local ==> fresh(local[d]) || (d in dicts && local[d] == dicts[d])
    ensures Contents(local)
         == old(Contents(dicts))[date := if date in dicts then RaisedDict(old(dicts[date].totals), titles) else titles]
  {
    hide Contents, RaisedDict;
    if date !in dicts {
      var copied := new TitleDict(titles);
      InsertContents(dicts, date, copied);
      local := dicts[date := copied];
    } else {
      local := dicts;
      RaiseTitles(local, date, titles);
    }
  }

  /** Every total of one date goes back into the index. */
  method RefillDate(manager: IndexManager, date: Text, titles: map<Text, int>)
    requires Apart(manager.cache) && Normal(Contents(manager.cache)) && manager.stored == Contents(manager.cache)
    requires date !in manager.cache
    modifies manager, manager.cache.Values
    ensures Apart(manager.cache) && Normal(Contents(manager.cache)) && manager.stored == Contents(manager.cache)
    ensures forall d :: d in manager.cache ==>
              fresh(manager.cache[d]) || (d in old(manager.cache) && manager.cache[d] == old(manager.cache)[d])
    ensures manager.cache.Keys <= old(manager.cache).Keys + {date}
    ensures Refilled(old(Contents(manager.cache)), Contents(manager.cache), date, titles)
  {
    ghost var before := Contents(manager.cache);
    var left := titles.Keys;
    assert titles - left == map[];
    hide Contents, Updated, Normal;
    while left != {}
      invariant left <= titles.Keys
      invariant Apart(manager.cache) && Normal(Contents(manager.cache)) && manager.stored == Contents(manager.cache)
      invariant forall d :: d in manager.cache ==>
                  fresh(manager.cache[d]) || (d in old(manager.cache) && manager.cache[d] == old(manager.cache)[d])
      invariant manager.cache.Keys <= old(manager.cache).Keys + {date}
      invariant Refilled(before, Contents(manager.cache), date, titles - left)
    {
      var title :| title in left;
      ghost var done, now := titles - left, Contents(manager.cache);
      left := left - {title};
      assert titles - left == done[title := titles[title]];
      manager.Update(date, title, titles[title]);
      UpdatedIsNormal(now, date, title, titles[title]);
      RefilledStep(before, now, date, done, title, titles[title]);
    }
    assert titles - {} == titles;
  }

  /** `after` has the positive totals of `titles` on the date, and is as before elsewhere. */
  ghost predicate Refilled(before: Index, after: Index, date: Text, titles: map<Text, int>) {
    forall d, t :: At(after, d, t) == if d == date then Max(0, Reading(titles, t)) else At(before, d, t)
  }

  lemma RefilledStep(before: Index, now: Index, date: Text, done: map<Text, int>, title: Text, total: int)
    requires Refilled(before, now, date, done) && title !in done
    ensures Refilled(before, Updated(now, date, title, total), date, done[title := total])
  {
    var updated := Updated(now, date, title, total);
    hide Updated, At;
    forall d, t
      ensures At(updated, d, t) == if d == date then Max(0, Reading(done[title := total], t)) else At(before, d, t)
    {
      UpdatedAt(now, date, title, total, d, t);
    }
  }

  /** The index has the positive totals of `merged`, except that the dates left are not in yet. */
  ghost predicate RefilledFrom(index: Index, merged: Index, left: set<Text>) {
    && index.Keys !! left
    && forall d, t :: At(index, d, t) == if d in left then 0 else Max(0, At(merged, d, t))
  }

  lemma NextDateRefilled(now: Index, after: Index, merged: Index, left: set<Text>, date: Text)
    requires RefilledFrom(now, merged, left) && date in left && date in merged
    requires Refilled(now, after, date, merged[date]) && after.Keys <= now.Keys + {date}
    ensures RefilledFrom(after, merged, left - {date})
  {
  }

  lemma NothingRefilled(merged: Index)
    ensures RefilledFrom(map[], merged, merged.Keys)
  {
  }

  /** The refill of a cleared index: of the totals, the positive ones come back. */
  method Refill(manager: IndexManager, local: map<Text, TitleDict>)
    requires manager.cache == map[] && manager.stored == map[]
    modifies manager
    ensures Apart(manager.cache) && manager.stored == Contents(manager.cache)
    ensures Contents(manager.cache) == Positive(Contents(local))
    ensures Contents(local) == old(Contents(local))
  {
    ghost var merged := Contents(local);
    ContentsAt(local);
    var left := local.Keys;
    assert Contents(manager.cache) == map[] && Apart(manager.cache) && Normal(map[]);
    NothingRefilled(merged);
    hide Contents, Positive, Refilled, RefilledFrom, Apart, Normal;
    while left != {}
      invariant left <= local.Keys && Contents(local) == merged
      invariant Apart(manager.cache) && Normal(Contents(manager.cache)) && manager.stored == Contents(manager.cache)
      invariant forall d :: d in manager.cache ==> fresh(manager.cache[d])
      invariant RefilledFrom(Contents(manager.cache), merged, left)
    {
      var date :| date in left;
      ghost var now := Contents(manager.cache);
      ContentsAt(local);
      ContentsAt(manager.cache);
      NotYetIn(now, merged, left, date);
      assert merged[date] == local[date].totals;
      RefillDate(manager, date, local[date].totals);
      assert Contents(local) == merged;
      NextDateRefilled(now, Contents(manager.cache), merged, left, date);
      left := left - {date};
    }
    AllRefilled(Contents(manager.cache), merged);
  }

  lemma NotYetIn(index: Index, merged: Index, left: set<Text>, date: Text)
    requires RefilledFrom(index, merged, left) && date in left
    ensures date !in index
  {
  }

  lemma AllRefilled(index: Index, merged: Index)
    requires RefilledFrom(index, merged, {}) && Normal(index)
    ensures index == Positive(merged)
  {
    PositiveIs(merged);
    hide Positive, Normal;
    TotalsDetermine(index, Positive(merged));
  }

  /**
   `_merge_remote_index`. The dictionaries it raises are the manager's own, shared
   by the shallow copy; the result is the join of what was there before all the same.
   */
  method MergeRemoteIndex(manager: IndexManager, remote: Index)
    requires Apart(manager.cache)
    modifies manager, manager.cache.Values
    ensures Apart(manager.cache) && manager.stored == Contents(manager.cache)
    ensures Contents(manager.cache) == Joined(old(Contents(manager.cache)), remote)
  {
    var shared := manager.GetAll();
    var local := RaiseDates(shared, remote);
    manager.Clear();
    Refill(manager, local);
  }
}
