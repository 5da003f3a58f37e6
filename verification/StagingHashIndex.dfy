/**
 The fast comparison of staging areas: the sorted index, its hash, and the
 entry-by-entry comparison the hash stands for.
 */
module StagingHashIndexes {
  import opened Json
  import opened TextOrder
  import opened Picking
  import opened RowSync

  /** An entry of a hash index. `build` always fills both keys. */
  datatype Item = Item(id: Option<Text>, status: Status)

  datatype Comparison = Comparison(identical: bool, added: seq<Text>, removed: seq<Text>, changed: seq<Text>)

  /** The sort key: `r.get("activity_id", "")`. */
  function KeyOf(x: Item): Text {
    if x.id.Some? then x.id.value else ""
  }

  // ----- Sorting by id ------------------------------------------------------

  /** Places x after every item whose key is not greater. */
  function Place(sorted: seq<Item>, x: Item): seq<Item> {
    if sorted == [] || !TextLess(KeyOf(x), KeyOf(sorted[|sorted| - 1])) then sorted + [x]
    else Place(sorted[..|sorted| - 1], x) + [sorted[|sorted| - 1]]
  }

  /** `sorted(items, key=...)`, which is stable. */
  function ById(items: seq<Item>): seq<Item> {
    if items == [] then [] else Place(ById(items[..|items| - 1]), items[|items| - 1])
  }

  /** The items with one key, in their order. */
  function Under(items: seq<Item>, key: Text): seq<Item> {
    if items == [] then []
    else
      var before, x := Under(items[..|items| - 1], key), items[|items| - 1];
      if KeyOf(x) == key then before + [x] else before
  }

  predicate InOrder(items: seq<Item>) {
    forall i, j :: 0 <= i < j < |items| ==> !TextLess(KeyOf(items[j]), KeyOf(items[i]))
  }

  predicate DistinctIds(items: seq<Item>) {
    forall i, j :: 0 <= i < j < |items| ==> KeyOf(items[i]) != KeyOf(items[j])
  }

  lemma {:induction false} UnderAppend(items: seq<Item>, x: Item, key: Text)
    ensures Under(items + [x], key) == if KeyOf(x) == key then Under(items, key) + [x] else Under(items, key)
  {
    assert (items + [x])[..|items|] == items;
  }

  lemma NotLessTransitive(a: Text, b: Text, c: Text)
    requires !TextLess(b, a) && !TextLess(c, b)
    ensures !TextLess(c, a)
  {
    TextLessTotal(a, b);
    TextLessTotal(b, c);
    if TextLess(c, a) {
      TextLessAsymmetric(a, c);
      if TextLess(a, b) && TextLess(b, c) {
        TextLessTransitive(a, b, c);
      }
    }
  }

  lemma AppendInOrder(items: seq<Item>, x: Item)
    requires InOrder(items) && forall y :: y in items ==> !TextLess(KeyOf(x), KeyOf(y))
    ensures InOrder(items + [x])
  {
    hide TextLess;
  }

  lemma NoneHigher(sorted: seq<Item>, x: Item)
    requires InOrder(sorted) && sorted != [] && !TextLess(KeyOf(x), KeyOf(sorted[|sorted| - 1]))
    ensures forall y :: y in sorted ==> !TextLess(KeyOf(x), KeyOf(y))
  {
    hide TextLess;
    forall i | 0 <= i < |sorted| - 1 ensures !TextLess(KeyOf(x), KeyOf(sorted[i])) {
      NotLessTransitive(KeyOf(sorted[i]), KeyOf(sorted[|sorted| - 1]), KeyOf(x));
    }
  }

  lemma {:induction false} PlaceKeeps(sorted: seq<Item>, x: Item, key: Text)
    requires InOrder(sorted)
    ensures InOrder(Place(sorted, x))
    ensures Under(Place(sorted, x), key) == Under(sorted + [x], key)
    ensures forall y :: y in Place(sorted, x) <==> y in sorted || y == x
  {
    hide TextLess, InOrder, Under;
    UnderAppend(sorted, x, key);
    if sorted == [] {
      AppendInOrder(sorted, x);
    } else if !TextLess(KeyOf(x), KeyOf(sorted[|sorted| - 1])) {
      NoneHigher(sorted, x);
      AppendInOrder(sorted, x);
    } else {
      var init, last := sorted[..|sorted| - 1], sorted[|sorted| - 1];
      InitInOrder(sorted);
      PlaceKeeps(init, x, key);
      UnderAppend(init, x, key);
      UnderAppend(Place(init, x), last, key);
      UnderAppend(init, last, key);
      assert sorted == init + [last];
      TextLessAsymmetric(KeyOf(x), KeyOf(last));
      AppendInOrder(Place(init, x), last);
    }
  }

  lemma InitInOrder(sorted: seq<Item>)
    requires InOrder(sorted) && sorted != []
    ensures var init, last := sorted[..|sorted| - 1], sorted[|sorted| - 1];
            InOrder(init) && forall y :: y in init ==> !TextLess(KeyOf(last), KeyOf(y))
  {
    hide TextLess;
  }

  /** Sorting orders the items and keeps those of each key in their order. */
  lemma {:induction false} SortIsStable(items: seq<Item>, key: Text)
    ensures InOrder(ById(items)) && Under(ById(items), key) == Under(items, key)
    ensures forall y :: y in ById(items) <==> y in items
  {
    if items != [] {
      var init, x := items[..|items| - 1], items[|items| - 1];
      SortIsStable(init, key);
      PlaceKeeps(ById(init), x, key);
      UnderAppend(ById(init), x, key);
      UnderAppend(init, x, key);
      assert items == init + [x];
    }
  }

  lemma {:induction false} UnderHas(items: seq<Item>, key: Text)
    ensures forall x :: x in Under(items, key) <==> x in items && KeyOf(x) == key
  {
    if items != [] {
      UnderHas(items[..|items| - 1], key);
      assert items == items[..|items| - 1] + [items[|items| - 1]];
    }
  }

  lemma NothingUnder(items: seq<Item>)
    ensures (forall key :: Under(items, key) == []) ==> items == []
  {
    if items != [] {
      UnderHas(items, KeyOf(items[0]));
      assert items[0] in Under(items, KeyOf(items[0]));
    }
  }

  /** An ordered list is determined by what it has under each key. */
  lemma {:induction false} OrderedIsUnique(a: seq<Item>, b: seq<Item>)
    requires InOrder(a) && InOrder(b) && forall key :: Under(a, key) == Under(b, key)
    ensures a == b
    decreases |a|
  {
    hide TextLess;
    if a == [] || b == [] {
      NothingUnder(a);
      NothingUnder(b);
    } else {
      var x, y := a[|a| - 1], b[|b| - 1];
      SameLast(a, b);
      var a', b' := a[..|a| - 1], b[..|b| - 1];
      assert a == a' + [x] && b == b' + [y];
      forall key ensures Under(a', key) == Under(b', key) {
        UnderAppend(a', x, key);
        UnderAppend(b', y, key);
        assert Under(a, key) == Under(b, key);
        assert (Under(a', key) + [x])[..|Under(a', key)|] == Under(a', key);
        assert (Under(b', key) + [x])[..|Under(b', key)|] == Under(b', key);
      }
      OrderedIsUnique(a', b');
    }
  }

  lemma LastIsHighest(items: seq<Item>, y: Item)
    requires InOrder(items) && y in items
    ensures !TextLess(KeyOf(items[|items| - 1]), KeyOf(y))
  {
    hide TextLess;
    TextLessIrreflexive(KeyOf(y));
    var i :| 0 <= i < |items| && items[i] == y;
  }

  lemma SameHighestKey(a: seq<Item>, b: seq<Item>)
    requires a != [] && b != []
    requires InOrder(a) && InOrder(b) && forall key :: Under(a, key) == Under(b, key)
    ensures KeyOf(a[|a| - 1]) == KeyOf(b[|b| - 1])
  {
    hide TextLess, InOrder, Under, KeyOf;
    var x, y := a[|a| - 1], b[|b| - 1];
    assert y in a by { UnderHas(a, KeyOf(y)); UnderHas(b, KeyOf(y)); }
    assert x in b by { UnderHas(a, KeyOf(x)); UnderHas(b, KeyOf(x)); }
    LastIsHighest(a, y);
    LastIsHighest(b, x);
    TextLessTotal(KeyOf(x), KeyOf(y));
  }

  lemma SameLast(a: seq<Item>, b: seq<Item>)
    requires a != [] && b != []
    requires InOrder(a) && InOrder(b) && forall key :: Under(a, key) == Under(b, key)
    ensures a[|a| - 1] == b[|b| - 1]
  {
    SameHighestKey(a, b);
    LastUnder(a);
    LastUnder(b);
  }

  lemma LastUnder(items: seq<Item>)
    requires items != []
    ensures var x := items[|items| - 1]; var u := Under(items, KeyOf(x)); u != [] && u[|u| - 1] == x
  {
  }

  // ----- The operations -----------------------------------------------------

  /** What a status stands for once an absent one reads "active". */
  function Shown(s: Status): Status {
    if s == Missing then Is("active") else s
  }

  /** The entries of the rows that have an id, in row order. */
  function Indexed(rows: seq<Row>): seq<Item> {
    if rows == [] then []
    else
      var before, r := Indexed(rows[..|rows| - 1]), rows[|rows| - 1];
      if HasId(r) then before + [Item(r.id, Shown(r.status))] else before
  }

  method Build(rows: Option<seq<Row>>) returns (index: seq<Item>)
    ensures index == if rows.Some? then ById(Indexed(rows.value)) else []
  {
    if rows.None? || rows.value == [] {
      return [];
    }
    var list := rows.value;
    index := [];
    for i := 0 to |list|
      invariant index == Indexed(list[..i])
    {
      assert list[..i + 1][..i] == list[..i];
      if HasId(list[i]) {
        index := index + [Item(list[i].id, if list[i].status.Missing? then Is("active") else list[i].status)];
      }
    }
    assert list[..|list|] == list;
    index := ById(index);
  }

  /** The item a row with an id becomes: its id and status, "active" when it names no status. */
  ghost predicate ItemOf(r: Row, x: Item) {
    && r.id.Some? && r.id.value != "" && x.id == r.id
    && x.status == if r.status == Missing then Is("active") else r.status
  }

  /** The items are those of the rows with an id, in row order. */
  ghost predicate ItemsOf(rows: seq<Row>, items: seq<Item>) {
    exists picked: seq<Row> ::
      && PickedFrom(rows, WithIds(rows), picked)
      && |items| == |picked| && forall k :: 0 <= k < |items| ==> ItemOf(picked[k], items[k])
  }

  ghost function WithIds(rows: seq<Row>): (at: set<nat>)
    ensures forall i: nat :: i in at <==> i < |rows| && rows[i].id.Some? && rows[i].id.value != ""
  {
    set i: nat | i < |rows| && rows[i].id.Some? && rows[i].id.value != ""
  }

  lemma ItemTaken(rows: seq<Row>, r: Row, items: seq<Item>, x: Item)
    requires ItemsOf(rows, items) && ItemOf(r, x)
    ensures ItemsOf(rows + [r], items + [x])
  {
    hide PickedFrom;
    var picked: seq<Row> :| && PickedFrom(rows, WithIds(rows), picked) && |items| == |picked|
                            && forall k :: 0 <= k < |items| ==> ItemOf(picked[k], items[k]);
    PickedNext(rows, r, WithIds(rows), picked);
    assert WithIds(rows + [r]) == WithIds(rows) + {|rows|};
    hide ItemOf;
    assert PickedFrom(rows + [r], WithIds(rows + [r]), picked + [r]);
  }

  lemma RowPassed(rows: seq<Row>, r: Row, items: seq<Item>)
    requires ItemsOf(rows, items) && !HasId(r)
    ensures ItemsOf(rows + [r], items)
  {
    hide PickedFrom, ItemOf;
    var picked: seq<Row> :| && PickedFrom(rows, WithIds(rows), picked) && |items| == |picked|
                            && forall k :: 0 <= k < |items| ==> ItemOf(picked[k], items[k]);
    PickedSkip(rows, r, WithIds(rows), picked);
    assert WithIds(rows + [r]) == WithIds(rows);
    assert PickedFrom(rows + [r], WithIds(rows + [r]), picked);
  }

  lemma {:induction false} IndexedMeans(rows: seq<Row>)
    ensures ItemsOf(rows, Indexed(rows))
  {
    if rows == [] {
      PickedNone(rows);
      hide PickedFrom;
      assert WithIds(rows) == {};
      assert PickedFrom(rows, WithIds(rows), []);
    } else {
      var n := |rows| - 1;
      var init, r := rows[..n], rows[n];
      IndexedMeans(init);
      assert rows == init + [r];
      hide ItemsOf;
      if HasId(r) {
        ItemTaken(init, r, Indexed(init), Item(r.id, Shown(r.status)));
      } else {
        RowPassed(init, r, Indexed(init));
      }
    }
  }

  /** The last item with the id. */
  ghost predicate LastWithId(index: seq<Item>, id: Text, x: Item) {
    exists i :: && 0 <= i < |index| && index[i] == x && x.id == Some(id)
                && forall j :: i < j < |index| ==> index[j].id != Some(id)
  }

  /** The lookup has the status of the last item of every id that is not empty, "active" when it has none. */
  lemma {:induction false} StatusesMean(index: seq<Item>, id: Text)
    ensures id in Statuses(index) <==> id != "" && exists x :: x in index && x.id == Some(id)
    ensures id in Statuses(index) ==>
              exists x :: LastWithId(index, id, x)
                          && Statuses(index)[id] == if x.status == Missing then Is("active") else x.status
  {
    if index != [] {
      var n := |index| - 1;
      var init := index[..n];
      StatusesMean(init, id);
      assert index == init + [index[n]];
      if id in Statuses(index) {
        if index[n].id == Some(id) {
          assert LastWithId(index, id, index[n]);
        } else {
          var x :| LastWithId(init, id, x) && Statuses(init)[id] == if x.status == Missing then Is("active") else x.status;
          StillLast(init, index[n], id, x);
        }
      }
    }
  }

  lemma StillLast(init: seq<Item>, last: Item, id: Text, x: Item)
    requires LastWithId(init, id, x) && last.id != Some(id)
    ensures LastWithId(init + [last], id, x)
  {
    var i :| 0 <= i < |init| && init[i] == x && x.id == Some(id) && forall j :: i < j < |init| ==> init[j].id != Some(id);
    assert (init + [last])[i] == x;
  }

  /** The hash of an index; `digest` is SHA-256 over the JSON text of the sorted list. */
  function ComputeHash(digest: seq<Item> -> Text, index: seq<Item>): Text {
    digest(ById(index))
  }

  /** The status under each id; the last entry of an id wins. */
  function Statuses(index: seq<Item>): map<Text, Status> {
    if index == [] then map[]
    else
      var before, x := Statuses(index[..|index| - 1]), index[|index| - 1];
      if KeyOf(x) != "" then before[KeyOf(x) := Shown(x.status)] else before
  }

  method BuildLookupMap(index: seq<Item>) returns (m: map<Text, Status>)
    ensures m == Statuses(index)
  {
    m := map[];
    for i := 0 to |index|
      invariant m == Statuses(index[..i])
    {
      assert index[..i + 1][..i] == index[..i];
      var x := index[i];
      if x.id.Some? && x.id.value != "" {
        m := m[x.id.value := if x.status.Missing? then Is("active") else x.status];
      }
    }
    assert index[..|index|] == index;
  }

  /** c lists, each in ascending order, the ids only r has, only l has, and that both have with another status. */
  ghost predicate Compares(l: map<Text, Status>, r: map<Text, Status>, c: Comparison) {
    && Ascending(c.added) && (forall id :: id in c.added <==> id in r && id !in l)
    && Ascending(c.removed) && (forall id :: id in c.removed <==> id in l && id !in r)
    && Ascending(c.changed) && (forall id :: id in c.changed <==> id in l && id in r && l[id] != r[id])
    && (c.identical <==> l == r)
  }

  method Compare(local: Option<seq<Item>>, remote: Option<seq<Item>>) returns (c: Comparison)
    ensures Compares(Statuses(if local.Some? then local.value else []),
                     Statuses(if remote.Some? then remote.value else []), c)
  {
    hide Statuses, TextLess;
    var localMap := BuildLookupMap(if local.Some? then local.value else []);
    var remoteMap := BuildLookupMap(if remote.Some? then remote.value else []);
    var added, removed, changed: set<Text> := {}, {}, {};
    var left := remoteMap.Keys;
    while left != {}
      invariant left <= remoteMap.Keys
      invariant added == set id | id in remoteMap && id !in left && id !in localMap
      invariant changed == set id | id in remoteMap && id !in left && id in localMap && localMap[id] != remoteMap[id]
    {
      var id :| id in left;
      left := left - {id};
      if id !in localMap {
        added := added + {id};
      } else if localMap[id] != remoteMap[id] {
        changed := changed + {id};
      }
    }
    left := localMap.Keys;
    while left != {}
      invariant left <= localMap.Keys
      invariant removed == set id | id in localMap && id !in left && id !in remoteMap
    {
      var id :| id in left;
      left := left - {id};
      if id !in remoteMap {
        removed := removed + {id};
      }
    }
    var addedIds := SortTexts(added);
    var removedIds := SortTexts(removed);
    var changedIds := SortTexts(changed);
    c := Comparison(addedIds == [] && removedIds == [] && changedIds == [], addedIds, removedIds, changedIds);
    SameMapsIff(localMap, remoteMap, c);
  }

  lemma SameMapsIff(l: map<Text, Status>, r: map<Text, Status>, c: Comparison)
    requires forall id :: id in c.added <==> id in r && id !in l
    requires forall id :: id in c.removed <==> id in l && id !in r
    requires forall id :: id in c.changed <==> id in l && id in r && l[id] != r[id]
    ensures c.added == [] && c.removed == [] && c.changed == [] <==> l == r
  {
    if c.added == [] && c.removed == [] && c.changed == [] {
      assert forall id :: id !in c.added && id !in c.removed && id !in c.changed;
    } else if l == r {
      Nothing(c.added);
      Nothing(c.removed);
      Nothing(c.changed);
    }
  }

  /** Swapping the arguments swaps what was added with what was removed, and nothing else. */
  lemma CompareSwaps(l: map<Text, Status>, r: map<Text, Status>, c: Comparison, d: Comparison)
    requires Compares(l, r, c) && Compares(r, l, d)
    ensures d == Comparison(c.identical, c.removed, c.added, c.changed)
  {
    hide Ascending;
    AscendingIsUnique(c.added, d.removed);
    AscendingIsUnique(c.removed, d.added);
    AscendingIsUnique(c.changed, d.changed);
  }

  // ----- What the hash stands for -------------------------------------------

  ghost predicate Injective(digest: seq<Item> -> Text) {
    forall a, b :: digest(a) == digest(b) ==> a == b
  }

  ghost predicate SameUnderEach(a: seq<Item>, b: seq<Item>) {
    forall key :: Under(a, key) == Under(b, key)
  }

  /** Two indexes hash alike exactly when they list the same items under every id. */
  lemma HashesAlikeIff(digest: seq<Item> -> Text, a: seq<Item>, b: seq<Item>)
    requires Injective(digest)
    ensures ComputeHash(digest, a) == ComputeHash(digest, b) <==> SameUnderEach(a, b)
  {
    hide ById, Under;
    var sa, sb := ById(a), ById(b);
    SortIsStable(a, "");
    SortIsStable(b, "");
    assert digest(sa) == digest(sb) ==> sa == sb;
    if sa == sb {
      forall key ensures Under(a, key) == Under(b, key) {
        SortIsStable(a, key);
        SortIsStable(b, key);
      }
    } else if SameUnderEach(a, b) {
      forall key ensures Under(sa, key) == Under(sb, key) {
        SortIsStable(a, key);
        SortIsStable(b, key);
        assert Under(a, key) == Under(b, key);
      }
      OrderedIsUnique(sa, sb);
    }
  }

  lemma NoItems(items: seq<Item>)
    ensures (forall x :: x !in items) ==> items == []
  {
    if items != [] {
      assert items[0] in items;
    }
  }

  lemma {:induction false} OneUnderEach(items: seq<Item>, key: Text)
    requires DistinctIds(items)
    ensures |Under(items, key)| <= 1
  {
    if items != [] {
      var init, x := items[..|items| - 1], items[|items| - 1];
      OneUnderEach(init, key);
      if KeyOf(x) == key {
        UnderHas(init, key);
        assert forall i :: 0 <= i < |init| ==> init[i] == items[i];
        NoItems(Under(init, key));
      }
    }
  }

  /** With distinct ids the order of the entries does not matter, whatever the digest. */
  lemma HashIgnoresOrder(digest: seq<Item> -> Text, a: seq<Item>, b: seq<Item>)
    requires DistinctIds(a) && DistinctIds(b) && multiset(a) == multiset(b)
    ensures ComputeHash(digest, a) == ComputeHash(digest, b)
  {
    hide ById, Under;
    forall key ensures Under(ById(a), key) == Under(ById(b), key) {
      SortIsStable(a, key);
      SortIsStable(b, key);
      UnderHas(a, key);
      UnderHas(b, key);
      OneUnderEach(a, key);
      OneUnderEach(b, key);
      SameSingles(a, b, Under(a, key), Under(b, key));
    }
    SortIsStable(a, "");
    SortIsStable(b, "");
    OrderedIsUnique(ById(a), ById(b));
  }

  lemma SameSingles(a: seq<Item>, b: seq<Item>, u: seq<Item>, v: seq<Item>)
    requires multiset(a) == multiset(b) && |u| <= 1 && |v| <= 1
    requires forall x :: x in u ==> x in a
    requires forall x :: x in v ==> x in b
    requires forall x :: x in a && x in b ==> (x in u <==> x in v)
    ensures u == v
  {
    assert forall x :: x in a <==> x in multiset(a);
    assert forall x :: x in b <==> x in multiset(b);
    if u != [] {
      assert u[0] in u;
    }
    if v != [] {
      assert v[0] in v;
    }
  }

  lemma {:induction false} StatusesUnder(index: seq<Item>, key: Text)
    ensures key in Statuses(index) <==> key != "" && Under(index, key) != []
    ensures key in Statuses(index) ==>
              var u := Under(index, key); Statuses(index)[key] == Shown(u[|u| - 1].status)
  {
    if index != [] {
      StatusesUnder(index[..|index| - 1], key);
    }
  }

  lemma SortKeepsStatuses(index: seq<Item>)
    ensures Statuses(ById(index)) == Statuses(index)
  {
    hide ById, Under, Statuses;
    forall key
      ensures key in Statuses(ById(index)) <==> key in Statuses(index)
      ensures key in Statuses(index) ==> Statuses(ById(index))[key] == Statuses(index)[key]
    {
      SortIsStable(index, key);
      StatusesUnder(index, key);
      StatusesUnder(ById(index), key);
    }
    assert Statuses(ById(index)).Keys == Statuses(index).Keys;
  }

  /** An index as `build` makes it: every entry with an id and a status. */
  predicate Built(index: seq<Item>) {
    forall x :: x in index ==> x.id.Some? && x.id.value != "" && x.status != Missing
  }

  /** With distinct ids the status of each id says what is listed under it. */
  lemma UnderIsStatus(index: seq<Item>, key: Text)
    requires Built(index) && DistinctIds(index)
    ensures Under(index, key) == if key in Statuses(index) then [Item(Some(key), Statuses(index)[key])] else []
  {
    OneUnderEach(index, key);
    UnderHas(index, key);
    StatusesUnder(index, key);
    hide Under, Statuses;
    var u := Under(index, key);
    if u != [] {
      assert u[0] in u;
    }
  }

  /**
   The hash decides what the comparison decides. Indexes that hash alike always
   compare as identical; with distinct ids the converse holds as well.
   */
  lemma HashAgreesWithComparison(digest: seq<Item> -> Text, l: seq<Item>, r: seq<Item>, c: Comparison)
    requires Injective(digest) && Compares(Statuses(l), Statuses(r), c)
    ensures ComputeHash(digest, l) == ComputeHash(digest, r) ==> c.identical
    ensures Built(l) && Built(r) && DistinctIds(l) && DistinctIds(r)
            ==> (ComputeHash(digest, l) == ComputeHash(digest, r) <==> c.identical)
  {
    hide ById, Under, Statuses, Built, DistinctIds;
    if ComputeHash(digest, l) == ComputeHash(digest, r) {
      assert ById(l) == ById(r);
      SortKeepsStatuses(l);
      SortKeepsStatuses(r);
    } else if Built(l) && Built(r) && DistinctIds(l) && DistinctIds(r) {
      HashesAlikeIff(digest, l, r);
      var key :| Under(l, key) != Under(r, key);
      UnderIsStatus(l, key);
      UnderIsStatus(r, key);
    }
  }

  /** Without distinct ids it does not: an overwritten entry still goes into the hash. */
  lemma RepeatedIdsHashApart(digest: seq<Item> -> Text) returns (l: seq<Item>, r: seq<Item>)
    requires Injective(digest)
    ensures Built(l) && Built(r) && Statuses(l) == Statuses(r)
    ensures ComputeHash(digest, l) != ComputeHash(digest, r)
  {
    var x, y := Item(Some("a"), Is("active")), Item(Some("a"), Is("done"));
    l, r := [x, y], [y];
    OneOverTheOther(x, y);
    hide ById, Statuses;
    SortHas(l, x);
    SortHas(r, x);
    var sl, sr := ById(l), ById(r);
    assert x in sl && x !in sr;
    assert digest(sl) == digest(sr) ==> sl == sr;
  }

  lemma SortHas(items: seq<Item>, x: Item)
    ensures x in ById(items) <==> x in items
  {
    hide ById;
    SortIsStable(items, "");
  }

  lemma OneOverTheOther(x: Item, y: Item)
    requires KeyOf(x) == KeyOf(y) != ""
    ensures Statuses([x, y]) == Statuses([y])
  {
    assert [x, y][..1] == [x] && [y][..0] == [] && [x][..0] == [];
  }

  // ----- The fast comparison and the row diff -------------------------------

  lemma {:induction false} IndexedStatuses(rows: seq<Row>)
    ensures Built(Indexed(rows))
    ensures Statuses(Indexed(rows)).Keys == Lookup(rows).Keys
    ensures forall id :: id in Lookup(rows) ==> Statuses(Indexed(rows))[id] == Shown(Lookup(rows)[id].status)
  {
    if rows != [] {
      var init, r := rows[..|rows| - 1], rows[|rows| - 1];
      IndexedStatuses(init);
      if HasId(r) {
        var x := Item(r.id, Shown(r.status));
        assert (Indexed(init) + [x])[..|Indexed(init)|] == Indexed(init);
      }
    }
  }

  /**
   Both tiers on the same two row lists. An empty diff plan means that the indexes
   compare as identical exactly when rows without a status text lack it in the same
   way: the diff reads an absent, a null and an empty status alike, the index does not.
   */
  lemma EmptyPlanIdenticalIff(local: seq<Row>, remote: seq<Row>, committed: set<Text>, c: Comparison)
    requires PlanOf(local, remote, committed) == Diff([], [], [], true)
    requires Compares(Statuses(ById(Indexed(local))), Statuses(ById(Indexed(remote))), c)
    ensures var l, r := Lookup(local), Lookup(remote);
            c.identical <==> forall id :: id in l && id in r && Blank(l[id].status) ==> l[id].status == r[id].status
  {
    EmptyPlanIff(local, remote, committed);
    AgreesIs(Lookup(local), Lookup(remote));
    SortKeepsStatuses(Indexed(local));
    SortKeepsStatuses(Indexed(remote));
    IndexedStatuses(local);
    IndexedStatuses(remote);
    hide PlanOf, ById, Indexed, Lookup, Statuses;
    var l, r := Statuses(Indexed(local)), Statuses(Indexed(remote));
    if forall id :: id in l && id in r && Blank(Lookup(local)[id].status)
                    ==> Lookup(local)[id].status == Lookup(remote)[id].status {
      assert l.Keys == r.Keys;
      forall id | id in l ensures l[id] == r[id] {
        assert StatusOf(Lookup(local)[id]) == StatusOf(Lookup(remote)[id]);
      }
    } else {
      var id :| id in l && id in r && Blank(Lookup(local)[id].status)
                && Lookup(local)[id].status != Lookup(remote)[id].status;
      assert StatusOf(Lookup(remote)[id]) == "";
      assert l[id] != r[id];
    }
  }

  /**
   The other way about: identical indexes leave the diff nothing to do exactly when
   the timestamps agree and no absent status faces an explicit "active".
   */
  lemma IdenticalPlanIsEmptyIff(local: seq<Row>, remote: seq<Row>, committed: set<Text>, c: Comparison)
    requires Compares(Statuses(ById(Indexed(local))), Statuses(ById(Indexed(remote))), c) && c.identical
    ensures var l, r := Lookup(local), Lookup(remote);
            PlanOf(local, remote, committed) == Diff([], [], [], true)
            <==> forall id :: id in l && id in r ==>
                   && !Later(l[id].updatedAt, r[id].updatedAt) && !Later(r[id].updatedAt, l[id].updatedAt)
                   && l[id].status == r[id].status
  {
    EmptyPlanIff(local, remote, committed);
    SortKeepsStatuses(Indexed(local));
    SortKeepsStatuses(Indexed(remote));
    IndexedStatuses(local);
    IndexedStatuses(remote);
    hide PlanOf, ById, Indexed, Lookup, Statuses;
    var l, r := Lookup(local), Lookup(remote);
    assert l.Keys == r.Keys;
    assert forall id :: id in l ==> Shown(l[id].status) == Shown(r[id].status);
  }

  /** A row without the key and a row with an empty text: nothing to sync, and not identical. */
  lemma MissingAndEmptyPart(committed: set<Text>, c: Comparison) returns (local: seq<Row>, remote: seq<Row>)
    ensures PlanOf(local, remote, committed) == Diff([], [], [], true)
    ensures Compares(Statuses(ById(Indexed(local))), Statuses(ById(Indexed(remote))), c) ==> !c.identical
  {
    var a, b := Row(Some("a"), Missing, Some(1), ""), Row(Some("a"), Is(""), Some(1), "");
    local, remote := [a], [b];
    OneRow(a);
    OneRow(b);
    EmptyPlanIff(local, remote, committed);
    AgreesIs(Lookup(local), Lookup(remote));
    hide PlanOf, Compares, Lookup, Indexed, ById, Statuses;
    if Compares(Statuses(ById(Indexed(local))), Statuses(ById(Indexed(remote))), c) {
      EmptyPlanIdenticalIff(local, remote, committed, c);
      var l, r := Lookup(local), Lookup(remote);
      assert "a" in l && "a" in r && Blank(l["a"].status) && l["a"].status != r["a"].status;
    }
  }

  lemma OneRow(r: Row)
    requires HasId(r)
    ensures Lookup([r]) == map[r.id.value := r]
  {
    assert [r][..0] == [];
  }
}
