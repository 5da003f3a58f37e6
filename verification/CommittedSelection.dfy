/**
 Which staged entries have already been committed by another client: the
 selection made before they are removed from staging.
 */
module CommittedSelection {
  import opened Json

  /** A staged entry as the selection sees it. */
  datatype Staged = Staged(title: Text, startEpoch: Option<int>)

  datatype Key = Key(date: Text, title: Text)

  type Counts = map<Key, int>

  /** Under what an entry counts; without a title, a start or a date it does not. `dayOf` is the UTC date. */
  function KeyOf(dayOf: int -> Option<Text>, e: Staged): Option<Key> {
    if e.title == "" || e.startEpoch.None? then None
    else
      var date :- dayOf(e.startEpoch.value);
      Some(Key(date, e.title))
  }

  function CountOf(counts: Counts, k: Key): int {
    if k in counts then counts[k] else 0
  }

  /** How many of the entries count under k. */
  function Occurrences(dayOf: int -> Option<Text>, entries: seq<Staged>, k: Key): nat {
    if entries == [] then 0
    else Occurrences(dayOf, entries[..|entries| - 1], k)
         + if KeyOf(dayOf, entries[|entries| - 1]) == Some(k) then 1 else 0
  }

  /** Entry i is among the first of its key, as many as are committed. */
  predicate Selected(dayOf: int -> Option<Text>, entries: seq<Staged>, committed: Counts, i: nat)
    requires i < |entries|
  {
    var k := KeyOf(dayOf, entries[i]);
    k.Some? && Occurrences(dayOf, entries[..i], k.value) < CountOf(committed, k.value)
  }

  /** An entry with this title that starts on this date; without a title it counts nowhere. */
  ghost predicate CountsUnder(dayOf: int -> Option<Text>, e: Staged, date: Text, title: Text) {
    e.title == title != "" && e.startEpoch.Some? && dayOf(e.startEpoch.value) == Some(date)
  }

  ghost function EarlierUnder(dayOf: int -> Option<Text>, entries: seq<Staged>, i: nat, date: Text, title: Text): (js: set<nat>)
    requires i <= |entries|
  {
    set j: nat | j < i && CountsUnder(dayOf, entries[j], date, title)
  }

  /** Fewer entries of its date and title stand before entry i than are committed. */
  ghost predicate IsTaken(dayOf: int -> Option<Text>, entries: seq<Staged>, committed: Counts, i: nat)
    requires i < |entries|
  {
    exists date, title ::
      && CountsUnder(dayOf, entries[i], date, title)
      && Key(date, title) in committed && |EarlierUnder(dayOf, entries, i, date, title)| < committed[Key(date, title)]
  }

  lemma KeyIs(dayOf: int -> Option<Text>, e: Staged, date: Text, title: Text)
    ensures CountsUnder(dayOf, e, date, title) <==> KeyOf(dayOf, e) == Some(Key(date, title))
  {
  }

  lemma {:induction false} OccurrencesAre(dayOf: int -> Option<Text>, entries: seq<Staged>, i: nat, date: Text, title: Text)
    requires i <= |entries|
    ensures Occurrences(dayOf, entries[..i], Key(date, title)) == |EarlierUnder(dayOf, entries, i, date, title)|
  {
    var js := EarlierUnder(dayOf, entries, i, date, title);
    if i == 0 {
      assert js == {};
    } else {
      OccurrencesAre(dayOf, entries, i - 1, date, title);
      KeyIs(dayOf, entries[i - 1], date, title);
      assert entries[..i][..i - 1] == entries[..i - 1];
      var before := EarlierUnder(dayOf, entries, i - 1, date, title);
      hide CountsUnder, KeyOf;
      assert js == if CountsUnder(dayOf, entries[i - 1], date, title) then before + {i - 1} else before;
    }
  }

  lemma SelectedIs(dayOf: int -> Option<Text>, entries: seq<Staged>, committed: Counts, i: nat)
    requires i < |entries|
    ensures Selected(dayOf, entries, committed, i) <==> IsTaken(dayOf, entries, committed, i)
  {
    hide Occurrences, EarlierUnder;
    forall date, title
      ensures CountsUnder(dayOf, entries[i], date, title) <==> KeyOf(dayOf, entries[i]) == Some(Key(date, title))
      ensures Occurrences(dayOf, entries[..i], Key(date, title)) == |EarlierUnder(dayOf, entries, i, date, title)|
    {
      KeyIs(dayOf, entries[i], date, title);
      OccurrencesAre(dayOf, entries, i, date, title);
    }
    hide CountsUnder, KeyOf;
    if Selected(dayOf, entries, committed, i) {
      var k := KeyOf(dayOf, entries[i]).value;
      assert CountsUnder(dayOf, entries[i], k.date, k.title);
    }
  }

  /** What is left of a count after n occurrences. */
  function Left(count: int, n: nat): int {
    if n <= count then count - n else if count > 0 then 0 else count
  }

  method SelectCommitted(dayOf: int -> Option<Text>, entries: seq<Staged>, committed: Counts) returns (indices: seq<nat>)
    ensures Lists(dayOf, entries, committed, indices, |entries|)
    ensures forall i: nat :: i in indices <==> i < |entries| && IsTaken(dayOf, entries, committed, i)
  {
    forall i: nat | i < |entries| ensures Selected(dayOf, entries, committed, i) <==> IsTaken(dayOf, entries, committed, i) {
      SelectedIs(dayOf, entries, committed, i);
    }
    hide IsTaken;
    indices := [];
    var remaining := committed;
    assert entries[..0] == [];
    for i := 0 to |entries|
      invariant Lists(dayOf, entries, committed, indices, i)
      invariant forall k :: CountOf(remaining, k) == Left(CountOf(committed, k), Occurrences(dayOf, entries[..i], k))
    {
      hide Occurrences, Selected, Lists;
      NextEntry(dayOf, entries, committed, indices, i);
      var key := KeyOf(dayOf, entries[i]);
      if key.None? {
        continue;
      }
      var k := key.value;
      assert CountOf(remaining, k) == Left(CountOf(committed, k), Occurrences(dayOf, entries[..i], k));
      if (if k in remaining then remaining[k] else 0) > 0 {
        indices := indices + [i];
        remaining := remaining[k := remaining[k] - 1];
      }
    }
    assert entries[..|entries|] == entries;
  }

  /** `indices` are the selected ones among the first n entries, in order. */
  ghost predicate Lists(dayOf: int -> Option<Text>, entries: seq<Staged>, committed: Counts, indices: seq<nat>, n: nat) {
    && n <= |entries|
    && (forall l, m :: 0 <= l < m < |indices| ==> indices[l] < indices[m])
    && forall i: nat :: i in indices <==> i < n && Selected(dayOf, entries, committed, i)
  }

  lemma NextEntry(dayOf: int -> Option<Text>, entries: seq<Staged>, committed: Counts, indices: seq<nat>, i: nat)
    requires i < |entries| && Lists(dayOf, entries, committed, indices, i)
    ensures var key := KeyOf(dayOf, entries[i]);
            if key.Some? && Occurrences(dayOf, entries[..i], key.value) < CountOf(committed, key.value)
            then Lists(dayOf, entries, committed, indices + [i], i + 1) else Lists(dayOf, entries, committed, indices, i + 1)
    ensures forall k :: Occurrences(dayOf, entries[..i + 1], k)
                        == Occurrences(dayOf, entries[..i], k) + if KeyOf(dayOf, entries[i]) == Some(k) then 1 else 0
  {
    assert entries[..i + 1][..i] == entries[..i];
    hide Occurrences;
    var more := indices + [i];
    assert forall j: nat :: j in more <==> j in indices || j == i;
    assert forall l :: 0 <= l < |indices| ==> indices[l] in indices;
    assert forall l :: 0 <= l < |indices| ==> more[l] == indices[l];
  }

  function SelectedUnder(dayOf: int -> Option<Text>, entries: seq<Staged>, committed: Counts, k: Key, n: nat): nat
    requires n <= |entries|
  {
    if n == 0 then 0
    else SelectedUnder(dayOf, entries, committed, k, n - 1)
         + if KeyOf(dayOf, entries[n - 1]) == Some(k) && Selected(dayOf, entries, committed, n - 1) then 1 else 0
  }

  /** Of each key as many are selected as are both staged and committed. */
  lemma {:induction false} SelectionMatchesCounts(dayOf: int -> Option<Text>, entries: seq<Staged>, committed: Counts,
                                                  k: Key, n: nat)
    requires n <= |entries|
    ensures var staged, count := Occurrences(dayOf, entries[..n], k), CountOf(committed, k);
            SelectedUnder(dayOf, entries, committed, k, n)
            == if count <= 0 then 0 else if staged < count then staged else count
  {
    if n > 0 {
      SelectionMatchesCounts(dayOf, entries, committed, k, n - 1);
      assert entries[..n][..n - 1] == entries[..n - 1];
    } else {
      assert entries[..n] == [];
    }
  }
}
