/**
 The user's changes to the entries of a selection: which entry each of them
 reaches, and what a selective sync conserves in their presence.
 */
module Overrides {
  import opened Json
  import opened Blocks
  import opened EntryCommit
  import opened SyncDay
  import opened LedgerDomains

  // ----- Which entry an override reaches ------------------------------------

  /** The position whose override the k-th entry gets when the overrides were
      given for the positions `given`. */
  function Reaching(indices: seq<nat>, given: set<nat>, k: nat): Option<nat> {
    if k < |indices| && indices[k] in given then Some(indices[k]) else None
  }

  /** Every entry gets the override of its own position, and no other. Looked up by
      the list of the kept positions themselves, that is what all overrides do. */
  ghost predicate ReachTheirOwn(p: Primitives, key: Bytes, s: Selection, indices: seq<nat>, given: set<nat>, draws: Draws)
    requires Within(s.staging, s.kept)
  {
    forall overrides: map<nat, Override> | overrides.Keys == given ::
      Selected(p, key, s, indices, overrides, draws, |s.kept|) == Selected(p, key, s, s.kept, overrides, draws, |s.kept|)
  }

  /** The caller's list names, in its place, every kept position that has an
      override, and no other one that has. */
  predicate NamedInPlace(indices: seq<nat>, kept: seq<nat>, given: set<nat>) {
    forall k :: 0 <= k < |kept| && ((k < |indices| && indices[k] in given) || kept[k] in given) ==>
                  k < |indices| && indices[k] == kept[k]
  }

  lemma {:induction false} SameReachSameSelection(p: Primitives, key: Bytes, s: Selection, indices: seq<nat>,
                                                  overrides: map<nat, Override>, draws: Draws, n: nat)
    requires n <= |s.kept| && Within(s.staging, s.kept) && NamedInPlace(indices, s.kept, overrides.Keys)
    ensures Selected(p, key, s, indices, overrides, draws, n) == Selected(p, key, s, s.kept, overrides, draws, n)
  {
    hide Overridden, CompactEntryHash;
    if n > 0 {
      SameReachSameSelection(p, key, s, indices, overrides, draws, n - 1);
    }
  }

  /** Overrides that change the comment alone, each to its own number. */
  function Comments(given: set<nat>, base: nat): (r: map<nat, Override>)
    ensures r.Keys == given
  {
    map i | i in given :: Override(None, Some(Int(base + i)), None)
  }

  function Commented(d: Data, base: nat, from: Option<nat>): Data {
    if from.Some? then d[Comment := Int(base + from.value)] else d
  }

  lemma {:induction false} CommentsSelect(p: Primitives, key: Bytes, s: Selection, indices: seq<nat>, given: set<nat>,
                                          base: nat, draws: Draws, n: nat, k: nat)
    requires k < n <= |s.kept| && Within(s.staging, s.kept)
    ensures var es := Selected(p, key, s, indices, Comments(given, base), draws, n);
            && es.Some?
            && es.value[k].data == Commented(s.staging[s.kept[k]].data, base, Reaching(indices, given, k))
  {
    hide CompactEntryHash, WithNewEnd;
    if k < n - 1 {
      CommentsSelect(p, key, s, indices, given, base, draws, n - 1, k);
    } else if n > 1 {
      CommentsSelect(p, key, s, indices, given, base, draws, n - 1, 0);
    }
  }

  /** A number no smaller than one more than the comment, if that is a number. */
  function Beyond(d: Data): nat {
    var c := Get(d, Comment);
    if c.Int? && c.n >= 0 then c.n + 1 else 0
  }

  lemma CommentsTell(d: Data, a: Option<nat>, b: Option<nat>)
    requires a != b
    ensures Commented(d, Beyond(d), a) != Commented(d, Beyond(d), b)
  {
    assert Get(Commented(d, Beyond(d), a), Comment) != Get(Commented(d, Beyond(d), b), Comment);
  }

  /** Whatever the overrides say, each reaches the entry it was given for exactly
      when the caller's list names the kept positions that have one in the order in
      which the entries are visited. */
  lemma OverridesReachTheirOwnIff(p: Primitives, key: Bytes, s: Selection, indices: seq<nat>, given: set<nat>, draws: Draws)
    requires Within(s.staging, s.kept)
    ensures ReachTheirOwn(p, key, s, indices, given, draws) <==> NamedInPlace(indices, s.kept, given)
  {
    var n := |s.kept|;
    hide Selected, Commented, Comments;
    if NamedInPlace(indices, s.kept, given) {
      forall overrides: map<nat, Override> | overrides.Keys == given
        ensures Selected(p, key, s, indices, overrides, draws, n) == Selected(p, key, s, s.kept, overrides, draws, n)
      {
        SameReachSameSelection(p, key, s, indices, overrides, draws, n);
      }
    } else {
      var k: nat :| k < n && ((k < |indices| && indices[k] in given) || s.kept[k] in given)
                    && !(k < |indices| && indices[k] == s.kept[k]);
      var d := s.staging[s.kept[k]].data;
      var overrides := Comments(given, Beyond(d));
      CommentsSelect(p, key, s, indices, given, Beyond(d), draws, n, k);
      CommentsSelect(p, key, s, s.kept, given, Beyond(d), draws, n, k);
      CommentsTell(d, Reaching(indices, given, k), Reaching(s.kept, given, k));
      assert overrides.Keys == given;
      assert Selected(p, key, s, indices, overrides, draws, n) != Selected(p, key, s, s.kept, overrides, draws, n);
    }
  }

  /** Two bare entries, listed last one first and visited in ascending order: the
      comment given for the second becomes that of the first. */
  lemma CommentLandsOnAnotherEntry(p: Primitives, key: Bytes, comment: Value, draws: Draws)
    ensures var staging := [Entry("", map[]), Entry("", map[])];
            var s := NormalizeChosen(p, key, staging, Chosen(staging, [0, 1]));
            var es := Selected(p, key, s, [1, 0], map[1 := Override(None, Some(comment), None)], draws, |s.kept|);
            && s.kept == [0, 1] && es.Some?
            && Get(es.value[0].data, Comment) == comment && Comment !in es.value[1].data
  {
    var staging := [Entry("", map[]), Entry("", map[])];
    BothChosen(staging);
    BothKept(p, key);
    var s := NormalizeChosen(p, key, staging, [0, 1]);
    var overrides := map[1 := Override(None, Some(comment), None)];
    hide Chosen, NormalizeChosen, CompactEntryHash, WithNewEnd;
    var first := Selected(p, key, s, [1, 0], overrides, draws, 1);
    assert Selected(p, key, s, [1, 0], overrides, draws, 0) == Some([]);
    assert first.Some? && Get(first.value[0].data, Comment) == comment;
  }

  lemma BothChosen(staging: seq<Entry>)
    requires staging == [Entry("", map[]), Entry("", map[])]
    ensures Chosen(staging, [0, 1]) == [0, 1]
  {
    assert [0, 1][..1] == [0];
    assert Chosen(staging, [0]) == [0];
  }

  lemma BothKept(p: Primitives, key: Bytes)
    ensures var s := NormalizeChosen(p, key, [Entry("", map[]), Entry("", map[])], [0, 1]);
            s.kept == [0, 1] && Comment !in s.staging[0].data && Comment !in s.staging[1].data
  {
    var bare := Entry("", map[]);
    var paused: Data := map[Enc(Pauses) := Str(PLAIN + "[]")];
    BareNormalizes(p, key);
    hide Normalized;
    assert [0, 1][..1] == [0];
    assert NormalizeChosen(p, key, [bare, bare], [0]) == Selection([bare.(data := paused), bare], [0]);
  }

  lemma BareNormalizes(p: Primitives, key: Bytes)
    ensures Normalized(p, key, map[], NORMALIZED_FIELDS) == (map[Enc(Pauses) := Str(PLAIN + "[]")], true)
  {
    var fs: seq<Field> := NORMALIZED_FIELDS;
    assert NormalizedField(p, key, map[], Enc(Pauses)) == Some(map[Enc(Pauses) := Str(PLAIN + "[]")]);
    NothingToNormalize(p, key, fs);
    NothingToNormalize(p, key, fs[1..]);
    NothingToNormalize(p, key, fs[1..][1..]);
    assert fs[1..][1..][1..] == [Enc(Pauses)];
    hide NormalizedField;
  }

  lemma NothingToNormalize(p: Primitives, key: Bytes, fs: seq<Field>)
    requires fs != [] && fs[0] != Enc(Pauses)
    ensures Normalized(p, key, map[], fs) == Normalized(p, key, map[], fs[1..])
  {
    assert NormalizedField(p, key, map[], fs[0]) == Some(map[]);
    hide NormalizedField;
  }

  // ----- What an override changes -------------------------------------------

  /** The fields an override may touch. */
  const CHANGEABLE: set<Field> := {Enc(EndTime), Enc(Pauses), Duration, Comment, Media}

  /** The list of pauses an entry carries, as text. */
  function PausesOf(p: Primitives, key: Bytes, d: Data): Option<Text> {
    if Get(d, Enc(Pauses)) == Null then Some("[]") else ReadText(p, key, d[Enc(Pauses)])
  }

  /** Parsing a list of pauses and writing it out again keeps the time paused. */
  ghost predicate DumpingKeepsPauses(p: Primitives) {
    forall t :: p.pausedTime(t).Some? ==> p.pausedTime(p.dumpPauses(t)) == p.pausedTime(t)
  }

  /** `after` is `before` with the override's end, comment and media, the duration
      that goes with the end, and nothing else changed but the pauses' text. */
  ghost predicate OverriddenAsAsked(p: Primitives, key: Bytes, before: Data, ov: Override, after: Data) {
    && AgreeBut(before, after, CHANGEABLE)
    && Get(after, Comment) == (if ov.comment.Some? then ov.comment.value else Get(before, Comment))
    && Get(after, Media) == (if ov.media.Some? then ov.media.value else Get(before, Media))
    && (ov.endEpoch.None? ==> AgreeBut(before, after, {Comment, Media}))
    && (ov.endEpoch.Some? ==> EndsAt(p, key, before, ov.endEpoch.value, after))
  }

  /** The entry ends at `end`, and its duration is the time since its start without
      the closed pauses, which are those it had. */
  ghost predicate EndsAt(p: Primitives, key: Bytes, before: Data, end: int, after: Data) {
    var start, pauses := ReadInt(p, key, Get(before, Enc(StartTime))), PausesOf(p, key, before);
    && TellsInt(p, key, Get(after, Enc(EndTime)), end)
    && start.Some? && TellsInt(p, key, Get(before, Enc(StartTime)), start.value)
    && pauses.Some? && p.pausedTime(pauses.value).Some?
    && (var ran := end - start.value - p.pausedTime(pauses.value).value; Get(after, Duration) == Int(if ran > 0 then ran else 0))
    && PausesOf(p, key, after).Some?
    && p.pausedTime(PausesOf(p, key, after).value) == p.pausedTime(pauses.value)
  }

  /** The pauses of an entry are told by its field, and none if it has no field. */
  lemma PausesAre(p: Primitives, key: Bytes, d: Data, t: Text)
    ensures PausesOf(p, key, d) == Some(t)
       <==> if Get(d, Enc(Pauses)) == Null then t == "[]" else Tells(p, key, d[Enc(Pauses)], t)
  {
    ReadTextIs(p, key, Get(d, Enc(Pauses)), t);
    hide ReadText, Tells;
  }

  lemma NewEndKeeps(p: Primitives, key: Bytes, d: Data, end: int, draws: FieldDraws)
    requires DecryptsOwnCiphertexts(p) && IntegersRoundTrip(p) && DumpingKeepsPauses(p)
    requires WithNewEnd(p, key, d, end, draws).Some?
    ensures var e := WithNewEnd(p, key, d, end, draws).value;
            AgreeBut(d, e, {Enc(EndTime), Enc(Pauses), Duration}) && EndsAt(p, key, d, end, e)
  {
    hide ReconciledPauses, ReadText, ReadInt, TellsInt, Fresh, DecryptsOwnCiphertexts, IntegersRoundTrip, DumpingKeepsPauses;
    var ended := d[Enc(EndTime) := Fresh(p, key, p.showInt(end), draws, Enc(EndTime))];
    FreshIntReads(p, key, end, draws, Enc(EndTime));
    StartIsTold(p, key, d);
    ReconcilingKeepsPauses(p, key, ended, draws);
    var (reconciled, pauses) := ReconciledPauses(p, key, ended, draws).value;
    EndAndDurationOnly(p, key, d, ended, reconciled, WithNewEnd(p, key, d, end, draws).value);
  }

  lemma FreshIntReads(p: Primitives, key: Bytes, n: int, draws: FieldDraws, f: Field)
    requires DecryptsOwnCiphertexts(p) && IntegersRoundTrip(p)
    ensures TellsInt(p, key, Fresh(p, key, p.showInt(n), draws, f), n)
  {
    assert ReadText(p, key, Fresh(p, key, p.showInt(n), draws, f)) == Some(p.showInt(n));
    ReadIntIs(p, key, Fresh(p, key, p.showInt(n), draws, f), n);
    hide TellsInt;
  }

  lemma StartIsTold(p: Primitives, key: Bytes, d: Data)
    ensures var start := ReadInt(p, key, Get(d, Enc(StartTime)));
            start.Some? ==> TellsInt(p, key, Get(d, Enc(StartTime)), start.value)
  {
    var start := ReadInt(p, key, Get(d, Enc(StartTime)));
    if start.Some? {
      ReadIntIs(p, key, Get(d, Enc(StartTime)), start.value);
    }
    hide TellsInt, ReadInt;
  }

  lemma EndAndDurationOnly(p: Primitives, key: Bytes, d: Data, ended: Data, reconciled: Data, e: Data)
    requires AgreeBut(d, ended, {Enc(EndTime)}) && AgreeBut(ended, reconciled, {Enc(Pauses)})
    requires AgreeBut(reconciled, e, {Duration})
    ensures AgreeBut(d, e, {Enc(EndTime), Enc(Pauses), Duration})
    ensures Get(e, Enc(EndTime)) == Get(ended, Enc(EndTime))
    ensures PausesOf(p, key, ended) == PausesOf(p, key, d) && PausesOf(p, key, e) == PausesOf(p, key, reconciled)
    ensures Get(ended, Enc(StartTime)) == Get(d, Enc(StartTime))
  {
    hide ReadText;
    assert Get(ended, Enc(Pauses)) == Get(d, Enc(Pauses)) && Get(e, Enc(Pauses)) == Get(reconciled, Enc(Pauses));
  }

  lemma ReconcilingKeepsPauses(p: Primitives, key: Bytes, d: Data, draws: FieldDraws)
    requires DecryptsOwnCiphertexts(p) && DumpingKeepsPauses(p) && ReconciledPauses(p, key, d, draws).Some?
    ensures var (e, t) := ReconciledPauses(p, key, d, draws).value;
            && AgreeBut(d, e, {Enc(Pauses)}) && PausesOf(p, key, d) == Some(t)
            && PausesOf(p, key, e).Some?
            && (p.pausedTime(t).Some? ==> p.pausedTime(PausesOf(p, key, e).value) == p.pausedTime(t))
  {
    var (e, t) := ReconciledPauses(p, key, d, draws).value;
    if Get(d, Enc(Pauses)) != Null && IsPlain(d[Enc(Pauses)].s) {
      assert ReadText(p, key, e[Enc(Pauses)]) == Some(p.dumpPauses(t));
    }
  }

  lemma OverridingKeeps(p: Primitives, key: Bytes, d: Data, ov: Override, draws: FieldDraws)
    requires DecryptsOwnCiphertexts(p) && IntegersRoundTrip(p) && DumpingKeepsPauses(p)
    requires Overridden(p, key, d, ov, draws).Some?
    ensures OverriddenAsAsked(p, key, d, ov, Overridden(p, key, d, ov, draws).value)
  {
    hide WithNewEnd, ReadInt, ReadText, TellsInt, DumpingKeepsPauses, DecryptsOwnCiphertexts, IntegersRoundTrip, EndsAt;
    var d1 := d;
    if ov.endEpoch.Some? {
      NewEndKeeps(p, key, d, ov.endEpoch.value, draws);
      d1 := WithNewEnd(p, key, d, ov.endEpoch.value, draws).value;
    }
    var after := Overridden(p, key, d, ov, draws).value;
    assert AgreeBut(d1, after, {Comment, Media});
    if ov.endEpoch.Some? {
      EndStands(p, key, d, ov.endEpoch.value, d1, after);
    }
  }

  lemma EndStands(p: Primitives, key: Bytes, before: Data, end: int, a: Data, b: Data)
    requires EndsAt(p, key, before, end, a) && AgreeBut(a, b, {Comment, Media})
    ensures EndsAt(p, key, before, end, b)
  {
    assert Get(a, Enc(Pauses)) == Get(b, Enc(Pauses)) && Get(a, Enc(EndTime)) == Get(b, Enc(EndTime));
    assert Get(a, Duration) == Get(b, Duration);
    hide ReadInt, ReadText, TellsInt, AgreeBut;
  }

  // ----- What a selection with overrides conserves --------------------------

  /** `e` is the entry `d` with the k-th override, if it gets one. */
  ghost predicate ComesFrom(p: Primitives, key: Bytes, d: Data, indices: seq<nat>, overrides: map<nat, Override>,
                            k: nat, e: Data)
  {
    match Reaching(indices, overrides.Keys, k)
    case None => e == d
    case Some(i) => OverriddenAsAsked(p, key, d, overrides[i], e)
  }

  lemma {:induction false} SelectedComeFrom(p: Primitives, key: Bytes, s: Selection, indices: seq<nat>,
                                            overrides: map<nat, Override>, draws: Draws, n: nat)
    requires DecryptsOwnCiphertexts(p) && IntegersRoundTrip(p) && DumpingKeepsPauses(p)
    requires n <= |s.kept| && Within(s.staging, s.kept) && Selected(p, key, s, indices, overrides, draws, n).Some?
    ensures forall k :: 0 <= k < n ==>
              ComesFrom(p, key, s.staging[s.kept[k]].data, indices, overrides, k,
                        Selected(p, key, s, indices, overrides, draws, n).value[k].data)
  {
    hide Overridden, OverriddenAsAsked, CompactEntryHash, DecryptsOwnCiphertexts, IntegersRoundTrip, DumpingKeepsPauses;
    if n > 0 {
      SelectedComeFrom(p, key, s, indices, overrides, draws, n - 1);
      if n - 1 < |indices| && indices[n - 1] in overrides {
        OverridingKeeps(p, key, s.staging[s.kept[n - 1]].data, overrides[indices[n - 1]], draws(n - 1));
      }
    }
  }

  /** A sync of any selection, with any overrides: the staging area splits into what
      stays, what the user removed and the entries taken, and the ledger gains just
      these entries, each with its override and otherwise as it was. */
  lemma OverridesConserve(p: Primitives, key: Bytes, secret: Option<Bytes>, staging: seq<Entry>, before: Books,
                          indices: seq<nat>, order: seq<nat>, overrides: map<nat, Override>, removals: set<nat>,
                          draws: Draws, es: seq<Entry>, after: Books)
    requires DecryptsOwnCiphertexts(p) && IntegersRoundTrip(p) && DumpingKeepsPauses(p)
    requires before.ledger != [] && Distinct(order)
    requires var s := NormalizeChosen(p, key, staging, Chosen(staging, order));
             Selected(p, key, s, indices, overrides, draws, |s.kept|) == Some(es)
    requires Synced(p, key, secret, before, es, draws, after)
    ensures var s := NormalizeChosen(p, key, staging, Chosen(staging, order));
            && (Views(p, key, Picked(s.staging, s.kept)) + Views(p, key, Remaining(s.staging, s.kept, removals))
                  + Views(p, key, RemovedEntries(s.staging, s.kept, removals))
                == Views(p, key, staging))
            && LedgerViews(p, key, after.ledger) == LedgerViews(p, key, before.ledger) + Views(p, key, es)
            && |es| == |s.kept|
            && forall k :: 0 <= k < |es| ==>
                 ComesFrom(p, key, Picked(s.staging, s.kept)[k].data, indices, overrides, k, es[k].data)
  {
    var s := NormalizeChosen(p, key, staging, Chosen(staging, order));
    hide *;
    SyncConserves(p, key, secret, before, es, draws, after);
    PickedSplits(p, key, staging, order, removals);
    SelectedComeFrom(p, key, s, indices, overrides, draws, |s.kept|);
    PickedAt(s.staging, s.kept);
  }

  lemma PickedAt(staging: seq<Entry>, ks: seq<nat>)
    requires Within(staging, ks)
    ensures forall k :: 0 <= k < |ks| ==> Picked(staging, ks)[k] == staging[ks[k]]
  {
  }
}
