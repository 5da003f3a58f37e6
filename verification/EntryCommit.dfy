/**
 Turning a staged entry into a ledger entry: its four structural fields are
 encrypted afresh, and the content hash and entry hash are stored.
 */
module EntryCommit {
  import opened Json
  import opened Blocks
  import opened ContentHashes

  /** A staged text is either "plain:..." or a ciphertext. */
  function ReadText(p: Primitives, key: Bytes, v: Value): Option<Text> {
    if !v.Str? then None
    else if IsPlain(v.s) then Some(v.s[6..])
    else p.decrypt(key, v.s)
  }

  function ReadInt(p: Primitives, key: Bytes, v: Value): Option<int> {
    var t :- ReadText(p, key, v);
    p.parseInt(t)
  }

  /** The structural fields of an entry, decrypted. */
  datatype Clock = Clock(start: int, end: Option<int>, metadata: Text, pauses: Text)

  function ReadClock(p: Primitives, key: Bytes, d: Data): Option<Clock> {
    if Enc(EndTime) !in d then None
    else
      var start :- ReadInt(p, key, Get(d, Enc(StartTime)));
      var metadata :- ReadText(p, key, Get(d, Enc(Metadata)));
      var pauses :- if Truthy(Get(d, Enc(Pauses))) then ReadText(p, key, d[Enc(Pauses)]) else Some("[]");
      if Truthy(d[Enc(EndTime)]) then
        var end :- ReadInt(p, key, d[Enc(EndTime)]);
        Some(Clock(start, Some(end), metadata, pauses))
      else Some(Clock(start, None, metadata, pauses))
  }

  const STRUCTURAL: set<Field> := {Enc(StartTime), Enc(EndTime), Enc(Metadata), Enc(Pauses)}

  /** Everything an entry says, independent of keys and of derived hashes. */
  datatype PlainEntry = PlainEntry(clock: Clock, rest: Data)

  function View(p: Primitives, key: Bytes, d: Data): Option<PlainEntry> {
    var clock :- ReadClock(p, key, d);
    Some(PlainEntry(clock, d - STRUCTURAL - {ContentHash}))
  }

  /** A stored value tells this text: behind "plain:", or as a ciphertext under the key. */
  ghost predicate Tells(p: Primitives, key: Bytes, v: Value, t: Text) {
    v == Str("plain:" + t) || (v.Str? && (forall u :: v.s != "plain:" + u) && p.decrypt(key, v.s) == Some(t))
  }

  ghost predicate TellsInt(p: Primitives, key: Bytes, v: Value, n: int) {
    exists t :: Tells(p, key, v, t) && p.parseInt(t) == Some(n)
  }

  lemma ReadTextIs(p: Primitives, key: Bytes, v: Value, t: Text)
    ensures Tells(p, key, v, t) <==> ReadText(p, key, v) == Some(t)
  {
    if v.Str? && IsPlain(v.s) {
      assert v.s == "plain:" + v.s[6..];
      assert ("plain:" + t)[6..] == t;
    } else if v.Str? {
      forall u ensures v.s != "plain:" + u {
        assert ("plain:" + u)[..6] == PLAIN;
      }
    }
  }

  lemma ReadIntIs(p: Primitives, key: Bytes, v: Value, n: int)
    ensures TellsInt(p, key, v, n) <==> ReadInt(p, key, v) == Some(n)
  {
    hide ReadText, Tells;
    forall t ensures Tells(p, key, v, t) <==> ReadText(p, key, v) == Some(t) {
      ReadTextIs(p, key, v, t);
    }
  }

  /** The clock of an entry is what its four structural fields tell. */
  lemma ClockIs(p: Primitives, key: Bytes, d: Data, c: Clock)
    ensures ReadClock(p, key, d) == Some(c)
       <==> && Enc(EndTime) in d
            && TellsInt(p, key, Get(d, Enc(StartTime)), c.start)
            && (if Truthy(d[Enc(EndTime)]) then c.end.Some? && TellsInt(p, key, d[Enc(EndTime)], c.end.value) else c.end.None?)
            && Tells(p, key, Get(d, Enc(Metadata)), c.metadata)
            && (if Truthy(Get(d, Enc(Pauses))) then Tells(p, key, d[Enc(Pauses)], c.pauses) else c.pauses == "[]")
  {
    hide ReadText, ReadInt, Tells, TellsInt;
    ReadIntIs(p, key, Get(d, Enc(StartTime)), c.start);
    ReadTextIs(p, key, Get(d, Enc(Metadata)), c.metadata);
    ReadTextIs(p, key, Get(d, Enc(Pauses)), c.pauses);
    if c.end.Some? {
      ReadIntIs(p, key, Get(d, Enc(EndTime)), c.end.value);
    }
  }

  type FieldDraws = Field -> nat

  function Fresh(p: Primitives, key: Bytes, t: Text, draws: FieldDraws, f: Field): Value {
    Str(p.encrypt(key, t, draws(f)))
  }

  function Encrypted(p: Primitives, key: Bytes, d: Data, c: Clock, draws: FieldDraws): Data
    requires Enc(EndTime) in d
  {
    var d1 := d[Enc(StartTime) := Fresh(p, key, p.showInt(c.start), draws, Enc(StartTime))];
    var d2 := d1[Enc(EndTime) := if c.end.Some? then Fresh(p, key, p.showInt(c.end.value), draws, Enc(EndTime))
                                 else d[Enc(EndTime)]];
    var d3 := d2[Enc(Metadata) := Fresh(p, key, c.metadata, draws, Enc(Metadata))];
    if Enc(Pauses) in d then d3[Enc(Pauses) := Fresh(p, key, c.pauses, draws, Enc(Pauses))] else d3
  }

  /** A committed entry with the day it belongs to. */
  datatype Dated = Dated(date: Text, entry: Entry)

  /** The committed form of a staged entry; None when a step raises. */
  function Commit(p: Primitives, key: Bytes, d: Data, draws: FieldDraws): Option<Dated> {
    var c :- ReadClock(p, key, d);
    var e := Encrypted(p, key, d, c, draws);
    var h :- ComputedContentHash(p, key, e);
    var stored := e[ContentHash := h];
    var date :- p.dayOf(c.start);
    Some(Dated(date, Entry(CompactEntryHash(p, stored), stored)))
  }

  lemma EncryptedReadsBack(p: Primitives, key: Bytes, d: Data, c: Clock, draws: FieldDraws)
    requires DecryptsOwnCiphertexts(p) && IntegersRoundTrip(p) && ReadClock(p, key, d) == Some(c)
    ensures ReadClock(p, key, Encrypted(p, key, d, c, draws)) == Some(c)
  {
    var e := Encrypted(p, key, d, c, draws);
    assert ReadText(p, key, e[Enc(StartTime)]) == Some(p.showInt(c.start));
    assert ReadText(p, key, e[Enc(Metadata)]) == Some(c.metadata);
    if c.end.Some? {
      assert ReadText(p, key, e[Enc(EndTime)]) == Some(p.showInt(c.end.value));
    }
    if Enc(Pauses) in d {
      assert ReadText(p, key, e[Enc(Pauses)]) == Some(c.pauses);
    }
  }

  /** Committing keeps everything an entry says, and what it stores verifies. */
  lemma CommitKeepsView(p: Primitives, key: Bytes, d: Data, draws: FieldDraws)
    requires DecryptsOwnCiphertexts(p) && IntegersRoundTrip(p) && Commit(p, key, d, draws).Some?
    ensures var e := Commit(p, key, d, draws).value.entry;
            && View(p, key, d).Some? && View(p, key, e.data) == View(p, key, d)
            && EntryHashAccepted(p, e.data, e.hash) && ContentHashValid(p, key, e.data)
            && Get(e.data, Title) == Get(d, Title) && Get(e.data, Duration) == Get(d, Duration)
  {
    var c := ReadClock(p, key, d).value;
    var e := Encrypted(p, key, d, c, draws);
    var h := ComputedContentHash(p, key, e);
    EncryptedReadsBack(p, key, d, c, draws);
    EncryptedKeepsRest(p, key, d, c, draws);
    StoredContentHashIsValid(p, key, e);
    StoringHashKeepsClock(p, key, e, h.value);
    hide ReadClock, ComputedContentHash, ContentHashValid, Encrypted;
  }

  lemma EncryptedKeepsRest(p: Primitives, key: Bytes, d: Data, c: Clock, draws: FieldDraws)
    requires Enc(EndTime) in d
    ensures var e := Encrypted(p, key, d, c, draws);
            && e - STRUCTURAL - {ContentHash} == d - STRUCTURAL - {ContentHash}
            && Get(e, Title) == Get(d, Title) && Get(e, Duration) == Get(d, Duration)
  {
  }

  lemma StoringHashKeepsClock(p: Primitives, key: Bytes, e: Data, h: Value)
    ensures var stored := e[ContentHash := h];
            && ReadClock(p, key, stored) == ReadClock(p, key, e)
            && stored - STRUCTURAL - {ContentHash} == e - STRUCTURAL - {ContentHash}
            && Get(stored, Title) == Get(e, Title) && Get(stored, Duration) == Get(e, Duration)
  {
  }

  /** Committing fixes the day of an entry from its start time alone. */
  lemma CommitDatesByStart(p: Primitives, key: Bytes, d: Data, draws: FieldDraws)
    requires Commit(p, key, d, draws).Some?
    ensures exists n :: TellsInt(p, key, Get(d, Enc(StartTime)), n) && p.dayOf(n) == Some(Commit(p, key, d, draws).value.date)
  {
    var c := ReadClock(p, key, d).value;
    hide ReadClock, TellsInt;
    ClockIs(p, key, d, c);
    assert TellsInt(p, key, Get(d, Enc(StartTime)), c.start);
  }

  /** A fresh ciphertext of some text under the key. */
  ghost predicate IsFresh(p: Primitives, key: Bytes, v: Value) {
    exists t, draw :: v == Str(p.encrypt(key, t, draw))
  }

  /** What a committed entry stores: its times, metadata and pauses as fresh ciphertexts, the
      hash of its decrypted content, and the hash of all of that in the compact layout. */
  lemma CommitStores(p: Primitives, key: Bytes, d: Data, draws: FieldDraws)
    requires Commit(p, key, d, draws).Some?
    ensures var e := Commit(p, key, d, draws).value.entry;
            && e.data.Keys == d.Keys + {Enc(StartTime), Enc(Metadata), ContentHash}
            && IsFresh(p, key, Get(e.data, Enc(StartTime))) && IsFresh(p, key, Get(e.data, Enc(Metadata)))
            && (if Truthy(Get(d, Enc(EndTime))) then IsFresh(p, key, Get(e.data, Enc(EndTime)))
                else Get(e.data, Enc(EndTime)) == Get(d, Enc(EndTime)))
            && (Enc(Pauses) in d ==> IsFresh(p, key, Get(e.data, Enc(Pauses))))
            && (exists content :: IsSuffixed(p, key, e.data, content) && e.data[ContentHash] == Str(p.sha(p.dumpData(content))))
            && e.hash == p.sha(p.dumpData(e.data))
  {
    hide Encrypted, ReadClock, ComputedContentHash, IsFresh, StandsFor, AllRead, ListsSort, IsSuffixed, Truthy;
    var c := ReadClock(p, key, d).value;
    EndIsThere(p, key, d, c);
    var e := Encrypted(p, key, d, c, draws);
    var h := ComputedContentHash(p, key, e).value;
    EncryptedIsFresh(p, key, d, c, draws);
    ComputedIs(p, key, e);
    var content :| IsSuffixed(p, key, e, content) && h == Str(p.sha(p.dumpData(content)));
    SuffixedAfterStoring(p, key, e, h, content);
  }

  lemma EndIsThere(p: Primitives, key: Bytes, d: Data, c: Clock)
    requires ReadClock(p, key, d) == Some(c)
    ensures Enc(EndTime) in d && (c.end.Some? <==> Truthy(d[Enc(EndTime)]))
  {
    hide ReadText, ReadInt;
  }

  lemma SuffixedAfterStoring(p: Primitives, key: Bytes, d: Data, h: Value, content: Data)
    requires IsSuffixed(p, key, d, content)
    ensures IsSuffixed(p, key, d[ContentHash := h], content)
  {
    hide StandsFor;
  }

  lemma EncryptedIsFresh(p: Primitives, key: Bytes, d: Data, c: Clock, draws: FieldDraws)
    requires Enc(EndTime) in d
    ensures var e := Encrypted(p, key, d, c, draws);
            && e.Keys == d.Keys + {Enc(StartTime), Enc(Metadata)}
            && IsFresh(p, key, Get(e, Enc(StartTime))) && IsFresh(p, key, Get(e, Enc(Metadata)))
            && (if c.end.Some? then IsFresh(p, key, Get(e, Enc(EndTime))) else Get(e, Enc(EndTime)) == Get(d, Enc(EndTime)))
            && (Enc(Pauses) in d ==> IsFresh(p, key, Get(e, Enc(Pauses))))
  {
    forall t, draw ensures IsFresh(p, key, Str(p.encrypt(key, t, draw))) {
    }
    hide IsFresh;
  }

  // ----- Normalizing before a selective sync -------------------------------

  /** One field of an entry in "plain:" form; None when it does not decrypt. */
  function NormalizedField(p: Primitives, key: Bytes, d: Data, f: Field): Option<Data> {
    var v := Get(d, f);
    if Truthy(v) && v.Str? && !IsPlain(v.s) then
      var t :- p.decrypt(key, v.s);
      Some(d[f := Str(PLAIN + t)])
    else if f == Enc(Pauses) && v == Null then Some(d[f := Str(PLAIN + "[]")])
    else Some(d)
  }

  /** `_normalize_staging_entry`: the data after the call, and whether it succeeded.
      A failure leaves the fields before it rewritten. */
  function Normalized(p: Primitives, key: Bytes, d: Data, fields: seq<Field>): (Data, bool)
    decreases |fields|
  {
    if fields == [] then (d, true)
    else
      match NormalizedField(p, key, d, fields[0])
      case Some(e) => Normalized(p, key, e, fields[1..])
      case None => (d, false)
  }

  const NORMALIZED_FIELDS: seq<Field> := [Enc(StartTime), Enc(EndTime), Enc(Metadata), Enc(Pauses)]

  lemma NormalizedFieldKeepsView(p: Primitives, key: Bytes, d: Data, f: Field)
    requires f in STRUCTURAL && NormalizedField(p, key, d, f).Some?
    ensures var e := NormalizedField(p, key, d, f).value;
            ReadClock(p, key, e) == ReadClock(p, key, d) && e - STRUCTURAL == d - STRUCTURAL
  {
    var v, e := Get(d, f), NormalizedField(p, key, d, f).value;
    if Truthy(v) && v.Str? && !IsPlain(v.s) {
      var t := p.decrypt(key, v.s).value;
      assert (PLAIN + t)[6..] == t && (PLAIN + t)[..6] == PLAIN;
      assert ReadText(p, key, e[f]) == ReadText(p, key, v);
    } else if v == Null && f == Enc(Pauses) {
      assert (PLAIN + "[]")[6..] == "[]" && (PLAIN + "[]")[..6] == PLAIN;
    }
  }

  /** Normalizing, whether it succeeds or stops half way, keeps what an entry says. */
  lemma {:induction false} NormalizingKeepsView(p: Primitives, key: Bytes, d: Data, fields: seq<Field>)
    requires forall f | f in fields :: f in STRUCTURAL
    ensures View(p, key, Normalized(p, key, d, fields).0) == View(p, key, d)
    ensures Normalized(p, key, d, fields).0 - STRUCTURAL == d - STRUCTURAL
    decreases |fields|
  {
    if fields != [] && NormalizedField(p, key, d, fields[0]).Some? {
      NormalizedFieldKeepsView(p, key, d, fields[0]);
      NormalizingKeepsView(p, key, NormalizedField(p, key, d, fields[0]).value, fields[1..]);
      hide ReadClock, NormalizedField;
    }
  }

  /** A field that needs no decrypting any more. */
  ghost predicate InTheClear(v: Value) {
    !Truthy(v) || !v.Str? || exists t :: v == Str("plain:" + t)
  }

  /** Normalizing succeeds exactly when every one of the four fields is in the clear already or
      decrypts; then they all are, with a list of pauses where there was none. */
  lemma NormalizedIff(p: Primitives, key: Bytes, d: Data)
    ensures var (e, ok) := Normalized(p, key, d, NORMALIZED_FIELDS);
            && (ok <==> forall f | f in STRUCTURAL :: InTheClear(Get(d, f)) || p.decrypt(key, Get(d, f).s).Some?)
            && (ok ==> (forall f | f in STRUCTURAL :: InTheClear(Get(e, f))) && Get(e, Enc(Pauses)) != Null)
  {
    hide Normalized;
    NormalizedInTurn(p, key, d, NORMALIZED_FIELDS);
    assert forall f :: f in STRUCTURAL <==> f in NORMALIZED_FIELDS;
  }

  lemma NormalizedFieldIs(p: Primitives, key: Bytes, d: Data, f: Field)
    ensures NormalizedField(p, key, d, f).Some? <==> InTheClear(Get(d, f)) || p.decrypt(key, Get(d, f).s).Some?
    ensures NormalizedField(p, key, d, f).Some? ==>
              var e := NormalizedField(p, key, d, f).value;
              && InTheClear(Get(e, f)) && AgreeBut(d, e, {f}) && (f == Enc(Pauses) ==> Get(e, f) != Null)
  {
    var v := Get(d, f);
    assert v.Str? ==> (IsPlain(v.s) <==> exists t :: v == Str("plain:" + t)) by {
      if v.Str? && IsPlain(v.s) {
        assert v.s == "plain:" + v.s[6..];
      }
      if t :| v == Str("plain:" + t) {
        assert v.s[..6] == PLAIN;
      }
    }
    forall t ensures InTheClear(Str(PLAIN + t)) {
    }
    hide IsPlain;
  }

  lemma {:induction false} NormalizedInTurn(p: Primitives, key: Bytes, d: Data, fields: seq<Field>)
    requires forall i, j :: 0 <= i < j < |fields| ==> fields[i] != fields[j]
    ensures var (e, ok) := Normalized(p, key, d, fields);
            && (ok <==> forall f | f in fields :: InTheClear(Get(d, f)) || p.decrypt(key, Get(d, f).s).Some?)
            && (ok ==> (forall f | f in fields :: InTheClear(Get(e, f)))
                       && (Enc(Pauses) in fields ==> Get(e, Enc(Pauses)) != Null)
                       && AgreeBut(d, e, set f | f in fields))
    decreases |fields|
  {
    hide InTheClear;
    if fields != [] {
      NormalizedFieldIs(p, key, d, fields[0]);
      hide NormalizedField;
      if NormalizedField(p, key, d, fields[0]).Some? {
        var e := NormalizedField(p, key, d, fields[0]).value;
        NormalizedInTurn(p, key, e, fields[1..]);
      }
    }
  }
}
