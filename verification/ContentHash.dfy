/**
 The content hash of an entry: a digest of its data with every encrypted field
 decrypted, so that it does not depend on the key in force.
 */
module ContentHashes {
  import opened Json
  import opened Blocks

  function DecryptValue(p: Primitives, key: Bytes, v: Value): Option<Text> {
    if v.Str? then p.decrypt(key, v.s) else None
  }

  /** How field `f` with value `v` enters the content under `key`. */
  function CellOf(p: Primitives, key: Bytes, f: Field, v: Value): Cell {
    if f.Enc? && v != Null && v != Str("") then
      match DecryptValue(p, key, v)
      case Some(t) => Clear(t)
      case None => Opaque(v)
    else
      Plain(v)
  }

  /** Everything the content hash may depend on. */
  function Resolve(p: Primitives, key: Bytes, d: Data): map<Field, Cell> {
    map f | f in d && f != ContentHash :: CellOf(p, key, f, d[f])
  }

  /** The value hashed for a cell; None when a list does not sort. */
  function Shown(p: Primitives, c: Cell): Option<Value> {
    match c
    case Clear(t) => Some(Str(t))
    case Opaque(v) => Some(v)
    case Plain(List(items)) => (match p.sorted(items) case Some(s) => Some(List(s)) case None => None)
    case Plain(v) => Some(v)
  }

  predicate AllShow(p: Primitives, cells: map<Field, Cell>) {
    forall f | f in cells :: Shown(p, cells[f]).Some?
  }

  /** The content that keeps the "_enc" suffix on decrypted fields. */
  function SuffixedContent(p: Primitives, cells: map<Field, Cell>): Data
    requires AllShow(p, cells)
  {
    map f | f in cells :: Shown(p, cells[f]).value
  }

  /** The name a field has in the content that strips the suffix. */
  function StrippedName(f: Field, c: Cell): Field {
    if c.Clear? && f.Enc? then f.base else f
  }

  /** The content that strips the suffix, filled in the order of the keys. */
  function StrippedContent(p: Primitives, cells: map<Field, Cell>, order: seq<Field>): Data
    requires AllShow(p, cells)
  {
    if order == [] then map[]
    else
      var rest := StrippedContent(p, cells, order[..|order| - 1]);
      var f := order[|order| - 1];
      if f in cells then rest[StrippedName(f, cells[f]) := Shown(p, cells[f]).value] else rest
  }

  function ContentDigest(p: Primitives, content: Data): Value {
    Str(p.sha(p.dumpData(content)))
  }

  /** Whether `stored` is the content hash of these cells in one of the three
      formats a verifier accepts. `keys` are the keys of the whole dictionary. */
  predicate ContentAccepted(p: Primitives, cells: map<Field, Cell>, keys: set<Field>, stored: Value) {
    && AllShow(p, cells)
    && (|| stored == ContentDigest(p, StrippedContent(p, cells, p.keyOrder(keys)))
        || stored == ContentDigest(p, SuffixedContent(p, cells))
        || var legacy := p.nineFields(cells); (legacy.Some? && stored == ContentDigest(p, legacy.value)))
  }

  /** Whether an entry carries a content hash that is right under `key`. */
  predicate ContentHashValid(p: Primitives, key: Bytes, d: Data) {
    ContentHash in d && ContentAccepted(p, Resolve(p, key, d), d.Keys, d[ContentHash])
  }

  /** The content hash a writer stores; None when a field does not decrypt or sort. */
  function ComputedContentHash(p: Primitives, key: Bytes, d: Data): Option<Value> {
    var cells := Resolve(p, key, d);
    if AllShow(p, cells) && forall f | f in cells :: !cells[f].Opaque?
    then Some(ContentDigest(p, SuffixedContent(p, cells)))
    else None
  }

  /** The hash a writer stores is one every verifier holding the key accepts. */
  lemma StoredContentHashIsValid(p: Primitives, key: Bytes, d: Data)
    requires ComputedContentHash(p, key, d).Some?
    ensures ContentHashValid(p, key, d[ContentHash := ComputedContentHash(p, key, d).value])
  {
    var d' := d[ContentHash := ComputedContentHash(p, key, d).value];
    assert Resolve(p, key, d') == Resolve(p, key, d);
  }

  /** Storing the hash does not change what it is computed from. */
  lemma ComputingTwiceGivesTheSameHash(p: Primitives, key: Bytes, d: Data, stored: Value)
    ensures ComputedContentHash(p, key, d[ContentHash := stored]) == ComputedContentHash(p, key, d)
  {
    assert Resolve(p, key, d[ContentHash := stored]) == Resolve(p, key, d);
  }

  // ----- The three contents, field by field ---------------------------------

  /** The clear text of an encrypted field, if the key gives one. */
  ghost predicate ReadsAs(p: Primitives, key: Bytes, f: Field, v: Value, t: Text) {
    f.Enc? && v.Str? && v.s != "" && p.decrypt(key, v.s) == Some(t)
  }

  /** What stands for a field with value v: its clear text, its sorted list, or v itself. */
  ghost predicate StandsFor(p: Primitives, key: Bytes, f: Field, v: Value, shown: Value) {
    if exists t :: ReadsAs(p, key, f, v, t) then exists t :: ReadsAs(p, key, f, v, t) && shown == Str(t)
    else if v.List? && !f.Enc? then shown.List? && p.sorted(v.items) == Some(shown.items)
    else shown == v
  }

  /** The name a field goes by when the suffix of what was decrypted is stripped. */
  ghost predicate GoesBy(p: Primitives, key: Bytes, f: Field, v: Value, name: Field) {
    if exists t :: ReadsAs(p, key, f, v, t) then f == Enc(name) else name == f
  }

  /** The field at place k goes by this name, and no later one does. */
  ghost predicate LastUnder(p: Primitives, key: Bytes, d: Data, order: seq<Field>, k: nat, name: Field) {
    && k < |order| && order[k] in d && order[k] != ContentHash && GoesBy(p, key, order[k], d[order[k]], name)
    && forall j :: k < j < |order| && order[j] in d && order[j] != ContentHash ==> !GoesBy(p, key, order[j], d[order[j]], name)
  }

  /** The content under stripped names; of two fields with one name the later counts. */
  ghost predicate IsStripped(p: Primitives, key: Bytes, d: Data, order: seq<Field>, content: Data) {
    && (forall name :: name in content ==> exists k: nat :: LastUnder(p, key, d, order, k, name))
    && (forall k: nat, name :: LastUnder(p, key, d, order, k, name) ==>
          name in content && StandsFor(p, key, order[k], d[order[k]], content[name]))
  }

  /** The content under the names the fields have. */
  ghost predicate IsSuffixed(p: Primitives, key: Bytes, d: Data, content: Data) {
    content.Keys == d.Keys - {ContentHash} && forall f | f in content :: StandsFor(p, key, f, d[f], content[f])
  }

  /** Every list sorts. */
  ghost predicate ListsSort(p: Primitives, d: Data) {
    forall f | f in d && f != ContentHash && !f.Enc? && d[f].List? :: p.sorted(d[f].items).Some?
  }

  /** A hash is the digest of one of the three contents an entry may have been hashed by. */
  ghost predicate IsHashOf(p: Primitives, key: Bytes, d: Data, stored: Value) {
    exists content ::
      && stored == Str(p.sha(p.dumpData(content)))
      && (IsStripped(p, key, d, p.keyOrder(d.Keys), content) || IsSuffixed(p, key, d, content)
          || p.nineFields(Resolve(p, key, d)) == Some(content))
  }

  lemma CellStands(p: Primitives, key: Bytes, f: Field, v: Value, shown: Value)
    ensures Shown(p, CellOf(p, key, f, v)) == Some(shown) <==> StandsFor(p, key, f, v, shown)
    ensures Shown(p, CellOf(p, key, f, v)).None? <==> !f.Enc? && v.List? && p.sorted(v.items).None?
    ensures CellOf(p, key, f, v).Clear? <==> exists t :: ReadsAs(p, key, f, v, t)
  {
    if CellOf(p, key, f, v).Clear? {
      assert ReadsAs(p, key, f, v, CellOf(p, key, f, v).t);
    }
  }

  lemma CellGoesBy(p: Primitives, key: Bytes, f: Field, v: Value, name: Field)
    ensures GoesBy(p, key, f, v, name) <==> name == StrippedName(f, CellOf(p, key, f, v))
  {
    CellStands(p, key, f, v, v);
    assert CellOf(p, key, f, v).Clear? ==> f.Enc?;
    hide ReadsAs, CellOf;
  }

  lemma AllShowIff(p: Primitives, key: Bytes, d: Data)
    ensures AllShow(p, Resolve(p, key, d)) <==> ListsSort(p, d)
  {
    hide Shown, CellOf;
    forall f | f in d && f != ContentHash
      ensures Shown(p, CellOf(p, key, f, d[f])).None? <==> !f.Enc? && d[f].List? && p.sorted(d[f].items).None?
    {
      CellStands(p, key, f, d[f], d[f]);
    }
    assert forall f | f in Resolve(p, key, d) :: Resolve(p, key, d)[f] == CellOf(p, key, f, d[f]);
  }

  lemma SuffixedIs(p: Primitives, key: Bytes, d: Data, content: Data)
    requires AllShow(p, Resolve(p, key, d))
    ensures IsSuffixed(p, key, d, content) <==> content == SuffixedContent(p, Resolve(p, key, d))
  {
    hide Shown, CellOf, StandsFor;
    var cells := Resolve(p, key, d);
    forall f | f in cells && f in content
      ensures StandsFor(p, key, f, d[f], content[f]) <==> content[f] == SuffixedContent(p, cells)[f]
    {
      CellStands(p, key, f, d[f], content[f]);
    }
  }

  lemma {:induction false} StrippedDescribed(p: Primitives, key: Bytes, d: Data, order: seq<Field>)
    requires AllShow(p, Resolve(p, key, d))
    ensures IsStripped(p, key, d, order, StrippedContent(p, Resolve(p, key, d), order))
  {
    hide AllShow, GoesBy, StandsFor, Shown, StrippedName, CellOf;
    var cells := Resolve(p, key, d);
    if order != [] {
      var n := |order| - 1;
      var init, f := order[..n], order[n];
      StrippedDescribed(p, key, d, init);
      if f in cells {
        var nm := StrippedName(f, cells[f]);
        OneMoreUnder(p, key, d, order, nm);
        ShowsAt(p, cells, f);
        StrippedStep(p, key, d, order, nm, Shown(p, cells[f]).value, StrippedContent(p, cells, init));
      } else {
        SkippedStep(p, key, d, order, StrippedContent(p, cells, init));
      }
    } else {
      hide LastUnder;
      assert forall k: nat, name :: !LastUnder(p, key, d, order, k, name) by { NoneUnder(p, key, d); }
    }
  }

  lemma ShowsAt(p: Primitives, cells: map<Field, Cell>, f: Field)
    requires AllShow(p, cells) && f in cells
    ensures Shown(p, cells[f]).Some?
  {
  }

  lemma NoneUnder(p: Primitives, key: Bytes, d: Data)
    ensures forall k: nat, name :: !LastUnder(p, key, d, [], k, name)
  {
  }

  /** The last field of the order goes by one name. */
  lemma OneMoreUnder(p: Primitives, key: Bytes, d: Data, order: seq<Field>, nm: Field)
    requires order != [] && order[|order| - 1] in d && order[|order| - 1] != ContentHash
    requires var f := order[|order| - 1]; nm == StrippedName(f, CellOf(p, key, f, d[f]))
    ensures var n := |order| - 1;
            && LastUnder(p, key, d, order, n, nm)
            && (forall name :: LastUnder(p, key, d, order, n, name) ==> name == nm)
            && (forall k: nat, name | k < n && name != nm ::
                  LastUnder(p, key, d, order, k, name) <==> LastUnder(p, key, d, order[..n], k, name))
            && (forall k: nat | k < n :: !LastUnder(p, key, d, order, k, nm))
  {
    hide StrippedName, CellOf;
    var n := |order| - 1;
    var f := order[n];
    forall name ensures GoesBy(p, key, f, d[f], name) <==> name == nm {
      CellGoesBy(p, key, f, d[f], name);
    }
    hide GoesBy;
  }

  lemma StrippedStep(p: Primitives, key: Bytes, d: Data, order: seq<Field>, nm: Field, shown: Value, before: Data)
    requires order != [] && IsStripped(p, key, d, order[..|order| - 1], before)
    requires var n := |order| - 1;
             && LastUnder(p, key, d, order, n, nm)
             && (forall name :: LastUnder(p, key, d, order, n, name) ==> name == nm)
             && (forall k: nat, name | k < n && name != nm ::
                   LastUnder(p, key, d, order, k, name) <==> LastUnder(p, key, d, order[..n], k, name))
             && (forall k: nat | k < n :: !LastUnder(p, key, d, order, k, nm))
    requires var f := order[|order| - 1]; f in d && Shown(p, CellOf(p, key, f, d[f])) == Some(shown)
    ensures IsStripped(p, key, d, order, before[nm := shown])
  {
    hide LastUnder, StandsFor, Shown, CellOf;
    var n := |order| - 1;
    CellStands(p, key, order[n], d[order[n]], shown);
    UnderInRange(p, key, d, order);
    UnderInRange(p, key, d, order[..n]);
    var after := before[nm := shown];
    forall name | name in after ensures exists k: nat :: LastUnder(p, key, d, order, k, name) {
      if name != nm {
        var k: nat :| LastUnder(p, key, d, order[..n], k, name);
        assert LastUnder(p, key, d, order, k, name);
      }
    }
  }

  lemma UnderInRange(p: Primitives, key: Bytes, d: Data, order: seq<Field>)
    ensures forall k: nat, name :: LastUnder(p, key, d, order, k, name) ==> k < |order| && order[k] in d
  {
  }

  lemma SkippedStep(p: Primitives, key: Bytes, d: Data, order: seq<Field>, content: Data)
    requires order != [] && IsStripped(p, key, d, order[..|order| - 1], content)
    requires order[|order| - 1] !in d || order[|order| - 1] == ContentHash
    ensures IsStripped(p, key, d, order, content)
  {
    hide LastUnder, StandsFor;
    SkippedUnder(p, key, d, order);
    UnderInRange(p, key, d, order[..|order| - 1]);
    forall name | name in content ensures exists k: nat :: LastUnder(p, key, d, order, k, name) {
      var k: nat :| LastUnder(p, key, d, order[..|order| - 1], k, name);
      assert LastUnder(p, key, d, order, k, name);
    }
  }

  lemma SkippedUnder(p: Primitives, key: Bytes, d: Data, order: seq<Field>)
    requires order != [] && (order[|order| - 1] !in d || order[|order| - 1] == ContentHash)
    ensures forall k: nat, name :: LastUnder(p, key, d, order, k, name) <==> LastUnder(p, key, d, order[..|order| - 1], k, name)
  {
    hide GoesBy;
  }

  lemma StrippedIs(p: Primitives, key: Bytes, d: Data, order: seq<Field>, content: Data)
    requires AllShow(p, Resolve(p, key, d))
    ensures IsStripped(p, key, d, order, content) <==> content == StrippedContent(p, Resolve(p, key, d), order)
  {
    var other := StrippedContent(p, Resolve(p, key, d), order);
    StrippedDescribed(p, key, d, order);
    UnderInRange(p, key, d, order);
    hide LastUnder, StandsFor, StrippedContent, AllShow, Resolve;
    if IsStripped(p, key, d, order, content) {
      forall name | name in content ensures name in other && content[name] == other[name] {
        var k: nat :| LastUnder(p, key, d, order, k, name);
        CellStands(p, key, order[k], d[order[k]], content[name]);
        CellStands(p, key, order[k], d[order[k]], other[name]);
      }
      assert content.Keys == other.Keys;
    }
  }

  /** A content hash is accepted exactly when the lists sort and it is the digest of one of the contents. */
  lemma AcceptedIsHash(p: Primitives, key: Bytes, d: Data, stored: Value)
    ensures ContentAccepted(p, Resolve(p, key, d), d.Keys, stored) <==> ListsSort(p, d) && IsHashOf(p, key, d, stored)
  {
    AllShowIff(p, key, d);
    hide ListsSort, AllShow, Resolve, IsStripped, IsSuffixed, StrippedContent, SuffixedContent;
    var cells, order := Resolve(p, key, d), p.keyOrder(d.Keys);
    if AllShow(p, cells) {
      forall content
        ensures IsStripped(p, key, d, order, content) <==> content == StrippedContent(p, cells, order)
        ensures IsSuffixed(p, key, d, content) <==> content == SuffixedContent(p, cells)
      {
        StrippedIs(p, key, d, order, content);
        SuffixedIs(p, key, d, content);
      }
    }
  }

  // ----- The writers --------------------------------------------------------


  /** Every encrypted field that is not empty decrypts. */
  ghost predicate AllRead(p: Primitives, key: Bytes, d: Data) {
    forall f | f in d && f != ContentHash && f.Enc? && d[f] != Null && d[f] != Str("") :: exists t :: ReadsAs(p, key, f, d[f], t)
  }

  lemma ComputedIs(p: Primitives, key: Bytes, d: Data)
    ensures var r := ComputedContentHash(p, key, d);
            && (r.Some? <==> ListsSort(p, d) && AllRead(p, key, d))
            && (r.Some? ==> exists content :: IsSuffixed(p, key, d, content) && r == Some(Str(p.sha(p.dumpData(content)))))
  {
    AllShowIff(p, key, d);
    NoneOpaqueIff(p, key, d);
    hide ListsSort, AllRead, AllShow, Resolve, SuffixedContent, IsSuffixed;
    var cells := Resolve(p, key, d);
    if AllShow(p, cells) {
      SuffixedIs(p, key, d, SuffixedContent(p, cells));
    }
  }

  lemma NoneOpaqueIff(p: Primitives, key: Bytes, d: Data)
    ensures (forall f | f in Resolve(p, key, d) :: !Resolve(p, key, d)[f].Opaque?) <==> AllRead(p, key, d)
  {
    forall f | f in d && f != ContentHash
      ensures CellOf(p, key, f, d[f]).Opaque? <==>
              f.Enc? && d[f] != Null && d[f] != Str("") && !exists t :: ReadsAs(p, key, f, d[f], t)
    {
      CellStands(p, key, f, d[f], d[f]);
    }
    hide CellOf, ReadsAs;
    assert forall f | f in Resolve(p, key, d) :: Resolve(p, key, d)[f] == CellOf(p, key, f, d[f]);
  }

  lemma DoesNotShow(p: Primitives, cells: map<Field, Cell>, f: Field)
    requires f in cells && Shown(p, cells[f]).None?
    ensures !AllShow(p, cells)
  {
  }

  method ComputeContentHash(p: Primitives, key: Bytes, d: Data) returns (r: Option<Value>)
    requires OrdersKeys(p)
    ensures r == ComputedContentHash(p, key, d)
    ensures r.Some? <==> ListsSort(p, d) && AllRead(p, key, d)
    ensures r.Some? ==> exists content :: IsSuffixed(p, key, d, content) && r == Some(Str(p.sha(p.dumpData(content))))
  {
    hide ListsSort, AllRead, IsSuffixed, AllShow, SuffixedContent, Resolve;
    ComputedIs(p, key, d);
    var content := ClearContent(p, key, d);
    if content.None? {
      return None;
    }
    r := Some(ContentDigest(p, content.value));
  }

  /** The pass that decrypts and sorts; None when a field does not decrypt or a list does not sort. */
  method ClearContent(p: Primitives, key: Bytes, d: Data) returns (r: Option<Data>)
    requires OrdersKeys(p)
    ensures var cells := Resolve(p, key, d);
            && (r.Some? <==> AllShow(p, cells) && forall f | f in cells :: !cells[f].Opaque?)
            && (r.Some? ==> r.value == SuffixedContent(p, cells))
  {
    var content: Data := map[];
    ghost var cells := Resolve(p, key, d);
    var order := p.keyOrder(d.Keys);
    hide AllShow;
    for i := 0 to |order|
      invariant forall f :: f in content.Keys <==> f in order[..i] && f != ContentHash
      invariant forall f :: f in content ==> !cells[f].Opaque? && Shown(p, cells[f]) == Some(content[f])
    {
      var f := order[i];
      assert f in p.keyOrder(d.Keys);
      assert order[..i + 1] == order[..i] + [f];
      if f == ContentHash {
        continue;
      }
      var v := d[f];
      assert cells[f] == CellOf(p, key, f, v);
      if f.Enc? && v != Null && v != Str("") {
        var t := DecryptValue(p, key, v);
        if t.None? {
          return None;
        }
        content := content[f := Str(t.value)];
      } else if v.List? {
        var s := p.sorted(v.items);
        if s.None? {
          DoesNotShow(p, cells, f);
          return None;
        }
        content := content[f := List(s.value)];
      } else {
        content := content[f := v];
      }
    }
    assert order[..|order|] == order;
    assert content.Keys == cells.Keys;
    AllShown(p, cells, content);
    assert content == SuffixedContent(p, cells);
    r := Some(content);
  }

  /** What the engine stores: the hash of the stripped content; None when a list does not sort. */
  function EngineContentHash(p: Primitives, key: Bytes, d: Data): Option<Value> {
    var cells := Resolve(p, key, d);
    if AllShow(p, cells) then Some(ContentDigest(p, StrippedContent(p, cells, p.keyOrder(d.Keys)))) else None
  }

  lemma StrippedNext(p: Primitives, cells: map<Field, Cell>, order: seq<Field>, i: nat)
    requires i < |order| && AllShow(p, cells)
    ensures var before, f := StrippedContent(p, cells, order[..i]), order[i];
            StrippedContent(p, cells, order[..i + 1])
            == if f in cells then before[StrippedName(f, cells[f]) := Shown(p, cells[f]).value] else before
  {
    assert order[..i + 1][..i] == order[..i];
  }

  lemma NothingStripped(p: Primitives, cells: map<Field, Cell>)
    ensures AllShow(p, cells) ==> StrippedContent(p, cells, []) == map[]
  {
  }

  lemma AllShown(p: Primitives, cells: map<Field, Cell>, content: Data)
    requires content.Keys == cells.Keys && forall f :: f in content ==> Shown(p, cells[f]) == Some(content[f])
    ensures AllShow(p, cells)
  {
  }

  /** The engine's `_compute_content_hash`. */
  method ComputeEngineHash(p: Primitives, key: Bytes, d: Data) returns (r: Option<Value>)
    requires OrdersKeys(p)
    ensures r == EngineContentHash(p, key, d)
    ensures r.Some? <==> ListsSort(p, d)
    ensures r.Some? ==> exists content ::
              IsStripped(p, key, d, p.keyOrder(d.Keys), content) && r == Some(Str(p.sha(p.dumpData(content))))
  {
    AllShowIff(p, key, d);
    var content: Data := map[];
    ghost var cells := Resolve(p, key, d);
    var order := p.keyOrder(d.Keys);
    NothingStripped(p, cells);
    hide StrippedContent, AllShow, ListsSort, IsStripped;
    for i := 0 to |order|
      invariant forall f :: f in cells && f in order[..i] ==> Shown(p, cells[f]).Some?
      invariant AllShow(p, cells) ==> content == StrippedContent(p, cells, order[..i])
    {
      var f := order[i];
      assert f in p.keyOrder(d.Keys);
      assert order[..i + 1] == order[..i] + [f];
      if AllShow(p, cells) {
        StrippedNext(p, cells, order, i);
      }
      if f == ContentHash {
        continue;
      }
      var v := d[f];
      assert cells[f] == CellOf(p, key, f, v);
      if f.Enc? && v != Null && v != Str("") {
        var t := DecryptValue(p, key, v);
        content := if t.Some? then content[f.base := Str(t.value)] else content[f := v];
      } else if v.List? {
        var s := p.sorted(v.items);
        if s.None? {
          DoesNotShow(p, cells, f);
          return None;
        }
        content := content[f := List(s.value)];
      } else {
        content := content[f := v];
      }
    }
    assert order[..|order|] == order;
    EachShows(p, cells);
    StrippedDescribed(p, key, d, order);
    r := Some(ContentDigest(p, content));
  }

  lemma EachShows(p: Primitives, cells: map<Field, Cell>)
    requires forall f :: f in cells ==> Shown(p, cells[f]).Some?
    ensures AllShow(p, cells)
  {
  }

  /** A dictionary without one of its keys lists the others in the same order. */
  function Without(order: seq<Field>, f: Field): seq<Field> {
    if order == [] then []
    else
      var n := |order| - 1;
      if order[n] == f then Without(order[..n], f) else Without(order[..n], f) + [order[n]]
  }

  /** Storing the content hash in a dictionary leaves the order of its other keys. */
  ghost predicate StoringKeepsOrder(p: Primitives) {
    forall s: set<Field> :: Without(p.keyOrder(s + {ContentHash}), ContentHash) == Without(p.keyOrder(s), ContentHash)
  }

  lemma {:induction false} StrippedWithout(p: Primitives, cells: map<Field, Cell>, order: seq<Field>)
    requires AllShow(p, cells) && ContentHash !in cells
    ensures StrippedContent(p, cells, order) == StrippedContent(p, cells, Without(order, ContentHash))
  {
    hide AllShow, Shown, StrippedName;
    if order != [] {
      var n := |order| - 1;
      StrippedWithout(p, cells, order[..n]);
      if order[n] != ContentHash {
        var rest := Without(order[..n], ContentHash);
        assert (rest + [order[n]])[..|rest|] == rest;
      }
    }
  }

  /** The hash the engine stores is one every verifier holding the key accepts. */
  lemma EngineHashIsValid(p: Primitives, key: Bytes, d: Data)
    requires StoringKeepsOrder(p) && EngineContentHash(p, key, d).Some?
    ensures ContentHashValid(p, key, d[ContentHash := EngineContentHash(p, key, d).value])
  {
    var d' := d[ContentHash := EngineContentHash(p, key, d).value];
    var cells := Resolve(p, key, d);
    assert Resolve(p, key, d') == cells && d'.Keys == d.Keys + {ContentHash} && ContentHash !in cells;
    hide AllShow, StrippedContent, Resolve, SuffixedContent;
    StrippedWithout(p, cells, p.keyOrder(d.Keys));
    StrippedWithout(p, cells, p.keyOrder(d'.Keys));
  }

  method VerifyContentHash(p: Primitives, key: Bytes, d: Data) returns (ok: bool)
    requires OrdersKeys(p) && ContentHash in d
    ensures ok == ContentHashValid(p, key, d)
    ensures ok <==> ListsSort(p, d) && IsHashOf(p, key, d, d[ContentHash])
  {
    hide ListsSort, IsHashOf, StrippedContent, AllShow;
    AcceptedIsHash(p, key, d, d[ContentHash]);
    var contents := BothContents(p, key, d);
    if contents.None? {
      return false;
    }
    var (stripped, suffixed) := contents.value;
    if ContentDigest(p, stripped) == d[ContentHash] {
      return true;
    }
    if ContentDigest(p, suffixed) == d[ContentHash] {
      return true;
    }
    var legacy := p.nineFields(Resolve(p, key, d));
    ok := legacy.Some? && ContentDigest(p, legacy.value) == d[ContentHash];
  }

  /** The one pass that fills both contents; None when a list does not sort. */
  method BothContents(p: Primitives, key: Bytes, d: Data) returns (r: Option<(Data, Data)>)
    requires OrdersKeys(p)
    ensures r.Some? <==> AllShow(p, Resolve(p, key, d))
    ensures r.Some? ==>
      var cells := Resolve(p, key, d);
      r.value == (StrippedContent(p, cells, p.keyOrder(d.Keys)), SuffixedContent(p, cells))
  {
    var stripped: Data, suffixed: Data := map[], map[];
    ghost var cells := Resolve(p, key, d);
    var order := p.keyOrder(d.Keys);
    NothingStripped(p, cells);
    hide StrippedContent, AllShow;
    for i := 0 to |order|
      invariant forall f :: f in suffixed.Keys <==> f in order[..i] && f != ContentHash
      invariant forall f :: f in suffixed ==> Shown(p, cells[f]) == Some(suffixed[f])
      invariant AllShow(p, cells) ==> stripped == StrippedContent(p, cells, order[..i])
    {
      var f := order[i];
      assert f in p.keyOrder(d.Keys);
      assert order[..i + 1] == order[..i] + [f];
      if AllShow(p, cells) {
        StrippedNext(p, cells, order, i);
      }
      if f == ContentHash {
        continue;
      }
      var v := d[f];
      assert cells[f] == CellOf(p, key, f, v);
      if f.Enc? && v != Null && v != Str("") {
        var t := DecryptValue(p, key, v);
        stripped := if t.Some? then stripped[f.base := Str(t.value)] else stripped[f := v];
        suffixed := suffixed[f := if t.Some? then Str(t.value) else v];
      } else if v.List? {
        var s := p.sorted(v.items);
        if s.None? {
          DoesNotShow(p, cells, f);
          return None;
        }
        stripped := stripped[f := List(s.value)];
        suffixed := suffixed[f := List(s.value)];
      } else {
        stripped := stripped[f := v];
        suffixed := suffixed[f := v];
      }
    }
    assert order[..|order|] == order;
    assert suffixed.Keys == cells.Keys;
    AllShown(p, cells, suffixed);
    assert suffixed == SuffixedContent(p, cells);
    r := Some((stripped, suffixed));
  }
}
