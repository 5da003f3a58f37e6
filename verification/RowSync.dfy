/**
 Row-level synchronization of staging areas: the last-writer-wins diff, and its
 convergence over any number of devices and one remote.
 */
module RowSync {
  import opened Json
  import opened TextOrder

  /** `activity_status` of a row: the key is absent, null, or a text. */
  datatype Status = Missing | Null | Is(text: Text)

  /** A staging row; absent and null ids and timestamps are None. */
  datatype Row = Row(id: Option<Text>, status: Status, updatedAt: Option<int>, activity: Text)

  datatype Diff = Diff(pull: seq<Text>, push: seq<Text>, deleteLocal: seq<Text>, fastPath: bool)

  type Replica = map<Text, Row>

  predicate HasId(r: Row) {
    r.id.Some? && r.id.value != ""
  }

  /** `int(row.get("updated_at", 0) or 0)`. */
  function SafeTs(r: Row): int {
    if r.updatedAt.Some? then r.updatedAt.value else 0
  }

  /** `row.get("activity_status", "") or ""`. */
  function StatusOf(r: Row): Text {
    if r.status.Is? then r.status.text else ""
  }

  // ----- How timestamps and statuses compare --------------------------------

  /** What a stored timestamp counts as: itself, and 0 when there is none. */
  ghost predicate CountsAs(t: Option<int>, n: int) {
    t == Some(n) || (t == None && n == 0)
  }

  /** A row with timestamp a is newer than one with timestamp b. */
  ghost predicate Later(a: Option<int>, b: Option<int>) {
    exists m, n :: CountsAs(a, m) && CountsAs(b, n) && m > n
  }

  /** The same text, where an absent, a null and an empty one are the same. */
  ghost predicate SameStatus(a: Status, b: Status) {
    a == b || (Blank(a) && Blank(b))
  }

  ghost predicate Blank(s: Status) {
    s == Status.Missing || s == Status.Null || s == Is("")
  }

  lemma Compared(a: Row, b: Row)
    ensures Later(a.updatedAt, b.updatedAt) <==> SafeTs(a) > SafeTs(b)
    ensures SameStatus(a.status, b.status) <==> StatusOf(a) == StatusOf(b)
  {
    assert CountsAs(a.updatedAt, SafeTs(a)) && CountsAs(b.updatedAt, SafeTs(b));
  }

  // ----- Lookup maps --------------------------------------------------------

  /** The lookup map of a list of rows: the last row of an id wins. */
  function Lookup(rows: seq<Row>): Replica {
    if rows == [] then map[]
    else
      var r := rows[|rows| - 1];
      if HasId(r) then Lookup(rows[..|rows| - 1])[r.id.value := r] else Lookup(rows[..|rows| - 1])
  }

  /** The ids of a list of rows in order of first appearance. */
  function Ids(rows: seq<Row>): seq<Text> {
    if rows == [] then []
    else
      var before, r := Ids(rows[..|rows| - 1]), rows[|rows| - 1];
      if HasId(r) && r.id.value !in before then before + [r.id.value] else before
  }

  lemma {:induction false} IdsAreKeys(rows: seq<Row>)
    ensures NoRepeats(Ids(rows)) && forall id :: id in Ids(rows) <==> id in Lookup(rows)
  {
    if rows != [] {
      IdsAreKeys(rows[..|rows| - 1]);
    }
  }

  // ----- The plan -----------------------------------------------------------

  /** The remote row is taken: only remote, newer, or as new with another status. */
  predicate Pulls(local: Replica, remote: Replica, id: Text) {
    id in remote &&
    (id !in local || SafeTs(remote[id]) > SafeTs(local[id])
     || (SafeTs(remote[id]) == SafeTs(local[id]) && StatusOf(remote[id]) != StatusOf(local[id])))
  }

  /** The local row is sent: newer than the remote one, or new and uncommitted. */
  predicate Pushes(local: Replica, remote: Replica, committed: set<Text>, id: Text) {
    id in local && (if id in remote then SafeTs(local[id]) > SafeTs(remote[id]) else id !in committed)
  }

  /** The local row is dropped: committed and gone from the remote. */
  predicate Drops(local: Replica, remote: Replica, committed: set<Text>, id: Text) {
    id in local && id !in remote && id in committed
  }

  function Select(ids: seq<Text>, f: Text -> bool): seq<Text> {
    if ids == [] then []
    else
      var before := Select(ids[..|ids| - 1], f);
      if f(ids[|ids| - 1]) then before + [ids[|ids| - 1]] else before
  }

  lemma {:induction false} SelectIs(ids: seq<Text>, f: Text -> bool)
    ensures forall id :: id in Select(ids, f) <==> id in ids && f(id)
    ensures NoRepeats(ids) ==> NoRepeats(Select(ids, f))
  {
    if ids != [] {
      var init := ids[..|ids| - 1];
      SelectIs(init, f);
      assert ids == init + [ids[|ids| - 1]];
    }
  }

  function PullTest(l: Replica, r: Replica): Text -> bool { id => Pulls(l, r, id) }

  function SendTest(l: Replica, r: Replica, committed: set<Text>): Text -> bool { id => Pushes(l, r, committed, id) }

  function NewTest(l: Replica, r: Replica, committed: set<Text>): Text -> bool {
    id => id !in r && Pushes(l, r, committed, id)
  }

  function DropTest(l: Replica, r: Replica, committed: set<Text>): Text -> bool { id => Drops(l, r, committed, id) }

  /** The plan over the remote ids in their order, then over the local ones. */
  function PlanOf(local: seq<Row>, remote: seq<Row>, committed: set<Text>): Diff {
    var l, r := Lookup(local), Lookup(remote);
    var pull := Select(Ids(remote), PullTest(l, r));
    var push := Select(Ids(remote), SendTest(l, r, committed)) + Select(Ids(local), NewTest(l, r, committed));
    Diff(pull, push, Select(Ids(local), DropTest(l, r, committed)), pull == [] && push == [])
  }

  lemma SelectStep(ids: seq<Text>, i: nat, f: Text -> bool)
    requires i < |ids|
    ensures Select(ids[..i + 1], f) == if f(ids[i]) then Select(ids[..i], f) + [ids[i]] else Select(ids[..i], f)
  {
    assert ids[..i + 1][..i] == ids[..i];
  }

  method BuildDiff(localRows: Option<seq<Row>>, manifestRows: Option<seq<Row>>, hashIndex: Option<set<Text>>)
    returns (d: Diff)
    ensures d == PlanOf(if localRows.Some? then localRows.value else [],
                        if manifestRows.Some? then manifestRows.value else [],
                        if hashIndex.Some? then hashIndex.value else {})
  {
    hide Lookup, Ids, Select;
    var local := if localRows.Some? then localRows.value else [];
    var remote := if manifestRows.Some? then manifestRows.value else [];
    var committed := if hashIndex.Some? then hashIndex.value else {};
    var localMap, localIds := BuildMap(local);
    var remoteMap, remoteIds := BuildMap(remote);
    IdsAreKeys(local);
    IdsAreKeys(remote);
    var pull, fromRemote := CompareRemote(localMap, remoteMap, remoteIds, committed);
    var added, deleteLocal := CompareLocal(localMap, remoteMap, localIds, committed);
    var push := fromRemote + added;
    d := Diff(pull, push, deleteLocal, |pull| == 0 && |push| == 0);
  }

  /** The loop over the remote rows. */
  method CompareRemote(localMap: Replica, remoteMap: Replica, ids: seq<Text>, ghost committed: set<Text>)
    returns (pull: seq<Text>, push: seq<Text>)
    requires forall id :: id in ids ==> id in remoteMap
    ensures pull == Select(ids, PullTest(localMap, remoteMap))
    ensures push == Select(ids, SendTest(localMap, remoteMap, committed))
  {
    pull, push := [], [];
    for i := 0 to |ids|
      invariant pull == Select(ids[..i], PullTest(localMap, remoteMap))
      invariant push == Select(ids[..i], SendTest(localMap, remoteMap, committed))
    {
      hide Select;
      SelectStep(ids, i, PullTest(localMap, remoteMap));
      SelectStep(ids, i, SendTest(localMap, remoteMap, committed));
      var id := ids[i];
      assert id in ids;
      if id !in localMap {
        pull := pull + [id];
        continue;
      }
      var remoteTime, localTime := SafeTs(remoteMap[id]), SafeTs(localMap[id]);
      if remoteTime > localTime {
        pull := pull + [id];
      } else if localTime > remoteTime {
        push := push + [id];
      } else if StatusOf(remoteMap[id]) != StatusOf(localMap[id]) {
        pull := pull + [id];
      }
    }
    assert ids[..|ids|] == ids;
  }

  /** The loop over the local rows the remote does not have. */
  method CompareLocal(localMap: Replica, remoteMap: Replica, ids: seq<Text>, committed: set<Text>)
    returns (push: seq<Text>, deleteLocal: seq<Text>)
    requires forall id :: id in ids ==> id in localMap
    ensures push == Select(ids, NewTest(localMap, remoteMap, committed))
    ensures deleteLocal == Select(ids, DropTest(localMap, remoteMap, committed))
  {
    push, deleteLocal := [], [];
    for i := 0 to |ids|
      invariant push == Select(ids[..i], NewTest(localMap, remoteMap, committed))
      invariant deleteLocal == Select(ids[..i], DropTest(localMap, remoteMap, committed))
    {
      hide Select;
      SelectStep(ids, i, NewTest(localMap, remoteMap, committed));
      SelectStep(ids, i, DropTest(localMap, remoteMap, committed));
      var id := ids[i];
      assert id in ids;
      if id in remoteMap {
        continue;
      }
      if id in committed {
        deleteLocal := deleteLocal + [id];
      } else {
        push := push + [id];
      }
    }
    assert ids[..|ids|] == ids;
  }

  method BuildMap(rows: seq<Row>) returns (m: Replica, ids: seq<Text>)
    ensures m == Lookup(rows) && ids == Ids(rows)
  {
    m, ids := map[], [];
    for i := 0 to |rows|
      invariant m == Lookup(rows[..i]) && ids == Ids(rows[..i])
    {
      assert rows[..i + 1][..i] == rows[..i];
      IdsAreKeys(rows[..i]);
      if HasId(rows[i]) {
        var id := rows[i].id.value;
        if id !in m {
          ids := ids + [id];
        }
        m := m[id := rows[i]];
      }
    }
    assert rows[..|rows|] == rows;
  }

  /** The last row with the id. */
  ghost predicate IsLast(rows: seq<Row>, id: Text, row: Row) {
    exists i :: 0 <= i < |rows| && rows[i] == row && row.id == Some(id) && forall j :: i < j < |rows| ==> rows[j].id != Some(id)
  }

  /** The lookup map has the last row of every id that is not empty, and nothing else. */
  lemma {:induction false} LookupIs(rows: seq<Row>, id: Text)
    ensures id in Lookup(rows) <==> id != "" && exists row :: row in rows && row.id == Some(id)
    ensures id in Lookup(rows) ==> IsLast(rows, id, Lookup(rows)[id])
  {
    if rows != [] {
      var n := |rows| - 1;
      LookupIs(rows[..n], id);
      assert rows == rows[..n] + [rows[n]];
      if id in Lookup(rows) {
        if rows[n].id == Some(id) {
          assert rows[n] == Lookup(rows)[id];
        } else {
          var i :| 0 <= i < n && rows[..n][i] == Lookup(rows)[id] && forall j :: i < j < n ==> rows[..n][j].id != Some(id);
          assert rows[i] == Lookup(rows)[id];
          assert forall j :: i < j < n ==> rows[j] == rows[..n][j];
        }
      }
    }
  }

  /** The actions the plan has for one id, told by the rows' own timestamps and statuses. */
  ghost predicate Resolved(l: Replica, r: Replica, committed: set<Text>, id: Text, pull: bool, push: bool, drop: bool) {
    if id !in l then pull == (id in r) && !push && !drop
    else if id !in r then !pull && push == (id !in committed) && drop == (id in committed)
    else
      && pull == (Later(r[id].updatedAt, l[id].updatedAt)
                  || (!Later(l[id].updatedAt, r[id].updatedAt) && !SameStatus(l[id].status, r[id].status)))
      && push == Later(l[id].updatedAt, r[id].updatedAt) && !drop
  }

  /** The plan lists each action's ids exactly once, no id under two actions, and is on
      the fast path exactly when nothing is to be fetched or sent. */
  lemma PlanIsExact(local: seq<Row>, remote: seq<Row>, committed: set<Text>)
    ensures var l, r, d := Lookup(local), Lookup(remote), PlanOf(local, remote, committed);
            && (forall id :: Resolved(l, r, committed, id, id in d.pull, id in d.push, id in d.deleteLocal))
            && NoRepeats(d.pull + d.push + d.deleteLocal)
            && (d.fastPath <==> d.pull == [] && d.push == [])
  {
    var l, r, d := Lookup(local), Lookup(remote), PlanOf(local, remote, committed);
    PlanIs(local, remote, committed);
    FastPathIs(local, remote, committed);
    hide Lookup, PlanOf, Later, SameStatus, SafeTs, StatusOf;
    forall id ensures Resolved(l, r, committed, id, id in d.pull, id in d.push, id in d.deleteLocal) {
      if id in l && id in r {
        Compared(l[id], r[id]);
        Compared(r[id], l[id]);
      }
    }
  }

  lemma PlanIs(local: seq<Row>, remote: seq<Row>, committed: set<Text>)
    ensures var l, r, d := Lookup(local), Lookup(remote), PlanOf(local, remote, committed);
            && (forall id :: id in d.pull <==> Pulls(l, r, id))
            && (forall id :: id in d.push <==> Pushes(l, r, committed, id))
            && (forall id :: id in d.deleteLocal <==> Drops(l, r, committed, id))
            && NoRepeats(d.pull + d.push + d.deleteLocal)
  {
    var l, r := Lookup(local), Lookup(remote);
    IdsAreKeys(local);
    IdsAreKeys(remote);
    SelectIs(Ids(remote), PullTest(l, r));
    SelectIs(Ids(remote), SendTest(l, r, committed));
    SelectIs(Ids(local), NewTest(l, r, committed));
    SelectIs(Ids(local), DropTest(l, r, committed));
    hide Lookup, Ids, Select;
    var d := PlanOf(local, remote, committed);
    assert forall id :: id in d.pull ==> id in r && id !in d.push && id !in d.deleteLocal;
    assert forall id :: id in d.push ==> id !in d.deleteLocal;
    DisjointNoRepeats(Select(Ids(remote), SendTest(l, r, committed)), Select(Ids(local), NewTest(l, r, committed)));
    DisjointNoRepeats(d.pull, d.push);
    DisjointNoRepeats(d.pull + d.push, d.deleteLocal);
  }

  /** Where an id first appears in a list of rows, or the length of the list. */
  ghost function FirstAt(rows: seq<Row>, id: Text): (i: nat)
    ensures i <= |rows| && (i < |rows| ==> rows[i].id == Some(id))
    ensures forall j :: 0 <= j < i ==> rows[j].id != Some(id)
  {
    if rows == [] || rows[0].id == Some(id) then 0 else 1 + FirstAt(rows[1..], id)
  }

  /** Every id comes from a row of its own, later than the one before it. */
  ghost predicate InOrderOf(ids: seq<Text>, rows: seq<Row>) {
    && (forall i :: 0 <= i < |ids| ==> FirstAt(rows, ids[i]) < |rows|)
    && (forall i, j :: 0 <= i < j < |ids| ==> FirstAt(rows, ids[i]) < FirstAt(rows, ids[j]))
  }

  lemma FirstAtIs(rows: seq<Row>, id: Text, i: nat)
    requires i < |rows| && rows[i].id == Some(id) && forall j :: 0 <= j < i ==> rows[j].id != Some(id)
    ensures FirstAt(rows, id) == i
  {
  }

  lemma PrefixOrder(ids: seq<Text>, rows: seq<Row>, n: nat)
    requires n <= |rows| && InOrderOf(ids, rows[..n])
    ensures InOrderOf(ids, rows) && forall i :: 0 <= i < |ids| ==> FirstAt(rows, ids[i]) < n
  {
    hide FirstAt;
    forall i | 0 <= i < |ids| ensures FirstAt(rows, ids[i]) == FirstAt(rows[..n], ids[i]) < n {
      FirstInPrefix(rows, n, ids[i]);
    }
  }

  lemma FirstInPrefix(rows: seq<Row>, n: nat, id: Text)
    requires n <= |rows| && FirstAt(rows[..n], id) < n
    ensures FirstAt(rows, id) == FirstAt(rows[..n], id)
  {
    var i := FirstAt(rows[..n], id);
    assert forall j :: 0 <= j <= i ==> rows[j] == rows[..n][j];
    hide FirstAt;
    FirstAtIs(rows, id, i);
  }

  lemma NextInOrder(ids: seq<Text>, id: Text, rows: seq<Row>)
    requires InOrderOf(ids, rows) && FirstAt(rows, id) < |rows|
    requires forall i :: 0 <= i < |ids| ==> FirstAt(rows, ids[i]) < FirstAt(rows, id)
    ensures InOrderOf(ids + [id], rows)
  {
    hide FirstAt;
  }

  lemma {:induction false} IdsInOrder(rows: seq<Row>)
    ensures InOrderOf(Ids(rows), rows)
  {
    if rows != [] {
      var n := |rows| - 1;
      var init, r := rows[..n], rows[n];
      IdsInOrder(init);
      hide FirstAt, InOrderOf;
      PrefixOrder(Ids(init), rows, n);
      if HasId(r) && r.id.value !in Ids(init) {
        NotYetListed(init, r.id.value);
        FirstAtIs(rows, r.id.value, n);
        NextInOrder(Ids(init), r.id.value, rows);
      }
    }
  }

  lemma NotYetListed(rows: seq<Row>, id: Text)
    requires id !in Ids(rows) && id != ""
    ensures forall row :: row in rows ==> row.id != Some(id)
  {
    IdsAreKeys(rows);
    LookupIs(rows, id);
  }

  lemma {:induction false} SelectInOrder(ids: seq<Text>, f: Text -> bool, rows: seq<Row>)
    requires InOrderOf(ids, rows)
    ensures InOrderOf(Select(ids, f), rows)
  {
    if ids != [] {
      var init, last := ids[..|ids| - 1], ids[|ids| - 1];
      InitInOrder(ids, rows);
      SelectInOrder(init, f, rows);
      SelectIs(init, f);
      hide FirstAt, InOrderOf;
      if f(last) {
        NextInOrder(Select(init, f), last, rows);
      }
    }
  }

  lemma InitInOrder(ids: seq<Text>, rows: seq<Row>)
    requires InOrderOf(ids, rows) && ids != []
    ensures var init, last := ids[..|ids| - 1], ids[|ids| - 1];
            && InOrderOf(init, rows) && FirstAt(rows, last) < |rows|
            && forall id :: id in init ==> FirstAt(rows, id) < FirstAt(rows, last)
  {
    hide FirstAt;
  }

  /** The plan follows the lists: rows are fetched and compared in the order of the remote
      list, and new and dropped ones come in the order of the local list. */
  lemma PlanKeepsOrder(local: seq<Row>, remote: seq<Row>, committed: set<Text>)
    ensures var d := PlanOf(local, remote, committed);
            && InOrderOf(d.pull, remote) && InOrderOf(d.deleteLocal, local)
            && exists k | 0 <= k <= |d.push| :: InOrderOf(d.push[..k], remote) && InOrderOf(d.push[k..], local)
                                               && forall id :: id in d.push[k..] ==> id !in Lookup(remote)
  {
    var l, r, d := Lookup(local), Lookup(remote), PlanOf(local, remote, committed);
    IdsInOrder(local);
    IdsInOrder(remote);
    hide InOrderOf, Lookup, Ids, Select;
    SelectInOrder(Ids(remote), PullTest(l, r), remote);
    SelectInOrder(Ids(remote), SendTest(l, r, committed), remote);
    SelectInOrder(Ids(local), NewTest(l, r, committed), local);
    SelectInOrder(Ids(local), DropTest(l, r, committed), local);
    SelectIs(Ids(local), NewTest(l, r, committed));
    var sent, added := Select(Ids(remote), SendTest(l, r, committed)), Select(Ids(local), NewTest(l, r, committed));
    assert d.push[..|sent|] == sent && d.push[|sent|..] == added;
  }

  lemma DisjointNoRepeats(a: seq<Text>, b: seq<Text>)
    requires NoRepeats(a) && NoRepeats(b) && forall id :: id in a ==> id !in b
    ensures NoRepeats(a + b)
  {
    var c := a + b;
    forall i, j | 0 <= i < j < |c| ensures c[i] != c[j] {
      if i < |a| <= j {
        assert a[i] in a && b[j - |a|] in b;
      }
    }
  }

  /** Two replicas show the same ids, timestamps and statuses. */
  ghost predicate Agrees(a: Replica, b: Replica) {
    a.Keys == b.Keys
    && forall id :: id in a ==> Alike(a[id], b[id])
  }

  ghost predicate Alike(a: Row, b: Row) {
    !Later(a.updatedAt, b.updatedAt) && !Later(b.updatedAt, a.updatedAt) && SameStatus(a.status, b.status)
  }

  lemma AlikeIs(a: Row, b: Row)
    ensures Alike(a, b) <==> SafeTs(a) == SafeTs(b) && StatusOf(a) == StatusOf(b)
  {
    Compared(a, b);
    Compared(b, a);
    hide Later, SameStatus, SafeTs, StatusOf;
  }

  lemma AgreesIs(a: Replica, b: Replica)
    ensures Agrees(a, b) <==>
            a.Keys == b.Keys && forall id :: id in a ==> SafeTs(a[id]) == SafeTs(b[id]) && StatusOf(a[id]) == StatusOf(b[id])
  {
    hide Alike, SafeTs, StatusOf;
    forall id | id in a && id in b ensures Alike(a[id], b[id]) <==> SafeTs(a[id]) == SafeTs(b[id]) && StatusOf(a[id]) == StatusOf(b[id]) {
      AlikeIs(a[id], b[id]);
    }
  }

  /** The plan is empty, and on the fast path, exactly when the two sides agree. */
  lemma EmptyPlanIff(local: seq<Row>, remote: seq<Row>, committed: set<Text>)
    ensures PlanOf(local, remote, committed) == Diff([], [], [], true) <==> Agrees(Lookup(local), Lookup(remote))
  {
    var l, r, d := Lookup(local), Lookup(remote), PlanOf(local, remote, committed);
    PlanIs(local, remote, committed);
    AgreesIs(l, r);
    hide Lookup, PlanOf, Agrees;
    assert d.fastPath <==> d.pull == [] && d.push == [] by { FastPathIs(local, remote, committed); }
    if d == Diff([], [], [], true) {
      forall id | id in l.Keys + r.Keys
        ensures id in l && id in r && SafeTs(l[id]) == SafeTs(r[id]) && StatusOf(l[id]) == StatusOf(r[id])
      {
        assert id !in d.pull && id !in d.push && id !in d.deleteLocal;
      }
    } else if Agrees(l, r) {
      assert forall id :: id !in d.pull && id !in d.push && id !in d.deleteLocal;
      Nothing(d.pull);
      Nothing(d.push);
      Nothing(d.deleteLocal);
    }
  }

  lemma FastPathIs(local: seq<Row>, remote: seq<Row>, committed: set<Text>)
    ensures var d := PlanOf(local, remote, committed); d.fastPath <==> d.pull == [] && d.push == []
  {
  }

  lemma Nothing(ids: seq<Text>)
    ensures (forall id :: id !in ids) ==> ids == []
  {
    if ids != [] {
      assert ids[0] in ids;
    }
  }

  // ----- Devices and one remote ---------------------------------------------

  /** The local side after the plan is applied: rows dropped, then remote rows taken. */
  function LocalAfter(l: Replica, r: Replica, committed: set<Text>): Replica {
    map id | id in l.Keys + r.Keys && (id in r || id !in committed) :: if Pulls(l, r, id) then r[id] else l[id]
  }

  /** The remote side after the plan is applied: local rows sent. */
  function RemoteAfter(l: Replica, r: Replica, committed: set<Text>): Replica {
    map id | id in l.Keys + r.Keys && (id in r || id !in committed) ::
      if Pushes(l, r, committed, id) then l[id] else r[id]
  }

  function Taken(from: Replica, ids: seq<Text>): Replica {
    map id | id in from && id in ids :: from[id]
  }

  /** Acting on the lists of a plan gives the two sides above. */
  lemma PlanGivesStep(local: seq<Row>, remote: seq<Row>, committed: set<Text>)
    ensures var l, r, d := Lookup(local), Lookup(remote), PlanOf(local, remote, committed);
            && (l - (set id | id in d.deleteLocal)) + Taken(r, d.pull) == LocalAfter(l, r, committed)
            && r + Taken(l, d.push) == RemoteAfter(l, r, committed)
  {
    PlanIs(local, remote, committed);
    hide Lookup, PlanOf;
  }

  datatype System = System(remote: Replica, devices: seq<Replica>)

  /** Device i syncs. */
  function Step(s: System, committed: set<Text>, i: nat): System
    requires i < |s.devices|
  {
    System(RemoteAfter(s.devices[i], s.remote, committed),
           s.devices[i := LocalAfter(s.devices[i], s.remote, committed)])
  }

  predicate Names(run: seq<nat>, n: nat) {
    forall k :: 0 <= k < |run| ==> run[k] < n
  }

  predicate Covers(run: seq<nat>, n: nat) {
    forall i: nat :: i < n ==> i in run
  }

  /** The devices named in the run sync, one after another. */
  function Run(s: System, committed: set<Text>, run: seq<nat>): (e: System)
    requires Names(run, |s.devices|)
    ensures |e.devices| == |s.devices|
  {
    if run == [] then s
    else Step(Run(s, committed, run[..|run| - 1]), committed, run[|run| - 1])
  }

  /** Nothing in a has to be sent to b: b has all its ids, with no older rows. */
  ghost predicate Below(a: Replica, b: Replica) {
    forall id :: id in a ==> id in b && !Later(a[id].updatedAt, b[id].updatedAt)
  }

  lemma BelowIs(a: Replica, b: Replica)
    ensures Below(a, b) <==> forall id :: id in a ==> id in b && SafeTs(a[id]) <= SafeTs(b[id])
  {
    hide Later, SafeTs;
    forall id | id in a && id in b ensures Later(a[id].updatedAt, b[id].updatedAt) <==> SafeTs(a[id]) > SafeTs(b[id]) {
      Compared(a[id], b[id]);
    }
  }

  /** One sync makes the two sides agree, and only raises the remote. */
  lemma SyncAgrees(l: Replica, r: Replica, committed: set<Text>)
    ensures Agrees(LocalAfter(l, r, committed), RemoteAfter(l, r, committed))
    ensures Below(r, RemoteAfter(l, r, committed))
    ensures Below(l, r) ==> RemoteAfter(l, r, committed) == r
  {
    AgreesIs(LocalAfter(l, r, committed), RemoteAfter(l, r, committed));
    BelowIs(r, RemoteAfter(l, r, committed));
    BelowIs(l, r);
    hide Agrees, Below;
  }

  lemma AgreesIsBelow(a: Replica, b: Replica)
    requires Agrees(a, b)
    ensures Below(a, b)
  {
    hide Later, SameStatus;
  }

  lemma BelowIsReflexive(a: Replica)
    ensures Below(a, a)
  {
    BelowIs(a, a);
    hide Below;
  }

  lemma BelowIsTransitive(a: Replica, b: Replica, c: Replica)
    requires Below(a, b) && Below(b, c)
    ensures Below(a, c)
  {
    BelowIs(a, b);
    BelowIs(b, c);
    BelowIs(a, c);
    hide Below;
  }

  /** Once every device has synced, no device holds anything newer than the remote. */
  lemma {:induction false} FirstRound(s: System, committed: set<Text>, run: seq<nat>)
    requires Names(run, |s.devices|)
    ensures var e := Run(s, committed, run);
            && Below(s.remote, e.remote)
            && forall i: nat :: i < |s.devices| ==>
                 if i in run then Below(e.devices[i], e.remote) else e.devices[i] == s.devices[i]
  {
    hide Below, Agrees, LocalAfter, RemoteAfter;
    var e := Run(s, committed, run);
    if run == [] {
      BelowIsReflexive(s.remote);
    } else {
      var before, i := run[..|run| - 1], run[|run| - 1];
      FirstRound(s, committed, before);
      var b := Run(s, committed, before);
      SyncAgrees(b.devices[i], b.remote, committed);
      AgreesIsBelow(e.devices[i], e.remote);
      BelowIsTransitive(s.remote, b.remote, e.remote);
      forall j: nat | j < |s.devices|
        ensures if j in run then Below(e.devices[j], e.remote) else e.devices[j] == s.devices[j]
      {
        if j != i && j in before {
          BelowIsTransitive(b.devices[j], b.remote, e.remote);
        }
      }
    }
  }

  /** From then on the remote stands still, and every device that syncs agrees with it for good. */
  lemma {:induction false} SecondRound(s: System, committed: set<Text>, run: seq<nat>)
    requires Names(run, |s.devices|)
    requires forall i: nat :: i < |s.devices| ==> Below(s.devices[i], s.remote)
    ensures var e := Run(s, committed, run);
            && e.remote == s.remote
            && forall i: nat :: i < |s.devices| ==>
                 Below(e.devices[i], e.remote) && (i in run ==> Agrees(e.devices[i], e.remote))
  {
    hide Below, Agrees, LocalAfter, RemoteAfter;
    var e := Run(s, committed, run);
    if run != [] {
      var before, i := run[..|run| - 1], run[|run| - 1];
      SecondRound(s, committed, before);
      var b := Run(s, committed, before);
      SyncAgrees(b.devices[i], b.remote, committed);
      AgreesIsBelow(e.devices[i], e.remote);
    }
  }

  lemma {:induction false} RunsCompose(s: System, committed: set<Text>, first: seq<nat>, second: seq<nat>)
    requires Names(first, |s.devices|) && Names(second, |s.devices|)
    ensures Names(first + second, |s.devices|)
    ensures Run(s, committed, first + second) == Run(Run(s, committed, first), committed, second)
  {
    if second == [] {
      assert first + second == first;
    } else {
      var rest := second[..|second| - 1];
      RunsCompose(s, committed, first, rest);
      var all := first + second;
      assert all[..|all| - 1] == first + rest && all[|all| - 1] == second[|second| - 1];
    }
  }

  // ----- What the remote ends with ------------------------------------------

  /** One of the replicas of the system holds this very row under the id. */
  predicate Holds(s: System, id: Text, row: Row) {
    (id in s.remote && s.remote[id] == row)
    || exists i: nat :: i < |s.devices| && HoldsAt(s, i, id, row)
  }

  predicate HoldsAt(s: System, i: nat, id: Text, row: Row)
    requires i < |s.devices|
  {
    id in s.devices[i] && s.devices[i][id] == row
  }

  /** An id that can live on: on the remote, or on a device and not committed. */
  predicate Lives(s: System, committed: set<Text>, id: Text) {
    id in s.remote || (id !in committed && exists i: nat :: i < |s.devices| && id in s.devices[i])
  }

  /** Rows are never made up: every row in the end was in some replica at the start. */
  ghost predicate ComesFrom(e: System, s: System) {
    forall id, row :: Holds(e, id, row) ==> Holds(s, id, row)
  }

  lemma StepComesFrom(s: System, committed: set<Text>, i: nat)
    requires i < |s.devices|
    ensures ComesFrom(Step(s, committed, i), s)
  {
    var e := Step(s, committed, i);
    forall id, row | Holds(e, id, row) ensures Holds(s, id, row) {
      if id in e.remote && e.remote[id] == row {
        assert HoldsAt(s, i, id, row) || (id in s.remote && s.remote[id] == row);
      } else {
        var j: nat :| j < |e.devices| && HoldsAt(e, j, id, row);
        assert HoldsAt(s, j, id, row) || (id in s.remote && s.remote[id] == row);
      }
    }
  }

  lemma {:induction false} RunComesFrom(s: System, committed: set<Text>, run: seq<nat>)
    requires Names(run, |s.devices|)
    ensures ComesFrom(Run(s, committed, run), s)
  {
    if run != [] {
      var before := run[..|run| - 1];
      RunComesFrom(s, committed, before);
      var b := Run(s, committed, before);
      StepComesFrom(b, committed, run[|run| - 1]);
      hide Step, Run, Holds;
    }
  }

  /** Committed ids that the remote does not have never get onto it. */
  lemma {:induction false} CommittedStayAway(s: System, committed: set<Text>, run: seq<nat>, id: Text)
    requires Names(run, |s.devices|) && id in committed && id !in s.remote
    ensures id !in Run(s, committed, run).remote
  {
    if run != [] {
      CommittedStayAway(s, committed, run[..|run| - 1], id);
    }
  }

  /** What a device offers reaches the remote, as it is or newer, once the device has synced. */
  lemma {:induction false} OffersArrive(s: System, committed: set<Text>, run: seq<nat>, i: nat, id: Text)
    requires Names(run, |s.devices|) && i in run && id in s.devices[i]
    requires id in s.remote || id !in committed
    ensures var e := Run(s, committed, run); id in e.remote && SafeTs(e.remote[id]) >= SafeTs(s.devices[i][id])
  {
    hide Below, Agrees;
    var before, j := run[..|run| - 1], run[|run| - 1];
    FirstRound(s, committed, before);
    var b, e := Run(s, committed, before), Run(s, committed, run);
    SyncAgrees(b.devices[j], b.remote, committed);
    BelowIs(b.remote, RemoteAfter(b.devices[j], b.remote, committed));
    BelowIs(s.remote, b.remote);
    if i in before {
      OffersArrive(s, committed, before, i, id);
    }
  }

  /** The remote row of id is the newest of the rows the replicas of s have for it. */
  ghost predicate Newest(s: System, id: Text, row: Row) {
    Holds(s, id, row) && forall other :: Holds(s, id, other) ==> !Later(other.updatedAt, row.updatedAt)
  }

  /** After one round the remote holds exactly the ids that live, each with its newest row. */
  lemma RemoteIsNewest(s: System, committed: set<Text>, run: seq<nat>)
    requires Names(run, |s.devices|) && Covers(run, |s.devices|)
    ensures var e := Run(s, committed, run);
            forall id :: (id in e.remote <==> Lives(s, committed, id))
                         && (id in e.remote ==> Newest(s, id, e.remote[id]))
  {
    var e := Run(s, committed, run);
    FirstRound(s, committed, run);
    RunComesFrom(s, committed, run);
    BelowIs(s.remote, e.remote);
    hide Run, Later, Below, SafeTs;
    forall id ensures (id in e.remote <==> Lives(s, committed, id)) && (id in e.remote ==> Newest(s, id, e.remote[id])) {
      if id in e.remote {
        LivingIds(s, committed, run, e, id);
        forall other | Holds(s, id, other) ensures !Later(other.updatedAt, e.remote[id].updatedAt) {
          Compared(other, e.remote[id]);
          if !(id in s.remote && s.remote[id] == other) {
            var i: nat :| i < |s.devices| && HoldsAt(s, i, id, other);
            OffersArrive(s, committed, run, i, id);
          }
        }
        assert Holds(e, id, e.remote[id]);
      } else if Lives(s, committed, id) && id !in s.remote {
        var i: nat :| i < |s.devices| && id in s.devices[i];
        OffersArrive(s, committed, run, i, id);
      }
    }
  }

  lemma LivingIds(s: System, committed: set<Text>, run: seq<nat>, e: System, id: Text)
    requires Names(run, |s.devices|) && e == Run(s, committed, run) && id in e.remote
    ensures Lives(s, committed, id)
  {
    RunComesFrom(s, committed, run);
    if id !in s.remote {
      if id in committed {
        CommittedStayAway(s, committed, run, id);
      }
      hide Run;
      assert Holds(e, id, e.remote[id]);
      assert Holds(s, id, e.remote[id]);
      var i: nat :| i < |s.devices| && HoldsAt(s, i, id, e.remote[id]);
      assert id in s.devices[i];
    }
  }

  /**
   Convergence. Whatever the replicas hold, once every device has synced and then
   synced again with no edits in between, in any order: every device agrees with the
   remote on ids, timestamps and statuses; the remote has exactly the ids that can
   live, each with the newest row that was anywhere; and any device that syncs again
   gets the empty plan on the fast path.
   */
  lemma TwoRoundsConverge(s: System, committed: set<Text>, first: seq<nat>, second: seq<nat>)
    requires Names(first, |s.devices|) && Covers(first, |s.devices|)
    requires Names(second, |s.devices|) && Covers(second, |s.devices|)
    ensures Names(first + second, |s.devices|)
    ensures var e := Run(s, committed, first + second);
            && (forall i: nat :: i < |s.devices| ==> Agrees(e.devices[i], e.remote))
            && (forall id :: (id in e.remote <==> Lives(s, committed, id))
                             && (id in e.remote ==> Newest(s, id, e.remote[id])))
            && (forall i: nat, local, remote ::
                  i < |s.devices| && Lookup(local) == e.devices[i] && Lookup(remote) == e.remote
                  ==> PlanOf(local, remote, committed) == Diff([], [], [], true))
  {
    RunsCompose(s, committed, first, second);
    var mid := Run(s, committed, first);
    var e := Run(s, committed, first + second);
    FirstRound(s, committed, first);
    SecondRound(mid, committed, second);
    RemoteIsNewest(s, committed, first);
    hide Run, Lookup, PlanOf, Agrees, Newest, Lives, Below;
    forall i: nat, local, remote | i < |s.devices| && Lookup(local) == e.devices[i] && Lookup(remote) == e.remote
      ensures PlanOf(local, remote, committed) == Diff([], [], [], true)
    {
      EmptyPlanIff(local, remote, committed);
    }
  }

  /** One round is not enough: a device that synced first misses what a later one sends. */
  lemma OneRoundIsNotEnough() returns (s: System, run: seq<nat>)
    ensures Names(run, |s.devices|) && Covers(run, |s.devices|)
    ensures exists i: nat :: i < |s.devices| && !Agrees(Run(s, {}, run).devices[i], Run(s, {}, run).remote)
  {
    var id: Text := "a";
    s := System(map[], [map[], map[id := Row(Some(id), Missing, Some(1), "")]]);
    run := [0, 1];
    var one: seq<nat> := [0];
    assert run[..1] == one && one[..0] == [];
    assert Run(s, {}, one) == Step(s, {}, 0);
    var e := Run(s, {}, run);
    assert id in e.remote && id !in e.devices[0];
    assert run[0] == 0 && run[1] == 1;
  }

  /** Once two sides agree no sync changes either of them: activities that differ by then differ for good. */
  lemma AgreementIsFinal(l: Replica, r: Replica, committed: set<Text>)
    requires Agrees(l, r)
    ensures LocalAfter(l, r, committed) == l && RemoteAfter(l, r, committed) == r
  {
    AgreesIs(l, r);
    hide Agrees;
    assert LocalAfter(l, r, committed).Keys == l.Keys;
    assert RemoteAfter(l, r, committed).Keys == r.Keys;
  }
}
