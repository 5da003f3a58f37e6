/**
 The staging area's activities: capturing, pausing, resuming and ending them,
 and the time they are recorded to have taken.
 */
module Staging {
  import opened Json

  /** A stored field: in the clear behind "plain:", or encrypted. Both give back their value. */
  datatype Stored<T> = Plain(value: T) | Encrypted(value: T)

  datatype Pause = Pause(index: int, start: int, stop: Option<int>, comment: Option<Text>)

  datatype Activity = Activity(
    title: Text,
    startEpoch: Option<int>,
    start: Stored<int>,
    end: Option<Stored<int>>,
    pauses: Option<Stored<seq<Pause>>>,
    isActive: bool,
    isPaused: bool,
    duration: int,
    comment: Option<Text>)

  /** How an operation ends: normally, or with the ValueError it raises. */
  datatype Outcome = Done | Collision | NoActiveTask | AlreadyPaused | NotPaused

  datatype Result = Result(outcome: Outcome, staging: seq<Activity>)

  // ----- Durations ----------------------------------------------------------

  function ClosedTotal(pauses: seq<Pause>): int {
    if pauses == [] then 0
    else
      var p := pauses[|pauses| - 1];
      ClosedTotal(pauses[..|pauses| - 1]) + if p.stop.Some? then p.stop.value - p.start else 0
  }

  function DurationOf(start: int, end: int, pauses: seq<Pause>): int {
    var d := end - start - ClosedTotal(pauses);
    if d < 0 then 0 else d
  }

  method ComputeDuration(start: int, end: int, pauses: seq<Pause>) returns (d: int)
    ensures d == DurationOf(start, end, pauses)
  {
    var total := 0;
    for i := 0 to |pauses|
      invariant total == ClosedTotal(pauses[..i])
    {
      assert pauses[..i + 1][..i] == pauses[..i];
      if pauses[i].stop.Some? {
        total := total + (pauses[i].stop.value - pauses[i].start);
      }
    }
    assert pauses[..|pauses|] == pauses;
    d := if end - start - total < 0 then 0 else end - start - total;
  }

  // ----- What each operation does to an activity ----------------------------

  function PausesOf(a: Activity): seq<Pause> {
    if a.pauses.Some? then a.pauses.value.value else []
  }

  /** Pauses kept in the clear are encrypted when an operation reads them. */
  function Reconciled(a: Activity): Option<Stored<seq<Pause>>> {
    if a.pauses.Some? then Some(Encrypted(a.pauses.value.value)) else None
  }

  predicate LastIsOpen(pauses: seq<Pause>) {
    pauses != [] && pauses[|pauses| - 1].stop.None?
  }

  function Close(pauses: seq<Pause>, at: int, comment: Option<Text>): seq<Pause> {
    if LastIsOpen(pauses) then
      var n := |pauses| - 1;
      pauses[n := pauses[n].(stop := Some(at), comment := if comment.Some? then comment else pauses[n].comment)]
    else pauses
  }

  function Captured(title: Text, start: int, stop: Option<int>, isActive: bool, comment: Option<Text>): Activity {
    var stopped := stop.Some? && stop.value != 0;
    Activity(title, Some(start), Encrypted(start), if stopped then Some(Encrypted(stop.value)) else None,
             Some(Encrypted([])), isActive, false, if stopped then stop.value - start else 0, comment)
  }

  function Ended(a: Activity, at: int, comment: Option<Text>): Activity {
    var closes := a.isPaused && LastIsOpen(PausesOf(a));
    var pauses := if closes then Close(PausesOf(a), at, None) else PausesOf(a);
    a.(pauses := if closes then Some(Encrypted(pauses)) else Reconciled(a),
       isPaused := false,
       end := Some(Encrypted(at)),
       duration := DurationOf(a.start.value, at, pauses),
       isActive := false,
       comment := if comment.Some? then comment else a.comment)
  }

  function Halted(a: Activity, at: int, comment: Option<Text>): Activity {
    var pauses := PausesOf(a);
    a.(pauses := Some(Encrypted(pauses + [Pause(|pauses| + 1, at, None, comment)])), isPaused := true)
  }

  function Resumed(a: Activity, at: int, comment: Option<Text>): Activity {
    var pauses := Close(PausesOf(a), at, comment);
    a.(pauses := Some(Encrypted(pauses)), isPaused := false, duration := DurationOf(a.start.value, at, pauses))
  }

  // ----- What each operation does to the staging area -----------------------

  predicate Matches(a: Activity, title: Text) {
    a.title == title && a.isActive
  }

  /** The position of the first active activity with the title, or the length. */
  function FirstActive(staging: seq<Activity>, title: Text): (i: nat)
    ensures i <= |staging|
    ensures i < |staging| ==> Matches(staging[i], title)
    ensures forall j :: 0 <= j < i ==> !Matches(staging[j], title)
  {
    if staging == [] || Matches(staging[0], title) then 0 else 1 + FirstActive(staging[1..], title)
  }

  predicate StartTaken(staging: seq<Activity>, start: int) {
    exists a :: a in staging && a.startEpoch == Some(start)
  }

  datatype Event =
    | Capture(title: Text, start: int, stop: Option<int>, isActive: bool, comment: Option<Text>, at: int)
    | Suspend(title: Text, at: int, comment: Option<Text>)
    | Resume(title: Text, at: int, comment: Option<Text>)
    | End(title: Text, at: int, comment: Option<Text>)

  /** The outcome of an event and the staging area it leaves. */
  function Apply(staging: seq<Activity>, e: Event): Result {
    if e.Capture? then
      if StartTaken(staging, e.start) then Result(Collision, staging)
      else Result(Done, staging + [Captured(e.title, e.start, e.stop, e.isActive, e.comment)])
    else
      var i := FirstActive(staging, e.title);
      if i == |staging| then Result(NoActiveTask, staging)
      else if e.Suspend? then
        if staging[i].isPaused then Result(AlreadyPaused, staging)
        else Result(Done, staging[i := Halted(staging[i], e.at, e.comment)])
      else if e.Resume? then
        if staging[i].isPaused then Result(Done, staging[i := Resumed(staging[i], e.at, e.comment)])
        else Result(NotPaused, staging)
      else Result(Done, staging[i := Ended(staging[i], e.at, e.comment)])
  }

  class StagingArea {
    var staging: seq<Activity>

    constructor ()
      ensures staging == []
    {
      staging := [];
    }

    method CaptureHabit(title: Text, start: int, stop: Option<int>, isActive: bool, comment: Option<Text>, ghost at: int)
      returns (outcome: Outcome)
      modifies this
      ensures Result(outcome, staging) == Apply(old(staging), Capture(title, start, stop, isActive, comment, at))
    {
      for i := 0 to |staging|
        invariant staging == old(staging)
        invariant forall j :: 0 <= j < i ==> staging[j].startEpoch != Some(start)
      {
        if staging[i].startEpoch == Some(start) {
          assert staging[i] in staging;
          return Collision;
        }
      }
      var duration, end := 0, None;
      if stop.Some? && stop.value != 0 {
        duration, end := stop.value - start, Some(Encrypted(stop.value));
      }
      staging := staging + [Activity(title, Some(start), Encrypted(start), end, Some(Encrypted([])),
                                     isActive, false, duration, comment)];
      outcome := Done;
    }

    method EndHabit(title: Text, at: int, comment: Option<Text>) returns (outcome: Outcome)
      modifies this
      ensures Result(outcome, staging) == Apply(old(staging), End(title, at, comment))
    {
      var i := FindActive(title);
      if i == |staging| {
        return NoActiveTask;
      }
      var a := staging[i];
      var pauses := PausesOf(a);
      a := a.(pauses := Reconciled(a));
      if a.isPaused {
        if |pauses| > 0 && pauses[|pauses| - 1].stop.None? {
          pauses := pauses[|pauses| - 1 := pauses[|pauses| - 1].(stop := Some(at))];
          a := a.(pauses := Some(Encrypted(pauses)));
        }
        a := a.(isPaused := false);
      }
      var duration := ComputeDuration(a.start.value, at, pauses);
      a := a.(end := Some(Encrypted(at)), duration := duration, isActive := false);
      if comment.Some? {
        a := a.(comment := comment);
      }
      staging := staging[i := a];
      outcome := Done;
    }

    method PauseHabit(title: Text, at: int, comment: Option<Text>) returns (outcome: Outcome)
      modifies this
      ensures Result(outcome, staging) == Apply(old(staging), Suspend(title, at, comment))
    {
      var i := FindActive(title);
      if i == |staging| {
        return NoActiveTask;
      }
      var a := staging[i];
      if a.isPaused {
        return AlreadyPaused;
      }
      var pauses := PausesOf(a);
      pauses := pauses + [Pause(|pauses| + 1, at, None, comment)];
      staging := staging[i := a.(pauses := Some(Encrypted(pauses)), isPaused := true)];
      outcome := Done;
    }

    method UnpauseHabit(title: Text, at: int, comment: Option<Text>) returns (outcome: Outcome)
      modifies this
      ensures Result(outcome, staging) == Apply(old(staging), Resume(title, at, comment))
    {
      var i := FindActive(title);
      if i == |staging| {
        return NoActiveTask;
      }
      var a := staging[i];
      if !a.isPaused {
        return NotPaused;
      }
      var pauses := PausesOf(a);
      if |pauses| > 0 && pauses[|pauses| - 1].stop.None? {
        var last := pauses[|pauses| - 1].(stop := Some(at));
        if comment.Some? {
          last := last.(comment := comment);
        }
        pauses := pauses[|pauses| - 1 := last];
      }
      var duration := ComputeDuration(a.start.value, at, pauses);
      staging := staging[i := a.(pauses := Some(Encrypted(pauses)), isPaused := false, duration := duration)];
      outcome := Done;
    }

    /** The scan every operation but capture begins with. */
    method FindActive(title: Text) returns (i: nat)
      ensures i == FirstActive(staging, title)
    {
      for k := 0 to |staging|
        invariant forall j :: 0 <= j < k ==> !Matches(staging[j], title)
      {
        if staging[k].title == title && staging[k].isActive {
          return k;
        }
      }
      i := |staging|;
    }
  }

  // ----- What the recorded times should be ----------------------------------

  datatype Mode = Running | Waiting | Stopped

  /**
   An activity as a stopwatch: it runs, waits or has stopped; `ran` is the time it
   has spent running, `recorded` the reading when it last resumed or stopped, `ended`
   the moment it was ended or the one a capture named. Beside it lie the last comment on
   the activity and those on its pauses. One that was entered as already over (not live)
   carries the given duration.
   */
  datatype Track = Track(title: Text, start: int, mode: Mode, ran: int, recorded: int, live: bool,
                         ended: Option<int>, comment: Option<Text>, notes: seq<Option<Text>>)

  /** A comment that is given replaces the one before. */
  function Latest(given: Option<Text>, before: Option<Text>): Option<Text> {
    if given.Some? then given else before
  }

  /** What the user does to the stopwatch of an activity. */
  function Paused(t: Track, comment: Option<Text>): Track {
    t.(mode := Waiting, notes := t.notes + [comment])
  }

  function Continued(t: Track, comment: Option<Text>): Track {
    var n := |t.notes|;
    t.(mode := Running, recorded := t.ran,
       notes := if n > 0 then t.notes[n - 1 := Latest(comment, t.notes[n - 1])] else t.notes)
  }

  function Finished(t: Track, at: int, comment: Option<Text>): Track {
    t.(mode := Stopped, recorded := t.ran, ended := Some(at), comment := Latest(comment, t.comment))
  }

  datatype World = World(now: int, tracks: seq<Track>)

  /** The clock moves on: whatever is running has run that much longer. */
  function Tick(w: World, now: int): World {
    World(now, seq(|w.tracks|, i requires 0 <= i < |w.tracks| =>
      var t := w.tracks[i]; if t.mode == Running then t.(ran := t.ran + (now - w.now)) else t))
  }

  function FirstOpen(ts: seq<Track>, title: Text): (i: nat)
    ensures i <= |ts|
    ensures i < |ts| ==> ts[i].title == title && ts[i].mode != Stopped
    ensures forall j :: 0 <= j < i ==> ts[j].title != title || ts[j].mode == Stopped
  {
    if ts == [] || (ts[0].title == title && ts[0].mode != Stopped) then 0 else 1 + FirstOpen(ts[1..], title)
  }

  function Begun(e: Event): Track
    requires e.Capture?
  {
    var ended := if e.stop == Some(0) then None else e.stop;
    Track(e.title, e.start, if e.isActive then Running else Stopped, if e.isActive then e.at - e.start else 0,
          if ended.Some? then ended.value - e.start else 0, e.isActive, ended, e.comment, [])
  }

  /** What the user does, read on the stopwatches. */
  function Follow(w: World, e: Event): World {
    var ts := Tick(w, e.at).tracks;
    World(e.at,
          if e.Capture? then
            if exists t :: t in ts && t.start == e.start then ts else ts + [Begun(e)]
          else
            var i := FirstOpen(ts, e.title);
            if i == |ts| then ts
            else if e.Suspend? then if ts[i].mode == Running then ts[i := Paused(ts[i], e.comment)] else ts
            else if e.Resume? then if ts[i].mode == Waiting then ts[i := Continued(ts[i], e.comment)] else ts
            else ts[i := Finished(ts[i], e.at, e.comment)])
  }

  /** What the user is told. */
  function Told(w: World, e: Event): Outcome {
    if e.Capture? then if exists t :: t in w.tracks && t.start == e.start then Collision else Done
    else if forall t :: t in w.tracks && t.title == e.title ==> t.mode == Stopped then NoActiveTask
    else
      match w.tracks[FirstOpen(w.tracks, e.title)].mode
      case Running => if e.Resume? then NotPaused else Done
      case Waiting => if e.Suspend? then AlreadyPaused else Done
      case Stopped => Done
  }

  /** Pauses numbered from 1, in time order, none overlapping, all closed but possibly the last. */
  predicate WellPaused(pauses: seq<Pause>, start: int, open: bool, now: int) {
    && (open ==> pauses != [])
    && forall k :: 0 <= k < |pauses| ==>
         && pauses[k].index == k + 1
         && (pauses[k].stop.None? <==> open && k == |pauses| - 1)
         && start <= pauses[k].start <= now
         && (pauses[k].stop.Some? ==> pauses[k].start <= pauses[k].stop.value <= now)
         && (k > 0 && pauses[k - 1].stop.Some? ==> pauses[k - 1].stop.value <= pauses[k].start)
  }

  /** The activity tells what the stopwatch shows. */
  predicate Fits(a: Activity, t: Track, now: int) {
    && a.title == t.title && a.startEpoch == Some(t.start) && a.start.value == t.start
    && (a.isActive <==> t.mode != Stopped)
    && (a.isPaused <==> t.mode == Waiting)
    && a.duration == t.recorded
    && (t.live ==> t.start <= now && t.ran >= 0 && WellPaused(PausesOf(a), t.start, a.isPaused, now))
    && (!t.live ==> t.mode == Stopped && PausesOf(a) == [])
    && (t.mode == Running ==> t.ran == now - t.start - ClosedTotal(PausesOf(a)))
    && (t.mode == Waiting ==>
          t.ran == PausesOf(a)[|PausesOf(a)| - 1].start - t.start - ClosedTotal(PausesOf(a)))
    && (t.mode == Stopped && t.live ==>
          t.recorded == t.ran && t.ended.Some? && t.ran == t.ended.value - t.start - ClosedTotal(PausesOf(a)))
    && Annotated(a, t)
  }

  /** The end and the comments are those of the stopwatch. */
  predicate Annotated(a: Activity, t: Track) {
    && (if t.ended.Some? then a.end.Some? && a.end.value.value == t.ended.value else a.end.None?)
    && a.comment == t.comment
    && |PausesOf(a)| == |t.notes| && forall k :: 0 <= k < |t.notes| ==> PausesOf(a)[k].comment == t.notes[k]
  }

  predicate AllFit(staging: seq<Activity>, w: World) {
    && |staging| == |w.tracks|
    && (forall i :: 0 <= i < |staging| ==> Fits(staging[i], w.tracks[i], w.now))
    && (forall i, j :: 0 <= i < j < |staging| ==> staging[i].startEpoch != staging[j].startEpoch)
  }

  /** Clocks do not go back, and nothing live starts in the future. */
  predicate Timely(now: int, e: Event) {
    now <= e.at && (e.Capture? && e.isActive ==> e.start <= e.at)
  }

  predicate TimelyRun(now: int, run: seq<Event>) {
    forall k :: 0 <= k < |run| ==> Timely(ClockBefore(now, run, k), run[k])
  }

  function ClockBefore(now: int, run: seq<Event>, k: nat): int
    requires k <= |run|
  {
    if k == 0 then now else run[k - 1].at
  }

  function Staged(staging: seq<Activity>, run: seq<Event>): seq<Activity> {
    if run == [] then staging else Apply(Staged(staging, run[..|run| - 1]), run[|run| - 1]).staging
  }

  function Tracked(w: World, run: seq<Event>): World {
    if run == [] then w else Follow(Tracked(w, run[..|run| - 1]), run[|run| - 1])
  }

  lemma TickFits(a: Activity, t: Track, now: int, later: int)
    requires Fits(a, t, now) && now <= later
    ensures Fits(a, if t.mode == Running then t.(ran := t.ran + (later - now)) else t, later)
  {
  }

  /** Closing the open pause takes away exactly the time waited. */
  lemma CloseTotals(pauses: seq<Pause>, at: int, comment: Option<Text>)
    requires LastIsOpen(pauses)
    ensures ClosedTotal(Close(pauses, at, comment)) == ClosedTotal(pauses) + at - pauses[|pauses| - 1].start
  {
    var closed := Close(pauses, at, comment);
    assert closed[..|pauses| - 1] == pauses[..|pauses| - 1];
  }

  lemma HaltFits(a: Activity, t: Track, at: int, comment: Option<Text>)
    requires Fits(a, t, at) && t.mode == Running
    ensures Fits(Halted(a, at, comment), Paused(t, comment), at)
  {
    var pauses := PausesOf(a);
    var more := pauses + [Pause(|pauses| + 1, at, None, comment)];
    assert more[..|pauses|] == pauses;
  }

  /** The recorded duration is the plain difference: cutting it off at zero had no effect. */
  predicate Unclamped(a: Activity, at: int) {
    a.duration == at - a.start.value - ClosedTotal(PausesOf(a))
  }

  lemma ResumeFits(a: Activity, t: Track, at: int, comment: Option<Text>)
    requires Fits(a, t, at) && t.mode == Waiting
    ensures Fits(Resumed(a, at, comment), Continued(t, comment), at)
    ensures Unclamped(Resumed(a, at, comment), at)
  {
    CloseTotals(PausesOf(a), at, comment);
    hide ClosedTotal;
  }

  lemma EndFits(a: Activity, t: Track, at: int, comment: Option<Text>)
    requires Fits(a, t, at) && t.mode != Stopped
    ensures Fits(Ended(a, at, comment), Finished(t, at, comment), at)
    ensures Unclamped(Ended(a, at, comment), at)
  {
    if a.isPaused {
      CloseTotals(PausesOf(a), at, None);
    }
    hide ClosedTotal;
  }

  lemma SameFirst(staging: seq<Activity>, w: World, title: Text)
    requires AllFit(staging, w)
    ensures FirstActive(staging, title) == FirstOpen(w.tracks, title)
  {
    hide WellPaused, ClosedTotal, PausesOf;
    var i, j := FirstActive(staging, title), FirstOpen(w.tracks, title);
    assert i < |staging| ==> Fits(staging[i], w.tracks[i], w.now);
    assert j < |staging| ==> Fits(staging[j], w.tracks[j], w.now);
  }

  lemma TickAllFits(staging: seq<Activity>, w: World, later: int)
    requires AllFit(staging, w) && w.now <= later
    ensures AllFit(staging, Tick(w, later)) && Tick(w, later).now == later
  {
    hide Fits;
    forall i | 0 <= i < |staging| ensures Fits(staging[i], Tick(w, later).tracks[i], later) {
      TickFits(staging[i], w.tracks[i], w.now, later);
    }
  }

  lemma ReplaceFits(staging: seq<Activity>, w: World, i: nat, a: Activity, t: Track)
    requires AllFit(staging, w) && i < |staging| && Fits(a, t, w.now) && a.startEpoch == staging[i].startEpoch
    ensures AllFit(staging[i := a], World(w.now, w.tracks[i := t]))
  {
    hide Fits;
  }

  lemma StepFits(staging: seq<Activity>, w: World, e: Event)
    requires AllFit(staging, w) && Timely(w.now, e)
    ensures AllFit(Apply(staging, e).staging, Follow(w, e))
    ensures Apply(staging, e).outcome == Told(w, e)
  {
    StepTells(staging, w, e);
    hide Fits, AllFit, Halted, Resumed, Ended, Tick;
    var ticked := Tick(w, e.at);
    TickAllFits(staging, w, e.at);
    if e.Capture? {
      CaptureFits(staging, ticked, e);
    } else {
      SameFirst(staging, ticked, e.title);
      SameLength(staging, ticked);
      var i := FirstActive(staging, e.title);
      if i < |staging| {
        var a, t := staging[i], ticked.tracks[i];
        OneFits(staging, ticked, i);
        ModesAgree(a, t, e.at);
        StartsKept(a, e);
        if e.Suspend? && !a.isPaused {
          HaltFits(a, t, e.at, e.comment);
          ReplaceFits(staging, ticked, i, Halted(a, e.at, e.comment), Paused(t, e.comment));
        } else if e.Resume? && a.isPaused {
          ResumeFits(a, t, e.at, e.comment);
          ReplaceFits(staging, ticked, i, Resumed(a, e.at, e.comment), Continued(t, e.comment));
        } else if e.End? {
          EndFits(a, t, e.at, e.comment);
          ReplaceFits(staging, ticked, i, Ended(a, e.at, e.comment), Finished(t, e.at, e.comment));
        }
      }
    }
  }

  lemma StepTells(staging: seq<Activity>, w: World, e: Event)
    requires AllFit(staging, w)
    ensures Apply(staging, e).outcome == Told(w, e)
  {
    hide AllFit, Fits, Halted, Resumed, Ended, Captured;
    if e.Capture? {
      StartsAgree(staging, w, e.start);
    } else {
      SameFirst(staging, w, e.title);
      SameLength(staging, w);
      var i := FirstOpen(w.tracks, e.title);
      if i < |w.tracks| {
        OneFits(staging, w, i);
        ModesAgree(staging[i], w.tracks[i], w.now);
        assert w.tracks[i] in w.tracks;
      }
    }
  }

  lemma SameLength(staging: seq<Activity>, w: World)
    requires AllFit(staging, w)
    ensures |staging| == |w.tracks|
  {
  }

  lemma OneFits(staging: seq<Activity>, w: World, i: nat)
    requires AllFit(staging, w) && i < |staging|
    ensures |staging| == |w.tracks| && Fits(staging[i], w.tracks[i], w.now)
  {
  }

  lemma ModesAgree(a: Activity, t: Track, now: int)
    requires Fits(a, t, now)
    ensures a.startEpoch == Some(t.start)
    ensures (a.isActive <==> t.mode != Stopped) && (a.isPaused <==> t.mode == Waiting)
  {
  }

  lemma StartsKept(a: Activity, e: Event)
    requires !e.Capture?
    ensures Halted(a, e.at, e.comment).startEpoch == a.startEpoch
    ensures Resumed(a, e.at, e.comment).startEpoch == a.startEpoch
    ensures Ended(a, e.at, e.comment).startEpoch == a.startEpoch
  {
  }

  lemma CaptureFits(staging: seq<Activity>, w: World, e: Event)
    requires AllFit(staging, w) && e.Capture? && w.now == e.at && (e.isActive ==> e.start <= e.at)
    ensures StartTaken(staging, e.start) <==> exists t :: t in w.tracks && t.start == e.start
    ensures !StartTaken(staging, e.start) ==>
              AllFit(staging + [Captured(e.title, e.start, e.stop, e.isActive, e.comment)],
                     World(w.now, w.tracks + [Begun(e)]))
  {
    BegunFits(e);
    StartsAgree(staging, w, e.start);
    hide Fits, Captured, Begun, StartTaken, AllFit;
    if !StartTaken(staging, e.start) {
      AppendFits(staging, w, Captured(e.title, e.start, e.stop, e.isActive, e.comment), Begun(e), e.start);
    }
  }

  lemma StartsAgree(staging: seq<Activity>, w: World, start: int)
    requires AllFit(staging, w)
    ensures StartTaken(staging, start) <==> exists t :: t in w.tracks && t.start == start
  {
    hide Fits;
    forall i | 0 <= i < |staging| ensures staging[i].startEpoch == Some(w.tracks[i].start) {
      ModesAgree(staging[i], w.tracks[i], w.now);
    }
    if a :| a in staging && a.startEpoch == Some(start) {
      var i :| 0 <= i < |staging| && staging[i] == a;
      assert w.tracks[i] in w.tracks;
    }
    if t :| t in w.tracks && t.start == start {
      var i :| 0 <= i < |w.tracks| && w.tracks[i] == t;
      assert staging[i] in staging;
    }
  }

  lemma AppendFits(staging: seq<Activity>, w: World, a: Activity, t: Track, start: int)
    requires AllFit(staging, w) && Fits(a, t, w.now) && a.startEpoch == Some(start) && !StartTaken(staging, start)
    ensures AllFit(staging + [a], World(w.now, w.tracks + [t]))
  {
    hide Fits;
    forall i | 0 <= i < |staging| ensures staging[i].startEpoch != a.startEpoch {
      assert staging[i] in staging;
    }
  }

  lemma BegunFits(e: Event)
    requires e.Capture? && (e.isActive ==> e.start <= e.at)
    ensures Fits(Captured(e.title, e.start, e.stop, e.isActive, e.comment), Begun(e), e.at)
    ensures Captured(e.title, e.start, e.stop, e.isActive, e.comment).startEpoch == Some(e.start)
  {
  }

  /**
   Over every run with non-decreasing clocks the staging area keeps telling what the
   stopwatches show: start epochs stay distinct, pauses stay numbered and in order
   with at most the last one open, exactly while the activity is paused, and the
   recorded durations are the times actually spent running.
   */
  lemma {:induction false} RunsFit(staging: seq<Activity>, w: World, run: seq<Event>)
    requires AllFit(staging, w) && TimelyRun(w.now, run)
    ensures AllFit(Staged(staging, run), Tracked(w, run))
    ensures Tracked(w, run).now == ClockBefore(w.now, run, |run|)
  {
    if run != [] {
      var before, last := run[..|run| - 1], run[|run| - 1];
      TimelyInit(w.now, run);
      RunsFit(staging, w, before);
      hide AllFit, Apply, Follow, Timely, TimelyRun;
      FollowMovesTheClock(Tracked(w, before), last);
      StepFits(Staged(staging, before), Tracked(w, before), last);
    }
  }

  lemma TimelyInit(now: int, run: seq<Event>)
    requires TimelyRun(now, run) && run != []
    ensures var before, last := run[..|run| - 1], run[|run| - 1];
            && TimelyRun(now, before)
            && Timely(ClockBefore(now, before, |before|), last)
  {
    hide Timely;
    var before := run[..|run| - 1];
    forall k | 0 <= k < |before| ensures Timely(ClockBefore(now, before, k), before[k]) {
      assert Timely(ClockBefore(now, run, k), run[k]);
    }
    assert Timely(ClockBefore(now, run, |before|), run[|before|]);
  }

  lemma FollowMovesTheClock(w: World, e: Event)
    ensures Follow(w, e).now == e.at
  {
  }

  /** From the empty area: every live activity that is over records the time it ran. */
  lemma FinishedActivitiesRecordTheirRunningTime(now: int, run: seq<Event>, i: nat)
    requires TimelyRun(now, run)
    ensures var s, w := Staged([], run), Tracked(World(now, []), run);
            && |s| == |w.tracks|
            && (i < |s| && w.tracks[i].live && !s[i].isActive ==>
                  && s[i].duration == w.tracks[i].ran >= 0
                  && s[i].end.Some? && s[i].startEpoch.Some?
                  && s[i].duration == s[i].end.value.value - s[i].startEpoch.value - ClosedTotal(PausesOf(s[i])))
  {
    RunsFit([], World(now, []), run);
  }

  // ----- Nothing in the clear -----------------------------------------------

  predicate Sealed(a: Activity) {
    a.start.Encrypted? && (a.end.Some? ==> a.end.value.Encrypted?) && a.pauses.Some? && a.pauses.value.Encrypted?
  }

  predicate AllSealed(staging: seq<Activity>) {
    forall a :: a in staging ==> Sealed(a)
  }

  lemma CapturedIsSealed(e: Event)
    requires e.Capture?
    ensures Sealed(Captured(e.title, e.start, e.stop, e.isActive, e.comment))
  {
  }

  lemma TouchedIsSealed(a: Activity, at: int, comment: Option<Text>)
    requires a.start.Encrypted? && (a.end.Some? ==> a.end.value.Encrypted?)
    ensures Sealed(Halted(a, at, comment)) && Sealed(Resumed(a, at, comment))
    ensures a.pauses.Some? ==> Sealed(Ended(a, at, comment))
  {
  }

  lemma StepStoresNothingInTheClear(staging: seq<Activity>, e: Event)
    requires AllSealed(staging)
    ensures AllSealed(Apply(staging, e).staging)
  {
    hide Captured, Halted, Resumed, Ended, Matches;
    if e.Capture? {
      CapturedIsSealed(e);
    } else {
      var i := FirstActive(staging, e.title);
      if i < |staging| {
        assert staging[i] in staging;
        TouchedIsSealed(staging[i], e.at, e.comment);
      }
    }
    hide Sealed, FirstActive;
  }

  /** What the operations store of times and pauses is encrypted; pauses kept in the clear are
      encrypted by the first operation that reads them. */
  lemma {:induction false} RunsStoreNothingInTheClear(staging: seq<Activity>, run: seq<Event>)
    requires AllSealed(staging)
    ensures AllSealed(Staged(staging, run))
  {
    if run != [] {
      RunsStoreNothingInTheClear(staging, run[..|run| - 1]);
      StepStoresNothingInTheClear(Staged(staging, run[..|run| - 1]), run[|run| - 1]);
      hide AllSealed, Apply;
    }
  }
}
