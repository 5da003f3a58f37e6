/**
 Lists picked out of other lists, told by the places they were picked from.
 */
module Picking {

  /** `picked` holds what stands at the places `at` of `xs`, in that order. */
  ghost predicate StandAt<T>(xs: seq<T>, at: seq<nat>, picked: seq<T>) {
    && |picked| == |at|
    && forall k :: 0 <= k < |at| ==> at[k] < |xs| && picked[k] == xs[at[k]]
  }

  predicate Rising(at: seq<nat>) {
    forall j, k :: 0 <= j < k < |at| ==> at[j] < at[k]
  }

  /** `picked` is what stands at the wanted places of `xs`, in the order of `xs`. */
  ghost predicate PickedFrom<T>(xs: seq<T>, wanted: set<nat>, picked: seq<T>) {
    exists at: seq<nat> :: Rising(at) && (forall i: nat :: i in at <==> i in wanted) && StandAt(xs, at, picked)
  }

  lemma PickedNone<T>(xs: seq<T>)
    ensures PickedFrom(xs, {}, [])
  {
    assert Rising([]) && StandAt(xs, [], []);
  }

  /** One more element that is not wanted. */
  lemma PickedSkip<T>(xs: seq<T>, x: T, wanted: set<nat>, picked: seq<T>)
    requires PickedFrom(xs, wanted, picked)
    ensures PickedFrom(xs + [x], wanted, picked)
  {
    var at: seq<nat> :| Rising(at) && (forall i: nat :: i in at <==> i in wanted) && StandAt(xs, at, picked);
    assert StandAt(xs + [x], at, picked);
  }

  /** One more element that is. */
  lemma PickedNext<T>(xs: seq<T>, x: T, wanted: set<nat>, picked: seq<T>)
    requires PickedFrom(xs, wanted, picked)
    ensures PickedFrom(xs + [x], wanted + {|xs|}, picked + [x])
  {
    var at: seq<nat> :| Rising(at) && (forall i: nat :: i in at <==> i in wanted) && StandAt(xs, at, picked);
    var more: seq<nat> := at + [|xs|];
    assert StandAt(xs + [x], more, picked + [x]);
    assert Rising(more);
    hide StandAt, Rising;
    assert forall i: nat :: i in more <==> i in at || i == |xs|;
  }

  /** What is picked is determined by the wanted places. */
  lemma {:induction false} RisingIsUnique(a: seq<nat>, b: seq<nat>)
    requires Rising(a) && Rising(b) && forall i: nat :: i in a <==> i in b
    ensures a == b
  {
    assert a != [] ==> a[0] in a;
    assert b != [] ==> b[0] in b;
    if a != [] {
      assert a[0] == b[0] by {
        assert forall i: nat :: i in b ==> b[0] <= i;
        assert forall i: nat :: i in a ==> a[0] <= i;
      }
      TailHas(a);
      TailHas(b);
      RisingIsUnique(a[1..], b[1..]);
      assert a == [a[0]] + a[1..] && b == [b[0]] + b[1..];
    }
  }

  lemma TailHas(a: seq<nat>)
    requires Rising(a) && a != []
    ensures Rising(a[1..]) && forall i: nat :: i in a[1..] <==> i in a && i != a[0]
  {
    assert a == [a[0]] + a[1..];
  }

  lemma PickedIsUnique<T>(xs: seq<T>, wanted: set<nat>, a: seq<T>, b: seq<T>)
    requires PickedFrom(xs, wanted, a) && PickedFrom(xs, wanted, b)
    ensures a == b
  {
    var i: seq<nat> :| Rising(i) && (forall k: nat :: k in i <==> k in wanted) && StandAt(xs, i, a);
    var j: seq<nat> :| Rising(j) && (forall k: nat :: k in j <==> k in wanted) && StandAt(xs, j, b);
    RisingIsUnique(i, j);
  }
}
