/**
 The order of Python strings, and sorting by it.
 */
module TextOrder {
  import opened Json

  /** Python's `<` on strings: lexicographic by character. */
  predicate TextLess(a: Text, b: Text) {
    b != [] && (a == [] || a[0] < b[0] || (a[0] == b[0] && TextLess(a[1..], b[1..])))
  }

  predicate Ascending(texts: seq<Text>) {
    forall i, j :: 0 <= i < j < |texts| ==> TextLess(texts[i], texts[j])
  }

  predicate NoRepeats(texts: seq<Text>) {
    forall i, j :: 0 <= i < j < |texts| ==> texts[i] != texts[j]
  }

  /** One text is less than another exactly when it stops first, or has the smaller
      character at the first place where they differ. */
  lemma {:induction false} TextLessIs(a: Text, b: Text)
    ensures TextLess(a, b) <==> exists k :: DiffersFirst(a, b, k)
  {
    if a != [] && b != [] && a[0] == b[0] {
      TextLessIs(a[1..], b[1..]);
      if k :| DiffersFirst(a[1..], b[1..], k) {
        assert a[..k + 1] == [a[0]] + a[1..][..k] && b[..k + 1] == [b[0]] + b[1..][..k];
        assert DiffersFirst(a, b, k + 1);
      }
      if k :| DiffersFirst(a, b, k) {
        assert k > 0 && a[1..][..k - 1] == a[..k][1..] && b[1..][..k - 1] == b[..k][1..];
        assert DiffersFirst(a[1..], b[1..], k - 1);
      }
    } else if b != [] && (a == [] || a[0] < b[0]) {
      assert DiffersFirst(a, b, 0);
    }
  }

  ghost predicate DiffersFirst(a: Text, b: Text, k: int) {
    0 <= k <= |a| && k < |b| && a[..k] == b[..k] && (k < |a| ==> a[k] < b[k])
  }

  lemma {:induction false} TextLessIrreflexive(t: Text)
    ensures !TextLess(t, t)
  {
    if t != [] {
      TextLessIrreflexive(t[1..]);
    }
  }

  lemma {:induction false} TextLessAsymmetric(a: Text, b: Text)
    ensures !(TextLess(a, b) && TextLess(b, a))
  {
    if a != [] && b != [] && a[0] == b[0] {
      TextLessAsymmetric(a[1..], b[1..]);
    }
  }

  lemma {:induction false} TextLessTotal(a: Text, b: Text)
    ensures TextLess(a, b) || a == b || TextLess(b, a)
  {
    if a != [] && b != [] && a[0] == b[0] {
      TextLessTotal(a[1..], b[1..]);
      assert a == [a[0]] + a[1..] && b == [b[0]] + b[1..];
    }
  }

  lemma {:induction false} TextLessTransitive(a: Text, b: Text, c: Text)
    requires TextLess(a, b) && TextLess(b, c)
    ensures TextLess(a, c)
  {
    if a != [] && a[0] == b[0] == c[0] {
      TextLessTransitive(a[1..], b[1..], c[1..]);
    }
  }

  /** A set of texts has only one ascending listing. */
  lemma {:induction false} AscendingIsUnique(a: seq<Text>, b: seq<Text>)
    requires Ascending(a) && Ascending(b) && forall d :: d in a <==> d in b
    ensures a == b
    decreases |a|
  {
    if a == [] {
      assert forall k :: 0 <= k < |b| ==> b[k] in a;
    } else {
      assert a[0] in b;
      var x, y := a[|a| - 1], b[|b| - 1];
      LastIsGreatest(a, y);
      LastIsGreatest(b, x);
      TextLessAsymmetric(x, y);
      var a', b' := a[..|a| - 1], b[..|b| - 1];
      forall d ensures d in a' <==> d in b' {
        MemberOfInit(a, d);
        MemberOfInit(b, d);
      }
      AscendingIsUnique(a', b');
      assert a == a' + [x] && b == b' + [y];
    }
  }

  lemma LastIsGreatest(a: seq<Text>, y: Text)
    requires a != [] && Ascending(a) && y in a
    ensures y == a[|a| - 1] || TextLess(y, a[|a| - 1])
  {
  }

  lemma MemberOfInit(a: seq<Text>, d: Text)
    requires a != [] && Ascending(a)
    ensures d in a[..|a| - 1] <==> d in a && d != a[|a| - 1]
  {
    TextLessIrreflexive(d);
    if d in a[..|a| - 1] {
      var i :| 0 <= i < |a| - 1 && a[i] == d;
    }
  }

  method SortTexts(keys: set<Text>) returns (texts: seq<Text>)
    ensures Ascending(texts) && forall d :: d in texts <==> d in keys
  {
    texts := [];
    var left := keys;
    while left != {}
      invariant Ascending(texts) && left <= keys
      invariant forall d :: d in texts <==> d in keys && d !in left
    {
      var d :| d in left;
      left := left - {d};
      texts := Insert(texts, d);
    }
  }

  method Insert(texts: seq<Text>, d: Text) returns (longer: seq<Text>)
    requires Ascending(texts) && d !in texts
    ensures Ascending(longer) && forall x :: x in longer <==> x in texts || x == d
  {
    var i := 0;
    while i < |texts| && TextLess(texts[i], d)
      invariant i <= |texts|
      invariant i > 0 ==> TextLess(texts[i - 1], d)
    {
      i := i + 1;
    }
    longer := texts[..i] + [d] + texts[i..];
    if i < |texts| {
      TextLessTotal(texts[i], d);
      assert texts[i] in texts;
    }
    InsertKeepsOrder(texts, d, i);
    assert texts == texts[..i] + texts[i..];
  }

  lemma InsertKeepsOrder(texts: seq<Text>, d: Text, i: nat)
    requires Ascending(texts) && i <= |texts|
    requires (i > 0 ==> TextLess(texts[i - 1], d)) && (i < |texts| ==> TextLess(d, texts[i]))
    ensures Ascending(texts[..i] + [d] + texts[i..])
  {
    var longer := texts[..i] + [d] + texts[i..];
    forall j, k | 0 <= j < k < |longer| ensures TextLess(longer[j], longer[k]) {
      if k == i && j < i - 1 {
        TextLessTransitive(texts[j], texts[i - 1], d);
      } else if j == i && k > i + 1 {
        TextLessTransitive(d, texts[i], texts[k - 1]);
      }
    }
  }
}
