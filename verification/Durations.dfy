/**
 Durations as the command line shows them and reads them back.
 */
module Durations {
  import opened Json

  // ----- Decimal numbers ----------------------------------------------------

  type Ten = t: Text | |t| == 10 witness "0123456789"

  const DECIMALS: Ten := "0123456789"

  predicate IsDigit(c: char) {
    '0' <= c <= '9'
  }

  predicate AllDigits(t: Text) {
    forall i :: 0 <= i < |t| ==> IsDigit(t[i])
  }

  function Shown(n: nat): (t: Text)
    ensures t != ""
  {
    (if n < 10 then "" else Shown(n / 10)) + [DECIMALS[n % 10]]
  }

  /** `f"{n:02d}"` of a natural number. */
  function Padded(n: nat): (t: Text)
    ensures t != ""
  {
    if n < 10 then "0" + Shown(n) else Shown(n)
  }

  /** `int(text)` of ASCII digits. */
  function NumberOf(t: Text): nat
    requires AllDigits(t)
  {
    if t == "" then 0 else 10 * NumberOf(t[..|t| - 1]) + (t[|t| - 1] as int - '0' as int)
  }

  lemma DecimalIs(n: nat)
    requires n < 10
    ensures IsDigit(DECIMALS[n]) && DECIMALS[n] as int - '0' as int == n
  {
    if {
      case n == 0 => case n == 1 => case n == 2 => case n == 3 => case n == 4 =>
      case n == 5 => case n == 6 => case n == 7 => case n == 8 => case n == 9 =>
    }
  }

  lemma {:induction false} ShownReadsBack(n: nat)
    ensures AllDigits(Shown(n)) && NumberOf(Shown(n)) == n
  {
    hide DECIMALS;
    DecimalIs(n % 10);
    var t := Shown(n);
    assert t[..|t| - 1] == if n < 10 then "" else Shown(n / 10);
    if n >= 10 {
      ShownReadsBack(n / 10);
    }
  }

  lemma {:induction false} PaddedReadsBack(n: nat)
    ensures AllDigits(Padded(n)) && NumberOf(Padded(n)) == n
  {
    ShownReadsBack(n);
    if n < 10 {
      var t := Padded(n);
      assert t[..1] == "0" && t[..0] == "";
      assert NumberOf("0") == 0 by { assert "0"[..0] == ""; }
    }
  }

  // ----- Showing ------------------------------------------------------------

  /** Python's floor division by a positive number, and its remainder. */
  function FloorDiv(a: int, b: int): int
    requires b > 0
  {
    a / b
  }

  /** `f"{n:02d}"`: the sign counts towards the width. */
  function Field(n: int): Text {
    if n >= 0 then Padded(n) else "-" + Shown(-n)
  }

  /** `_fmt`. */
  function Fmt(ms: int): Text {
    var total := FloorDiv(ms, 1000);
    Field(FloorDiv(total, 3600)) + "h" + Field(FloorDiv(total % 3600, 60)) + "m" + Field(total % 60) + "s"
  }

  // ----- Reading ------------------------------------------------------------

  /** How many digits a text begins with. */
  function Run(t: Text): (n: nat)
    ensures n <= |t| && AllDigits(t[..n])
  {
    if t == "" || !IsDigit(t[0]) then 0
    else
      var n := Run(t[1..]);
      assert t[..n + 1] == [t[0]] + t[1..][..n];
      n + 1
  }

  /** `re.search(r"(\d+)u", t)`: the number in the leftmost run of digits that u follows. */
  function Search(t: Text, u: char): Option<nat>
    requires !IsDigit(u)
    decreases |t|
  {
    if t == "" then None
    else
      var n := Run(t);
      if n > 0 && n < |t| && t[n] == u then Some(NumberOf(t[..n])) else Search(t[1..], u)
  }

  function OrZero(n: Option<nat>): nat {
    if n.Some? then n.value else 0
  }

  /** A text with a sign in front moves the end; the others the model reads are durations. */
  predicate Signed(t: Text) {
    t != "" && (t[0] == '+' || t[0] == '-')
  }

  function Unsigned(t: Text): Text {
    if Signed(t) then Unsigned(t[1..]) else t
  }

  /** The milliseconds of an offset: minutes unless a unit is given; None when `int` raises. */
  function Offset(t: Text): Option<int> {
    if t == "" then None
    else
      var u := t[|t| - 1];
      var digits := if u in {'m', 'h', 's'} then t[..|t| - 1] else t;
      if digits == "" || !AllDigits(digits) then None
      else Some(NumberOf(digits) * if u == 'h' then 3600000 else if u == 's' then 1000 else 60000)
  }

  /** The offset and duration branches; None also for what is left to the clock-time branch. */
  method ParseEnd(input: Text, start: int, end: int) returns (r: Option<int>)
    ensures r == Parsed(input, start, end)
  {
    if Signed(input) {
      var offset := Offset(Unsigned(input));
      if offset.None? {
        return None;
      }
      return Some(if input[0] == '-' then end - offset.value else end + offset.value);
    }
    var hm, mm, sm := Search(input, 'h'), Search(input, 'm'), Search(input, 's');
    if hm.None? && mm.None? && sm.None? {
      return None;
    }
    var h, m, s := 0, 0, 0;
    if hm.Some? {
      h := hm.value;
    }
    if mm.Some? {
      m := mm.value;
    }
    if sm.Some? {
      s := sm.value;
    }
    r := Some(start + (h * 3600 + m * 60 + s) * 1000);
  }

  function Parsed(input: Text, start: int, end: int): Option<int> {
    if Signed(input) then
      var offset :- Offset(Unsigned(input));
      Some(if input[0] == '-' then end - offset else end + offset)
    else
      var h, m, s := Search(input, 'h'), Search(input, 'm'), Search(input, 's');
      if h.None? && m.None? && s.None? then None
      else Some(start + (OrZero(h) * 3600 + OrZero(m) * 60 + OrZero(s)) * 1000)
  }

  lemma {:induction false} RunStops(d: Text, u: char, rest: Text)
    requires AllDigits(d) && !IsDigit(u)
    ensures Run(d + [u] + rest) == |d|
  {
    var t := d + [u] + rest;
    if d != "" {
      RunStops(d[1..], u, rest);
      assert t[1..] == d[1..] + [u] + rest;
    }
  }

  lemma SearchFinds(d: Text, u: char, rest: Text)
    requires AllDigits(d) && d != "" && !IsDigit(u)
    ensures Search(d + [u] + rest, u) == Some(NumberOf(d))
  {
    RunStops(d, u, rest);
    assert (d + [u] + rest)[..|d|] == d;
  }

  /** A run that another letter follows is passed over. */
  lemma {:induction false} SearchPasses(d: Text, other: char, u: char, rest: Text)
    requires AllDigits(d) && !IsDigit(u) && !IsDigit(other) && other != u
    ensures Search(d + [other] + rest, u) == Search(rest, u)
  {
    var t := d + [other] + rest;
    RunStops(d, other, rest);
    if d == "" {
      assert t[1..] == rest;
    } else {
      assert t[1..] == d[1..] + [other] + rest;
      SearchPasses(d[1..], other, u, rest);
    }
  }

  lemma {:induction false} UnsignedKeepsDigits(t: Text)
    requires t != "" && IsDigit(t[0])
    ensures Unsigned(t) == t
  {
  }

  lemma FmtIs(ms: int)
    ensures var total := FloorDiv(ms, 1000);
            && ms == total * 1000 + ms % 1000
            && total == FloorDiv(total, 3600) * 3600 + FloorDiv(total % 3600, 60) * 60 + total % 60
            && (ms < 0 <==> FloorDiv(total, 3600) < 0)
            && FloorDiv(total % 3600, 60) >= 0
  {
    var total := ms / 1000;
    assert total % 60 == total % 3600 % 60;
  }

  function Three(h: Text, m: Text, s: Text): Text {
    h + ['h'] + (m + ['m'] + (s + ['s'] + ""))
  }

  lemma EachIsFound(h: Text, m: Text, s: Text)
    requires AllDigits(h) && AllDigits(m) && AllDigits(s) && h != "" && m != "" && s != ""
    ensures var t := Three(h, m, s);
            && Search(t, 'h') == Some(NumberOf(h))
            && Search(t, 'm') == Some(NumberOf(m))
            && Search(t, 's') == Some(NumberOf(s))
  {
    hide Search, NumberOf, AllDigits;
    var second := s + ['s'] + "";
    var first := m + ['m'] + second;
    SearchFinds(h, 'h', first);
    SearchPasses(h, 'h', 'm', first);
    SearchPasses(h, 'h', 's', first);
    SearchFinds(m, 'm', second);
    SearchPasses(m, 'm', 's', second);
    SearchFinds(s, 's', "");
  }

  /** The sign makes it an offset, and the other units are not digits. */
  lemma NegativeIsNotRead(h: Text, m: Text, s: Text)
    requires h != "" && AllDigits(h)
    ensures Offset(Unsigned("-" + Three(h, m, s))) == None
  {
    var t := Three(h, m, s);
    assert t[0] == h[0] && t[|h|] == 'h' && t[|t| - 1] == 's';
    UnsignedKeepsDigits(t);
    assert ("-" + t)[1..] == t;
    assert !AllDigits(t[..|t| - 1]) by {
      assert t[..|t| - 1][|h|] == 'h';
    }
  }

  lemma PositiveIsRead(h: nat, m: nat, s: nat, start: int, end: int)
    ensures Parsed(Three(Padded(h), Padded(m), Padded(s)), start, end) == Some(start + (h * 3600 + m * 60 + s) * 1000)
  {
    var t := Three(Padded(h), Padded(m), Padded(s));
    PaddedReadsBack(h);
    PaddedReadsBack(m);
    PaddedReadsBack(s);
    assert t[0] == Padded(h)[0];
    hide Padded, Search, NumberOf;
    EachIsFound(Padded(h), Padded(m), Padded(s));
    hide Three;
  }

  /**
   The round trip. A shown duration that is not negative reads back as the end that
   many whole seconds after the start; a negative one is not read at all.
   */
  lemma ShownDurationReadsBack(ms: int, start: int, end: int)
    ensures Parsed(Fmt(ms), start, end) == if ms >= 0 then Some(start + ms - ms % 1000) else None
  {
    hide Padded, Shown, NumberOf, Search, Three, FloorDiv, Field, Offset, Unsigned;
    var total := FloorDiv(ms, 1000);
    var h, m, s := FloorDiv(total, 3600), FloorDiv(total % 3600, 60), total % 60;
    FmtIs(ms);
    FmtParts(h, m, s);
    if ms >= 0 {
      PositiveIsRead(h, m, s, start, end);
    } else {
      ShownReadsBack(-h);
      NegativeIsNotRead(Shown(-h), Padded(m), Padded(s));
    }
  }

  /** An offset moves the end by so many hours, minutes or seconds, minutes if no unit is given. */
  lemma OffsetsMoveTheEnd(n: nat, start: int, end: int)
    ensures Parsed("+" + Shown(n) + "h", start, end) == Some(end + n * 3600000)
    ensures Parsed("-" + Shown(n) + "h", start, end) == Some(end - n * 3600000)
    ensures Parsed("+" + Shown(n) + "m", start, end) == Parsed("+" + Shown(n), start, end) == Some(end + n * 60000)
    ensures Parsed("-" + Shown(n) + "m", start, end) == Parsed("-" + Shown(n), start, end) == Some(end - n * 60000)
    ensures Parsed("+" + Shown(n) + "s", start, end) == Some(end + n * 1000)
    ensures Parsed("-" + Shown(n) + "s", start, end) == Some(end - n * 1000)
  {
    ShownReadsBack(n);
    var d := Shown(n);
    hide Shown, NumberOf, Parsed;
    forall u | u in {"", "h", "m", "s"}
      ensures Parsed("+" + d + u, start, end) == Some(end + n * UnitOf(u))
      ensures Parsed("-" + d + u, start, end) == Some(end - n * UnitOf(u))
    {
      OneOffset('+', d, u, start, end);
      OneOffset('-', d, u, start, end);
    }
    assert "+" + d + "" == "+" + d && "-" + d + "" == "-" + d;
    assert Parsed("+" + d + "", start, end) == Some(end + n * 60000) && Parsed("-" + d + "", start, end) == Some(end - n * 60000);
  }

  function UnitOf(u: Text): int {
    if u == "h" then 3600000 else if u == "s" then 1000 else 60000
  }

  lemma OneOffset(sign: char, d: Text, u: Text, start: int, end: int)
    requires sign == '+' || sign == '-'
    requires d != "" && AllDigits(d) && u in {"", "h", "m", "s"}
    ensures Parsed([sign] + d + u, start, end)
         == Some(if sign == '+' then end + NumberOf(d) * UnitOf(u) else end - NumberOf(d) * UnitOf(u))
  {
    hide NumberOf, Search;
    var t := d + u;
    assert ([sign] + d + u)[1..] == t;
    assert t[0] == d[0];
    UnsignedKeepsDigits(t);
    if u == "" {
      assert t == d;
    } else {
      assert t[..|t| - 1] == d && t[|t| - 1] == u[0];
    }
  }

  lemma FmtParts(h: int, m: nat, s: nat)
    ensures Field(h) + "h" + Field(m) + "m" + Field(s) + "s"
         == if h >= 0 then Three(Padded(h), Padded(m), Padded(s)) else "-" + Three(Shown(-h), Padded(m), Padded(s))
  {
    hide Padded, Shown;
  }
}
