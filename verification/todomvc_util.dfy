/**
  The to-do application's helpers (examples/todomvc/src/util.js):
  `pluralize` and `uuid`. `uuid` draws 32 random values `Math.random() * 16 | 0`;
  they are its input here, as the 32 nibbles in drawing order.
 */
module TodoUtil {
  import opened JsObject

  /** `pluralize(value, singular, plural = singular + "s")`; `None` is an omitted `plural`. */
  function Pluralize(value: int, singular: string, plural: Option<string>): string
  {
    if value == 1 then singular
    else match plural
      case Some(p) => p
      case None => singular + "s"
  }

  /**
    With the default plural, the singular is chosen exactly for the value 1;
    every other value gets the singular followed by "s".
   */
  lemma PluralizeDefault(value: int, singular: string)
    ensures Pluralize(value, singular, None) == singular <==> value == 1
    ensures value != 1 ==> Pluralize(value, singular, None) == singular + "s"
  {
    if value != 1 { assert |singular + "s"| != |singular|; }
  }

  /** `n.toString(16)` for a nibble: one lower-case hexadecimal digit. */
  function HexDigit(n: nat): (c: char)
    requires n < 16
    ensures ('0' <= c <= '9') || ('a' <= c <= 'f')
  {
    "0123456789abcdef"[n]
  }

  predicate Nibbles(random: seq<int>)
  {
    |random| == 32 && forall i :: 0 <= i < 32 ==> 0 <= random[i] < 16
  }

  /** The value written on turn `i`: 4 on turn 12, `random & 3 | 8` on turn 16, else `random`. */
  function Written(i: nat, random: int): nat
    requires 0 <= random < 16
  {
    if i == 12 then 4 else if i == 16 then random % 4 + 8 else random
  }

  predicate DashBefore(i: nat)
  {
    i == 8 || i == 12 || i == 16 || i == 20
  }

  /** The string after `i` turns of the loop. */
  function UuidAfter(random: seq<int>, i: nat): string
    requires Nibbles(random) && i <= 32
  {
    if i == 0 then ""
    else UuidAfter(random, i - 1) + (if DashBefore(i - 1) then "-" else "") + [HexDigit(Written(i - 1, random[i - 1]))]
  }

  /** `uuid()` */
  method Uuid(random: seq<int>) returns (uuid: string)
    requires Nibbles(random)
    ensures uuid == UuidAfter(random, 32)
  {
    uuid := "";
    for i := 0 to 32
      invariant uuid == UuidAfter(random, i)
    {
      var r := random[i];
      if i == 8 || i == 12 || i == 16 || i == 20 {
        uuid := uuid + "-";
      }
      uuid := uuid + [HexDigit(if i == 12 then 4 else if i == 16 then r % 4 + 8 else r)];
    }
  }

  /** How many dashes the first `i` turns write. */
  function Dashes(i: nat): nat
  {
    if i <= 8 then 0 else if i <= 12 then 1 else if i <= 16 then 2 else if i <= 20 then 3 else 4
  }

  /** The turn whose digit lands at position `p` of the finished string. */
  function TurnAt(p: nat): nat
  {
    if p < 8 then p else if p < 13 then p - 1 else if p < 18 then p - 2 else if p < 23 then p - 3 else p - 4
  }

  predicate DashPosition(p: nat)
  {
    p == 8 || p == 13 || p == 18 || p == 23
  }

  /** The layout of a version 4 identifier: position `p` holds a dash or the digit of turn `TurnAt(p)`. */
  function Layout(random: seq<int>, p: nat): char
    requires Nibbles(random) && p < 36
  {
    if DashPosition(p) then '-' else HexDigit(Written(TurnAt(p), random[TurnAt(p)]))
  }

  /** Turn `i - 1` writes its digit at position `i - 1 + Dashes(i)`, just after its dash if it has one. */
  lemma LastPosition(i: nat)
    requires 0 < i <= 32
    ensures Dashes(i) == Dashes(i - 1) + (if DashBefore(i - 1) then 1 else 0)
    ensures TurnAt(i - 1 + Dashes(i)) == i - 1 && !DashPosition(i - 1 + Dashes(i))
    ensures DashBefore(i - 1) ==> DashPosition(i - 2 + Dashes(i))
  {
  }

  lemma LayoutStep(random: seq<int>, i: nat)
    requires Nibbles(random) && 0 < i <= 32
    requires |UuidAfter(random, i - 1)| == i - 1 + Dashes(i - 1)
    requires forall p :: 0 <= p < |UuidAfter(random, i - 1)| ==> UuidAfter(random, i - 1)[p] == Layout(random, p)
    ensures |UuidAfter(random, i)| == i + Dashes(i)
    ensures forall p :: 0 <= p < |UuidAfter(random, i)| ==> UuidAfter(random, i)[p] == Layout(random, p)
  {
    LastPosition(i);
    var prev := UuidAfter(random, i - 1);
    var dash: string := if DashBefore(i - 1) then "-" else "";
    var digit := HexDigit(Written(i - 1, random[i - 1]));
    var u := UuidAfter(random, i);
    assert u == prev + dash + [digit];
    forall p | 0 <= p < |u|
      ensures u[p] == Layout(random, p)
    {
      if p < |prev| {
        assert u[p] == prev[p];
      } else if p == |u| - 1 {
        assert u[p] == digit;
      } else {
        assert u[p] == '-';
      }
    }
  }

  lemma {:induction false} UuidAfterLayout(random: seq<int>, i: nat)
    requires Nibbles(random) && i <= 32
    ensures |UuidAfter(random, i)| == i + Dashes(i)
    ensures forall p :: 0 <= p < |UuidAfter(random, i)| ==> UuidAfter(random, i)[p] == Layout(random, p)
  {
    if i > 0 {
      UuidAfterLayout(random, i - 1);
      LayoutStep(random, i);
    }
  }

  /**
    The identifier has 36 characters with dashes at 8, 13, 18 and 23, the
    version digit '4' at 14, one of '8', '9', 'a', 'b' at 19, and at every
    other position the hexadecimal digit of the random value drawn for it.
   */
  lemma UuidFormat(random: seq<int>)
    requires Nibbles(random)
    ensures var u := UuidAfter(random, 32);
      && |u| == 36
      && u[8] == '-' && u[13] == '-' && u[18] == '-' && u[23] == '-'
      && u[14] == '4'
      && u[19] in "89ab"
      && forall p :: 0 <= p < 36 && !DashPosition(p) && p != 14 && p != 19 ==> u[p] == HexDigit(random[TurnAt(p)])
  {
    UuidAfterLayout(random, 32);
    var u := UuidAfter(random, 32);
    assert u[14] == Layout(random, 14);
    assert u[19] == Layout(random, 19);
    assert forall p :: 0 <= p < 36 ==> u[p] == Layout(random, p);
  }
}
