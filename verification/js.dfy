/** The few JavaScript built-ins the page's computations rely on, over exact
    reals and strings of characters. */
module Js {

  /** The clamping of `slice`'s bounds to the string's length. */
  function Min(a: int, b: int): int {
    if a < b then a else b
  }

  /** `Math.floor`: the greatest integer not above `x`. */
  function MathFloor(x: real): (r: int)
    ensures r as real <= x < r as real + 1.0
  {
    x.Floor
  }

  /** `Math.round`: the nearest integer, a half rounding towards +infinity. */
  function MathRound(x: real): (r: int)
    ensures x - 0.5 < r as real <= x + 0.5
  {
    (x + 0.5).Floor
  }

  /** The rounding interval pins the result down: `Math.round` is the only
      integer in (x - 1/2, x + 1/2], so a tie goes up. */
  lemma MathRoundUnique(x: real, n: int)
    ensures MathRound(x) == n <==> x - 0.5 < n as real <= x + 0.5
  {
  }

  lemma MathRoundHalfUp(n: int)
    ensures MathRound(n as real + 0.5) == n + 1
    ensures MathRound(n as real - 0.5) == n
  {
  }

  /** Shifting by a whole unit shifts the rounded value by one. */
  lemma MathRoundShift(x: real)
    ensures MathRound(x + 1.0) == MathRound(x) + 1
  {
    MathRoundUnique(x + 1.0, MathRound(x) + 1);
  }

  lemma MathFloorMonotonic(x: real, y: real)
    requires x <= y
    ensures MathFloor(x) <= MathFloor(y)
  {
  }

  lemma MathRoundMonotonic(x: real, y: real)
    requires x <= y
    ensures MathRound(x) <= MathRound(y)
  {
    MathFloorMonotonic(x + 0.5, y + 0.5);
  }

  /** `String.prototype.slice(from, to)` for non-negative arguments: each is
      clamped to the length, and `from >= to` gives the empty string. */
  function Slice(s: string, from: nat, to: nat): (r: string)
    ensures from <= to <= |s| ==> r == s[from..to]
    ensures |r| == (if from < to && from < |s| then Min(to, |s|) - from else 0)
    ensures forall i :: 0 <= i < |r| ==> r[i] == s[from + i]
  {
    var a := Min(from, |s|);
    var b := Min(to, |s|);
    if a < b then s[a..b] else ""
  }

  /** `String.prototype.charAt(i)`: the one-character string at `i`, or the
      empty string past the end. */
  function CharAt(s: string, i: nat): (r: string)
    ensures i < |s| ==> r == [s[i]]
    ensures |s| <= i ==> r == ""
  {
    Slice(s, i, i + 1)
  }

  predicate IsLowerAscii(c: char) {
    'a' <= c <= 'z'
  }

  /** ASCII upper-casing of one character; every other character maps to
      itself. */
  function UpperAscii(c: char): (u: char)
    ensures !IsLowerAscii(u)
    ensures IsLowerAscii(c) ==> u as int == c as int - 32
    ensures !IsLowerAscii(c) ==> u == c
  {
    if IsLowerAscii(c) then (c as int - 32) as char else c
  }

  /** `String.prototype.toUpperCase`, restricted to ASCII letters. */
  function ToUpperCase(s: string): (r: string)
    ensures |r| == |s|
    ensures forall i :: 0 <= i < |s| ==> r[i] == UpperAscii(s[i])
  {
    seq(|s|, i requires 0 <= i < |s| => UpperAscii(s[i]))
  }
}
