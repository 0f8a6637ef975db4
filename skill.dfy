/** The scoring model's deterministic part: a 32-bit string hash of the
    player's id and the tier-dependent base skill derived from it. */
module Skill {
  import opened Base

  const TwoTo31: int := 0x8000_0000
  const TwoTo32: int := 0x1_0000_0000

  /** A value of JavaScript's signed 32-bit integer range. */
  predicate IsInt32(x: int) {
    -TwoTo31 <= x < TwoTo31
  }

  /** ECMAScript ToInt32: reduce modulo 2^32 into the signed range. */
  function ToInt32(x: int): (r: int)
    ensures IsInt32(r)
    ensures IsInt32(x) ==> r == x
    ensures (x - r) % TwoTo32 == 0
  {
    var m := x % TwoTo32;
    assert x == (x / TwoTo32) * TwoTo32 + m;
    assert x - m == (x / TwoTo32) * TwoTo32;
    assert x - (m - TwoTo32) == (x / TwoTo32 + 1) * TwoTo32;
    if m >= TwoTo31 then m - TwoTo32 else m
  }

  /** The UTF-16 code units of one character: what `charCodeAt` reads. */
  function CodeUnits(c: char): (units: seq<int>)
    ensures 1 <= |units| <= 2
    ensures forall k :: 0 <= k < |units| ==> 0 <= units[k] < 0x1_0000
    ensures (c as int) < 0x1_0000 ==> units == [c as int]
  {
    var v := c as int;
    if v < 0x1_0000 then [v]
    else [0xD800 + (v - 0x1_0000) / 0x400, 0xDC00 + (v - 0x1_0000) % 0x400]
  }

  /** A string as the sequence of UTF-16 code units a JavaScript string holds. */
  function Utf16(s: string): (units: seq<int>)
    ensures |s| <= |units| <= 2 * |s|
    ensures forall k :: 0 <= k < |units| ==> 0 <= units[k] < 0x1_0000
  {
    if s == [] then [] else CodeUnits(s[0]) + Utf16(s[1..])
  }

  /** One round of the hash loop: `h = (h << 5) - h + c; h |= 0`.  The shift
      works on the 32-bit value and wraps; so does the final `|= 0`. */
  function HashStep(h: int, c: int): (r: int)
    ensures IsInt32(r)
  {
    ToInt32(ToInt32(h * 32) - h + c)
  }

  /** The hash accumulator after consuming all of `units`, from left to right. */
  function HashAcc(units: seq<int>): (h: int)
    ensures IsInt32(h)
  {
    if units == [] then 0 else HashStep(HashAcc(units[..|units| - 1]), units[|units| - 1])
  }

  function Abs(x: int): int {
    if x < 0 then -x else x
  }

  /** `deterministicHash(s)`: the absolute value of the accumulator. */
  function StringHash(s: string): (h: nat)
    ensures h <= TwoTo31
  {
    Abs(HashAcc(Utf16(s)))
  }

  /** The hash step is the classic `31 * h + c`, taken modulo 2^32. */
  lemma HashStepIsTimes31(h: int, c: int)
    requires IsInt32(h)
    ensures HashStep(h, c) == ToInt32(31 * h + c)
  {
    var a := ToInt32(h * 32);
    var x := a - h + c;
    var y := 31 * h + c;
    assert (h * 32 - a) % TwoTo32 == 0;
    assert y - x == h * 32 - a;
    assert (y - ToInt32(x)) % TwoTo32 == 0 by {
      assert (x - ToInt32(x)) % TwoTo32 == 0;
      DivisibleSum(y - x, x - ToInt32(x));
    }
    assert (y - ToInt32(y)) % TwoTo32 == 0;
    SameInt32(y, ToInt32(x), ToInt32(y));
  }

  lemma DivisibleSum(a: int, b: int)
    requires a % TwoTo32 == 0 && b % TwoTo32 == 0
    ensures (a + b) % TwoTo32 == 0
  {
    var qa, qb := a / TwoTo32, b / TwoTo32;
    assert a == qa * TwoTo32;
    assert b == qb * TwoTo32;
    assert a + b == (qa + qb) * TwoTo32;
  }

  /** Two 32-bit values congruent to the same integer modulo 2^32 are equal. */
  lemma SameInt32(y: int, u: int, v: int)
    requires IsInt32(u) && IsInt32(v)
    requires (y - u) % TwoTo32 == 0 && (y - v) % TwoTo32 == 0
    ensures u == v
  {
    var qu, qv := (y - u) / TwoTo32, (y - v) / TwoTo32;
    assert y - u == qu * TwoTo32;
    assert y - v == qv * TwoTo32;
    assert u - v == (qv - qu) * TwoTo32;
  }

  /** The hash loop, run over the id's code units as the source does. */
  method DeterministicHash(s: string) returns (h: int)
    ensures h == StringHash(s)
    ensures 0 <= h <= TwoTo31
  {
    var units := Utf16(s);
    var acc := 0;
    var i := 0;
    while i < |units|
      invariant 0 <= i <= |units|
      invariant acc == HashAcc(units[..i])
    {
      assert units[..i + 1][..i] == units[..i];
      acc := ToInt32(ToInt32(acc * 32) - acc + units[i]);
      i := i + 1;
    }
    assert units[..i] == units;
    h := if acc < 0 then -acc else acc;
  }

  /** `computeBaseSkill`: a tier-dependent floor plus the id's hash reduced into
      the tier's band.  Only the id and the tier enter the value. */
  function BaseSkill(id: Id, tier: int): (skill: int)
    ensures tier == 0 ==> 70 <= skill <= 79
    ensures tier == 1 ==> 92 <= skill <= 97
    ensures tier == 2 ==> 80 <= skill <= 87
    ensures tier != 0 && tier != 1 && tier != 2 ==> 64 <= skill <= 70
  {
    var h := StringHash(id);
    if tier == 0 then 70 + h % 10
    else if tier == 1 then 92 + h % 6
    else if tier == 2 then 80 + h % 8
    else 64 + h % 7
  }

  function PlayerSkill(p: Player): int {
    BaseSkill(p.id, p.tier)
  }

  /** The bands are ordered: a tier-1 player outranks every other tier, and a
      tier-2 player every player of tier 0 or of tier 3 and beyond. */
  lemma TierBandsOrdered(p: Player, q: Player)
    ensures p.tier == 1 && q.tier != 1 ==> PlayerSkill(p) > PlayerSkill(q)
    ensures p.tier == 2 && q.tier != 1 && q.tier != 2 ==> PlayerSkill(p) > PlayerSkill(q)
  {
  }
}
