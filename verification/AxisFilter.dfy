/** Telling someone moving an absolute axis from the noise of one at rest. */
module AxisFilter {

  const I32_MIN := -0x8000_0000
  const I32_MAX := 0x7FFF_FFFF
  const I64_MIN := -0x8000_0000_0000_0000
  const I64_MAX := 0x7FFF_FFFF_FFFF_FFFF

  newtype i32 = x: int | I32_MIN <= x <= I32_MAX

  /** Arithmetic here is checked to stay within 64 bits. */
  newtype i64 = x: int | I64_MIN <= x <= I64_MAX

  function Gap(a: i32, b: i32): (r: i64)
    ensures r as int == Distance(a as int, b as int)
  {
    var d := a as i64 - b as i64;
    if d < 0 then -d else d
  }

  function Signum(x: i64): i64 {
    if x < 0 then -1 else if x > 0 then 1 else 0
  }

  function Side(v: i32, rest: i32): i64 {
    Signum(v as i64 - rest as i64)
  }

  /** Whether `Axis::moved` counts the value. */
  predicate Counts(rest: i32, dead: i32, last: i32, value: i32) {
    var need: i64 := if Side(value, rest) * Side(last, rest) < 0 then 2 * (dead as i64) else dead as i64;
    Gap(value, rest) > need && Gap(value, last) > dead as i64
  }

  class Axis {
    var rest: i32
    var dead: i32
    var last: i32

    constructor (rest: i32, dead: i32)
      ensures this.rest == rest && this.dead == dead && last == rest
    {
      this.rest, this.dead, last := rest, dead, rest;
    }

    /** `Axis::moved`; nothing here overflows, whatever the values. */
    method Moved(value: i32) returns (counted: bool)
      modifies `last
      ensures counted == Counts(rest, dead, old(last), value)
      ensures last == if counted then value else old(last)
    {
      var zone := dead as i64;
      var need := zone;
      if Side(value, rest) * Side(last, rest) < 0 {
        need := 2 * zone;
      }
      if Gap(value, rest) <= need || Gap(value, last) <= zone {
        return false;
      }
      last := value;
      return true;
    }
  }

  // ---- what counts ---------------------------------------------------------------------------

  function Distance(a: int, b: int): nat {
    if a < b then b - a else a - b
  }

  /** How many of the values count, starting from a last counted value. */
  function Count(rest: i32, dead: i32, last: i32, values: seq<i32>): nat
    decreases |values|
  {
    if values == [] then 0
    else if Counts(rest, dead, last, values[0]) then 1 + Count(rest, dead, values[0], values[1..])
    else Count(rest, dead, last, values[1..])
  }

  /** Within twice the dead zone of rest. */
  predicate Noise(rest: i32, dead: i32, value: i32) {
    Distance(value as int, rest as int) <= 2 * (dead as int)
  }

  /** After noise counted once, no noise counts again. */
  lemma {:induction false} NoiseGoesQuiet(rest: i32, dead: i32, last: i32, value: i32)
    requires 0 <= dead && Noise(rest, dead, last) && Noise(rest, dead, value)
    requires Distance(last as int, rest as int) > dead as int
    ensures !Counts(rest, dead, last, value)
  {}

  lemma {:induction false} NoiseStaysQuiet(rest: i32, dead: i32, last: i32, values: seq<i32>)
    requires 0 <= dead && Noise(rest, dead, last) && Distance(last as int, rest as int) > dead as int
    requires forall i :: 0 <= i < |values| ==> Noise(rest, dead, values[i])
    ensures Count(rest, dead, last, values) == 0
    decreases |values|
  {
    if values != [] {
      NoiseGoesQuiet(rest, dead, last, values[0]);
      NoiseStaysQuiet(rest, dead, last, values[1..]);
    }
  }

  lemma {:induction false} CountedIsOutside(rest: i32, dead: i32, last: i32, value: i32)
    requires 0 <= dead && Counts(rest, dead, last, value)
    ensures Distance(value as int, rest as int) > dead as int && Distance(value as int, last as int) > dead as int
  {}

  /** Any stream of values that stays within twice the dead zone of rest counts as movement at most once,
      whatever was counted before it. */
  lemma {:induction false} NoiseCountsOnce(rest: i32, dead: i32, last: i32, values: seq<i32>)
    requires 0 <= dead && forall i :: 0 <= i < |values| ==> Noise(rest, dead, values[i])
    ensures Count(rest, dead, last, values) <= 1
    decreases |values|
  {
    if values != [] {
      if Counts(rest, dead, last, values[0]) {
        CountedIsOutside(rest, dead, last, values[0]);
        NoiseStaysQuiet(rest, dead, values[0], values[1..]);
      } else {
        NoiseCountsOnce(rest, dead, last, values[1..]);
      }
    }
  }

  /** A real push counts: past twice the zone from rest and past the zone from where it last counted. */
  lemma {:induction false} PushCounts(rest: i32, dead: i32, last: i32, value: i32)
    requires 0 <= dead && !Noise(rest, dead, value) && Distance(value as int, last as int) > dead as int
    ensures Counts(rest, dead, last, value)
  {}

  /** How far the axis travelled, from `at`. */
  function Travel(at: i32, values: seq<i32>): nat
    decreases |values|
  {
    if values == [] then 0 else Distance(at as int, values[0] as int) + Travel(values[0], values[1..])
  }

  lemma {:induction false} OneMore(n: nat, d: int)
    ensures (n + 1) * d == n * d + d
  {}

  lemma {:induction false} Detour(a: int, b: int, c: int)
    ensures Distance(a, c) <= Distance(a, b) + Distance(b, c)
  {}

  /** Counting moves takes travel, up to how far the axis already is from its last count. */
  lemma {:induction false} CountsTakeTravel(rest: i32, dead: i32, last: i32, at: i32, values: seq<i32>)
    requires 0 <= dead
    ensures var n := Count(rest, dead, last, values);
            n > 0 ==> n * (dead as int) < Travel(at, values) + Distance(last as int, at as int)
    decreases |values|
  {
    if values != [] {
      var v := values[0];
      Detour(last as int, at as int, v as int);
      if Counts(rest, dead, last, v) {
        CountedIsOutside(rest, dead, last, v);
        CountsTakeTravel(rest, dead, v, v, values[1..]);
        OneMore(Count(rest, dead, v, values[1..]), dead as int);
      } else {
        CountsTakeTravel(rest, dead, last, v, values[1..]);
      }
    }
  }

  /** From rest, k counted moves mean more than k dead zones of travel. */
  lemma {:induction false} MovesTakeTravel(rest: i32, dead: i32, values: seq<i32>)
    requires 0 <= dead && Count(rest, dead, rest, values) > 0
    ensures Count(rest, dead, rest, values) * (dead as int) < Travel(rest, values)
  {
    CountsTakeTravel(rest, dead, rest, rest, values);
  }

  // ---- the zone ------------------------------------------------------------------------------

  function Max(a: i64, b: i64): i64 {
    if a < b then b else a
  }

  /** `/ 32` of an i64, which truncates toward zero. */
  function Over32(x: i64): i64 {
    if x < 0 then (x + 31) / 32 else x / 32
  }

  /** `dead_zone`: never negative, no smaller than the driver's flat and fuzz nor a 32nd of the range, and no
      larger than one of these makes it; the upper clamp never binds. */
  function DeadZone(minimum: i32, maximum: i32, flat: i32, fuzz: i32): (r: i32)
    ensures r >= 0 && r >= flat && r >= fuzz
    ensures 32 * (r as int) > maximum as int - minimum as int - 32
    ensures r == 0 || r == flat || r == fuzz || 32 * (r as int) <= maximum as int - minimum as int
  {
    var span := Over32(maximum as i64 - minimum as i64);
    var zone := Max(Max(span, flat as i64), fuzz as i64);
    (if zone < 0 then 0 else if zone > I32_MAX as i64 then I32_MAX as i64 else zone) as i32
  }
}
