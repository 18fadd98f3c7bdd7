/** The differences of the system's counters from which the sampler's values come, and what becomes of them
    when a counter starts again at zero. */
module Counters {

  const WORD := 0x1_0000_0000_0000_0000

  // ---- Network traffic ----

  /** The traffic since the last step in 64-bit arithmetic. A reading below the old one is taken for a counter
      that has started again; `max` is the largest number of the counter's type. */
  function Traffic(now: nat, before: nat, max: nat): nat {
    ((if now < before then (now + max) % WORD else now) - before) % WORD
  }

  method Difference(now: nat, before: nat, max: nat, valid: bool) returns (d: nat)
    requires now <= max && before <= max && (max == 0xFFFF_FFFF || max == WORD - 1)
    ensures d == if valid then Traffic(now, before, max) else (now - before) % WORD
  {
    var reading := now;
    if valid {
      reading := (reading + if now < before then max else 0) % WORD;
    }
    d := (reading - before) % WORD;
  }

  /** The counter's type: 32 or 64 bits. */
  predicate IsMax(max: nat) { max == 0xFFFF_FFFF || max == WORD - 1 }

  /** What a counter shows after a number of bytes. */
  function Shown(total: nat, max: nat): nat { total % (max + 1) }

  lemma {:induction false} Split(total: nat, max: nat)
    ensures total == total / (max + 1) * (max + 1) + Shown(total, max) && Shown(total, max) <= max
  {
  }

  /** Between two readings less than a whole round apart the counter starts again at most once. */
  lemma {:induction false} Rounds(a: nat, b: nat, max: nat)
    requires a <= b <= a + max
    ensures var (p, q) := (a / (max + 1), b / (max + 1));
      && (Shown(b, max) >= Shown(a, max) ==> q == p && b - a == Shown(b, max) - Shown(a, max))
      && (Shown(b, max) < Shown(a, max) ==> q == p + 1 && b - a == Shown(b, max) + (max + 1) - Shown(a, max))
  {
    var m := max + 1;
    var p, q, r, s := a / m, b / m, Shown(a, max), Shown(b, max);
    Split(a, max);
    Split(b, max);
    if q < p {
      Larger(p, q, m);
    } else if q > p + 1 {
      Larger(q, p + 1, m);
    }
  }

  lemma {:induction false} Larger(p: nat, q: nat, m: nat)
    requires q < p
    ensures p * m >= q * m + m
  {
    assert p * m == (p - q) * m + q * m;
    assert (p - q) * m >= m by { assert (p - q) * m == (p - q - 1) * m + m; }
  }

  lemma {:induction false} InWord(k: int)
    ensures 0 <= k < WORD ==> k % WORD == k
    ensures WORD <= k < 2 * WORD ==> k % WORD == k - WORD
    ensures -WORD <= k < 0 ==> k % WORD == k + WORD
  {
  }

  /** The value is the traffic, unless the counter has started again: then one byte is missing. */
  lemma {:induction false} TrafficIsMeasured(a: nat, b: nat, max: nat)
    requires IsMax(max) && a <= b <= a + max
    ensures var d := Traffic(Shown(b, max), Shown(a, max), max);
      && (d == b - a <==> Shown(b, max) >= Shown(a, max))
      && (Shown(b, max) < Shown(a, max) ==> d == b - a - 1)
  {
    Rounds(a, b, max);
    Split(a, max);
    Split(b, max);
    var r, s := Shown(a, max), Shown(b, max);
    InWord(s - r);
    InWord(s + max);
    InWord((s + max) % WORD - r);
  }

  /** The counter's readings after each step of a run. */
  predicate Steady(totals: seq<nat>, max: nat) {
    forall i | 0 <= i < |totals| - 1 :: totals[i] <= totals[i + 1] <= totals[i] + max
  }

  function Measured(totals: seq<nat>, max: nat): nat {
    if |totals| < 2 then 0
    else
      var n := |totals| - 1;
      Measured(totals[..n], max) + Traffic(Shown(totals[n], max), Shown(totals[n - 1], max), max)
  }

  /** Over a whole run the values add up to the traffic, less one byte for each time the counter has started
      again. */
  lemma {:induction false} RunIsMeasured(totals: seq<nat>, max: nat)
    requires IsMax(max) && totals != [] && Steady(totals, max)
    ensures var (first, last) := (totals[0], totals[|totals| - 1]);
      Measured(totals, max) == (last - first) - (last / (max + 1) - first / (max + 1))
  {
    hide Traffic, Shown, IsMax;
    var n := |totals| - 1;
    if n > 0 {
      assert totals[n - 1] <= totals[n - 1 + 1] <= totals[n - 1] + max;
      RunIsMeasured(totals[..n], max);
      Rounds(totals[n - 1], totals[n], max);
      TrafficIsMeasured(totals[n - 1], totals[n], max);
    }
  }

  // ---- Context switches and disk statistics ----

  function Power2(n: nat): nat { if n == 0 then 1 else 2 * Power2(n - 1) }

  /** Meant is the difference, with a counter that has started again brought up by a whole round. Shifting
      binds weaker than adding and subtracting, so that a sum is shifted by a difference; that has no meaning
      unless the difference lies between 0 and 63. */
  datatype Outcome = Undefined | Value(bits: nat)

  function Count(now: nat, before: nat): Outcome {
    if now >= before then Value(now - before)
    else if before > 63 then Undefined
    else Value((now + 1) * Power2(63 - before) % WORD)
  }

  lemma {:induction false} ShiftIsSmall(before: nat)
    requires 1 <= before <= 63
    ensures before * Power2(63 - before) <= Power2(62)
  {
    if before > 1 {
      ShiftIsSmall(before - 1);
      assert Power2(64 - before) == 2 * Power2(63 - before);
      Doubling(before, Power2(63 - before));
    }
  }

  lemma {:induction false} Doubling(x: nat, p: nat)
    requires x >= 2
    ensures x * p <= (x - 1) * (2 * p)
  {
    assert (x - 1) * (2 * p) == x * p + (x - 2) * p;
  }

  lemma {:induction false} Sixty()
    ensures Power2(62) == 0x4000_0000_0000_0000
  {
    assert Power2(10) == 1024;
    Powers(10, 10);
    Powers(20, 20);
    Powers(40, 20);
    assert Power2(62) == 4 * Power2(60);
  }

  lemma {:induction false} Powers(m: nat, n: nat)
    ensures Power2(m + n) == Power2(m) * Power2(n)
  {
    if n > 0 {
      Powers(m, n - 1);
      Twice(Power2(m), Power2(n - 1));
      assert Power2(m + n) == 2 * Power2(m + n - 1) && m + n - 1 == m + (n - 1);
    }
  }

  lemma {:induction false} Twice(x: nat, y: nat)
    ensures x * (2 * y) == 2 * (x * y)
  {
  }

  /** The value is the difference exactly when the counter has not started again: the correction is never
      right. */
  lemma {:induction false} CountIsMeasured(a: nat, b: nat)
    requires a <= b <= a + (WORD - 1)
    ensures Count(Shown(b, WORD - 1), Shown(a, WORD - 1)) == Value(b - a) <==> Shown(b, WORD - 1) >= Shown(a, WORD - 1)
  {
    hide Power2;
    Rounds(a, b, WORD - 1);
    var r, s := Shown(a, WORD - 1), Shown(b, WORD - 1);
    if s < r <= 63 {
      ShiftIsSmall(r);
      Sixty();
      SmallProduct(s + 1, r, Power2(63 - r));
      InWord((s + 1) * Power2(63 - r));
    }
  }

  lemma {:induction false} SmallProduct(x: nat, y: nat, p: nat)
    requires x <= y
    ensures x * p <= y * p
  {
  }
}
