/** The elapsed-time bucketing behind the three relative-time labels: whole
    minutes `m = floor(diff / 60000)`, then hours `floor(m / 60)`, then days
    `floor(h / 24)`. `diff` is the age in milliseconds; it is negative for a
    timestamp in the future. Dafny's `/` rounds down for a positive divisor, as
    `Math.floor(a / b)` does. */
module TimeAgo {

  datatype Ago = Now | Minutes(m: nat) | Hours(h: nat) | Days(d: nat)

  const MINUTE: nat := 60_000
  const HOUR: nat := 60 * MINUTE
  const DAY: nat := 24 * HOUR

  /** The bucket of an age. Each case pins down the exact whole number of units
      the age spans: the nested floors agree with one floor of the age. */
  function Bucket(diff: int): (a: Ago)
    ensures a.Now? <==> diff < MINUTE
    ensures a.Minutes? ==> 1 <= a.m < 60 && a.m * MINUTE <= diff < (a.m + 1) * MINUTE
    ensures a.Hours? ==> 1 <= a.h < 24 && a.h * HOUR <= diff < (a.h + 1) * HOUR
    ensures a.Days? ==> 1 <= a.d && a.d * DAY <= diff < (a.d + 1) * DAY
  {
    var mins := diff / MINUTE;
    if mins < 1 then Now
    else if mins < 60 then Minutes(mins)
    else
      var hours := mins / 60;
      FloorOfFloor(diff, MINUTE, 60);
      if hours < 24 then Hours(hours)
      else
        FloorOfFloor(diff, HOUR, 24);
        Days(hours / 24)
  }

  /** `floor(floor(x / a) / b) == floor(x / (a * b))` for positive `a`, `b`. */
  lemma FloorOfFloor(x: int, a: nat, b: nat)
    requires a > 0 && b > 0
    ensures (x / a) / b == x / (a * b)
  {
    var q := x / a;
    var k := q / b;
    DivBounds(x, a);
    DivBounds(q, b);
    MulMono(a, b * k, q);
    MulMono(a, q + 1, b * k + b);
    MulAddOne(a, q);
    MulAdd(a, b * k, b);
    MulAssoc(a, b, k);
    DivUnique(x, a * b, k);
  }

  lemma DivBounds(x: int, d: nat)
    requires d > 0
    ensures d * (x / d) <= x < d * (x / d) + d
  {
  }

  lemma MulAddOne(a: nat, q: int)
    ensures a * (q + 1) == a * q + a
  {
  }

  lemma MulAdd(a: nat, x: int, y: int)
    ensures a * (x + y) == a * x + a * y
  {
  }

  lemma MulAssoc(a: nat, b: nat, k: int)
    ensures a * (b * k) == (a * b) * k
  {
  }

  lemma MulMono(a: nat, x: int, y: int)
    requires x <= y
    ensures a * x <= a * y
  {
  }

  lemma DivUnique(x: int, d: nat, k: int)
    requires d > 0 && d * k <= x < d * k + d
    ensures x / d == k
  {
    var q := x / d;
    assert x == d * q + x % d && 0 <= x % d < d;
    if q > k {
      MulMono(d, k + 1, q);
    } else if q < k {
      MulMono(d, q + 1, k);
    }
  }
}
