/**
 * The manifest's and the warehouse's event-time windows, over microseconds since the epoch: one floors the whole
 * instant, the other the minutes of its hour.
 */
module Windows {

  const MINUTE := 60_000_000
  const WINDOW_MINUTES := 15

  /** Python: drop seconds and microseconds, then subtract the minute of the hour modulo the width. */
  function WindowStart(ts: int, minutes: int): int
    requires minutes > 0
  {
    var floored := ts - ts % MINUTE;
    var minuteOfHour := (floored / MINUTE) % 60;
    floored - (minuteOfHour % minutes) * MINUTE
  }

  /** SQL: `floor(epoch / width) * width`. */
  function SqlWindowStart(ts: int, minutes: int): int
    requires minutes > 0
  {
    ts / (minutes * MINUTE) * (minutes * MINUTE)
  }

  lemma MulMonotone(x: int, y: int, d: int)
    requires x <= y && d >= 0
    ensures x * d <= y * d
  {
  }

  lemma SmallMultiple(x: int, d: int)
    requires -d < x * d < d
    ensures x == 0
  {
    if x > 0 {
      MulMonotone(1, x, d);
    } else if x < 0 {
      MulMonotone(x, -1, d);
    }
  }

  /** Division by a positive number has one quotient and one remainder. */
  lemma DivMod(a: int, d: int, q: int, r: int)
    requires d > 0 && a == q * d + r && 0 <= r < d
    ensures a / d == q && a % d == r
  {
    var k := a / d;
    assert a == k * d + a % d;
    assert (k - q) * d == k * d - q * d;
    SmallMultiple(k - q, d);
  }

  lemma ModOfMultiple(a: int, b: int, k: int)
    requires b > 0 && k > 0
    ensures (a % (b * k)) % b == a % b
  {
    var q, r := a / (b * k), a % (b * k);
    assert b * k > 0 && a == q * (b * k) + r;
    assert a == (q * k + r / b) * b + r % b by { assert q * (b * k) == (q * k) * b; }
    DivMod(a, b, q * k + r / b, r % b);
  }

  lemma FloorOfFloor(ts: int, minutes: int)
    requires minutes > 0
    ensures SqlWindowStart(ts, minutes) == (ts / MINUTE / minutes) * minutes * MINUTE
  {
    var m := ts / MINUTE;
    var q, r := m / minutes, m % minutes;
    assert ts == (q * minutes + r) * MINUTE + ts % MINUTE;
    assert (q * minutes + r) * MINUTE == q * (minutes * MINUTE) + r * MINUTE;
    assert r * MINUTE <= (minutes - 1) * MINUTE;
    DivMod(ts, minutes * MINUTE, q, r * MINUTE + ts % MINUTE);
  }

  lemma AgreeWhenDividing(ts: int, minutes: int)
    requires minutes > 0 && 60 % minutes == 0
    ensures WindowStart(ts, minutes) == SqlWindowStart(ts, minutes)
  {
    FloorOfFloor(ts, minutes);
    var m := ts / MINUTE;
    DivMod(ts - ts % MINUTE, MINUTE, m, 0);
    var k := 60 / minutes;
    assert minutes * k == 60 && k > 0;
    ModOfMultiple(m, minutes, k);
    assert (m % 60) % minutes == m % minutes;
    assert (m / minutes) * minutes == m - m % minutes;
  }

  lemma DifferWhenNotDividing(minutes: int)
    requires minutes > 0 && 60 % minutes != 0
    ensures WindowStart(60 * MINUTE, minutes) != SqlWindowStart(60 * MINUTE, minutes)
  {
    FloorOfFloor(60 * MINUTE, minutes);
    assert WindowStart(60 * MINUTE, minutes) == 60 * MINUTE;
    assert (60 / minutes) * minutes == 60 - 60 % minutes;
  }

  /** The two engines' windows agree on every instant, before 1970 too, exactly for widths that divide the hour. */
  lemma WindowsAgreeIff(minutes: int)
    requires minutes > 0
    ensures (forall ts :: WindowStart(ts, minutes) == SqlWindowStart(ts, minutes)) <==> 60 % minutes == 0
  {
    if 60 % minutes == 0 {
      forall ts ensures WindowStart(ts, minutes) == SqlWindowStart(ts, minutes) {
        AgreeWhenDividing(ts, minutes);
      }
    } else {
      DifferWhenNotDividing(minutes);
    }
  }

  /** Python's window is the floor of the instant within its hour, at any width. */
  lemma WindowWithinHour(ts: int, minutes: int)
    requires minutes > 0
    ensures WindowStart(ts, minutes) == SqlWindowStart(ts, 60) + SqlWindowStart(ts % (60 * MINUTE), minutes)
    ensures ts == SqlWindowStart(ts, 60) + ts % (60 * MINUTE)
  {
    var m, rest := ts / MINUTE, ts % MINUTE;
    var q, r := m / 60, m % 60;
    FloorOfFloor(ts, 60);
    DivMod(ts - rest, MINUTE, m, 0);
    DivMod(ts, 60 * MINUTE, q, r * MINUTE + rest);
    DivMod(r * MINUTE + rest, MINUTE, r, rest);
    FloorOfFloor(r * MINUTE + rest, minutes);
    assert r == r / minutes * minutes + r % minutes;
  }

  lemma FromMidnight(rest: int, minutes: int)
    requires rest >= 0 && minutes > 0
    ensures SqlWindowStart(rest, minutes) >= 0
  {
    FloorLaws(0, rest, minutes * MINUTE);
  }

  lemma StartOfStart(ts: int, minutes: int)
    requires minutes > 0
    ensures WindowStart(ts, minutes) <= ts < WindowStart(ts, minutes) + minutes * MINUTE
    ensures WindowStart(WindowStart(ts, minutes), minutes) == WindowStart(ts, minutes)
    ensures SqlWindowStart(ts, 60) <= WindowStart(ts, minutes)
  {
    var hour, rest := SqlWindowStart(ts, 60), ts % (60 * MINUTE);
    var start := SqlWindowStart(rest, minutes);
    WindowWithinHour(ts, minutes);
    FloorLaws(rest, rest, minutes * MINUTE);
    FromMidnight(rest, minutes);
    WindowWithinHour(hour + start, minutes);
    DivMod(hour + start, 60 * MINUTE, ts / (60 * MINUTE), start);
  }

  lemma StartsInOrder(ts: int, later: int, minutes: int)
    requires minutes > 0 && ts <= later
    ensures WindowStart(ts, minutes) <= WindowStart(later, minutes)
  {
    WindowWithinHour(ts, minutes);
    WindowWithinHour(later, minutes);
    if ts / (60 * MINUTE) == later / (60 * MINUTE) {
      FloorLaws(ts % (60 * MINUTE), later % (60 * MINUTE), minutes * MINUTE);
    } else {
      StartOfStart(ts, minutes);
      StartOfStart(later, minutes);
      NextHour(ts, later, 60 * MINUTE);
    }
  }

  lemma NextHour(ts: int, later: int, w: int)
    requires w > 0 && ts <= later && ts / w != later / w
    ensures ts < later / w * w
  {
    FloorLaws(ts, later, w);
    if later / w * w <= ts { FloorLaws(later / w * w, ts, w); DivMod(later / w * w, w, later / w, 0); }
  }

  /** A window contains its instant, starts where it starts, and never runs backward: Python's, at every positive width. */
  lemma WindowLaws(ts: int, later: int, minutes: int)
    requires minutes > 0 && ts <= later
    ensures WindowStart(ts, minutes) <= ts < WindowStart(ts, minutes) + minutes * MINUTE
    ensures WindowStart(WindowStart(ts, minutes), minutes) == WindowStart(ts, minutes)
    ensures WindowStart(ts, minutes) <= WindowStart(later, minutes)
  {
    StartOfStart(ts, minutes);
    StartsInOrder(ts, later, minutes);
  }

  /** And the warehouse's. */
  lemma SqlWindowLaws(ts: int, later: int, minutes: int)
    requires minutes > 0 && ts <= later
    ensures SqlWindowStart(ts, minutes) <= ts < SqlWindowStart(ts, minutes) + minutes * MINUTE
    ensures SqlWindowStart(SqlWindowStart(ts, minutes), minutes) == SqlWindowStart(ts, minutes)
    ensures SqlWindowStart(ts, minutes) <= SqlWindowStart(later, minutes)
  {
    FloorLaws(ts, later, minutes * MINUTE);
  }

  lemma FloorLaws(ts: int, later: int, w: int)
    requires w > 0 && ts <= later
    ensures ts / w * w <= ts < ts / w * w + w
    ensures (ts / w * w) / w * w == ts / w * w
    ensures ts / w * w <= later / w * w
  {
    var q, q' := ts / w, later / w;
    assert ts == q * w + ts % w && later == q' * w + later % w;
    DivMod(q * w, w, q, 0);
    assert (q' + 1) * w == q' * w + w;
    if q' < q {
      MulMonotone(q' + 1, q, w);
    } else {
      MulMonotone(q, q', w);
    }
  }
}
