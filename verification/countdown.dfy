/** The countdown's `calculateTimeLeft` (components/CountdownTimer.tsx),
    with the current time and the target passed in as integer milliseconds
    since the epoch instead of read from `new Date()`. */
module Countdown {
  import opened Types
  import opened Text

  const MsPerSecond: int := 1000
  const MsPerMinute: int := 60 * MsPerSecond
  const MsPerHour: int := 60 * MsPerMinute
  const MsPerDay: int := 24 * MsPerHour

  /** Whole seconds represented by a decomposition. */
  function TotalSeconds(t: TimeLeft): int {
    ((t.days * 24 + t.hours) * 60 + t.minutes) * 60 + t.seconds
  }

  /** The fields a clock face can show: days unbounded, the rest in range. */
  predicate WellFormed(t: TimeLeft) {
    0 <= t.days && 0 <= t.hours < 24 && 0 <= t.minutes < 60 && 0 <= t.seconds < 60
  }

  /** Time remaining until `target`, all-zero once it has passed. The
      source's floating-point `Math.floor(x % m)` on a positive quotient is
      the integer remainder of the floored quotient. */
  function CalculateTimeLeft(now: int, target: int): (t: TimeLeft)
    ensures WellFormed(t)
    ensures target - now <= 0 ==> t == TimeLeft(0, 0, 0, 0)
    ensures 0 < target - now ==> t.days == (target - now) / MsPerDay
  {
    var difference := target - now;
    if difference > 0 then
      TimeLeft(difference / MsPerDay,
               (difference / MsPerHour) % 24,
               (difference / MsPerMinute) % 60,
               (difference / MsPerSecond) % 60)
    else
      TimeLeft(0, 0, 0, 0)
  }

  /** A non-zero multiple of `m` is at least `m` away from zero. */
  lemma MultipleBound(k: int, m: int)
    requires 0 < m
    ensures 1 <= k ==> m <= k * m
    ensures k <= -1 ==> k * m <= -m
  {
    if 1 <= k {
      assert k * m - m == (k - 1) * m;
    }
    if k <= -1 {
      assert -m - k * m == (-1 - k) * m;
    }
  }

  /** Integer division is determined by quotient and remainder. */
  lemma DivModUnique(n: int, m: int, q: int, r: int)
    requires 0 < m && 0 <= r < m && n == q * m + r
    ensures n / m == q && n % m == r
  {
    var q', r' := n / m, n % m;
    assert (q' - q) * m == r - r';
    MultipleBound(q' - q, m);
  }

  /** Dividing by `a` and then by `b` is dividing by `a * b`. */
  lemma DivDiv(n: nat, a: int, b: int)
    requires 0 < a && 0 < b
    ensures n / a / b == n / (a * b)
  {
    var q, r := n / a, n % a;
    var q2, r2 := q / b, q % b;
    assert q == q2 * b + r2;
    assert n == q2 * (a * b) + (r2 * a + r) by {
      assert n == q * a + r;
      assert q * a == q2 * (a * b) + r2 * a by {
        assert q * a == (q2 * b + r2) * a;
      }
    }
    assert r2 * a + r < a * b by {
      MultipleBound(b - 1 - r2, a);
      assert (b - 1) * a == a * b - a;
      assert (b - 1 - r2) * a == (b - 1) * a - r2 * a;
    }
    assert 0 <= r2 * a;
    DivModUnique(n, a * b, q2, r2 * a + r);
  }

  /** For a positive difference, the decomposition reassembles the whole
      seconds remaining: the fractional second is the only part dropped. */
  lemma Reconstruction(now: int, target: int)
    requires 0 < target - now
    ensures TotalSeconds(CalculateTimeLeft(now, target)) == (target - now) / MsPerSecond
  {
    var d := target - now;
    var s := d / MsPerSecond;
    var t := CalculateTimeLeft(now, target);
    var m := s / 60;
    var h := m / 60;
    DivDiv(d, MsPerSecond, 60);
    DivDiv(d, MsPerMinute, 60);
    DivDiv(d, MsPerHour, 24);
    assert d / MsPerMinute == m;
    DivDiv(s, 60, 60);
    assert d / MsPerHour == h;
    DivDiv(m, 60, 24);
    assert t.days == h / 24;
    assert h == t.days * 24 + t.hours;
    assert m == h * 60 + t.minutes;
    assert s == m * 60 + t.seconds;
  }

  /** The decomposition is the only well-formed one with that many whole
      seconds: any clock face showing the same remaining time is this one. */
  lemma Uniqueness(now: int, target: int, t: TimeLeft)
    requires 0 < target - now
    requires WellFormed(t)
    requires TotalSeconds(t) == (target - now) / MsPerSecond
    ensures t == CalculateTimeLeft(now, target)
  {
    var c := CalculateTimeLeft(now, target);
    Reconstruction(now, target);
    var s := TotalSeconds(t);
    var mt := (t.days * 24 + t.hours) * 60 + t.minutes;
    var mc := (c.days * 24 + c.hours) * 60 + c.minutes;
    DivModUnique(s, 60, mt, t.seconds);
    DivModUnique(s, 60, mc, c.seconds);
    var ht := t.days * 24 + t.hours;
    var hc := c.days * 24 + c.hours;
    DivModUnique(mt, 60, ht, t.minutes);
    DivModUnique(mt, 60, hc, c.minutes);
    DivModUnique(ht, 24, t.days, t.hours);
    DivModUnique(ht, 24, c.days, c.hours);
  }

  /** Ninety seconds before the target the clock reads 0:00:01:30. */
  lemma NinetySecondsBefore(target: int)
    ensures CalculateTimeLeft(target - 90000, target) == TimeLeft(0, 0, 1, 30)
  {
  }

  /** The four cells of the clock face, as displayed. */
  datatype Face = Face(days: string, hours: string, minutes: string, seconds: string)

  /** Each cell padded to two digits; each reads back as its field, and
      is exactly two characters unless it is a day count of 100 or more. */
  function Display(t: TimeLeft): (f: Face)
    requires WellFormed(t)
    ensures IsNumeral(f.days) && ParseDecimal(f.days) == t.days
    ensures t.days < 100 ==> |f.days| == 2
    ensures 100 <= t.days ==> f.days == NatToDecimal(t.days)
    ensures IsNumeral(f.hours) && ParseDecimal(f.hours) == t.hours && |f.hours| == 2
    ensures IsNumeral(f.minutes) && ParseDecimal(f.minutes) == t.minutes && |f.minutes| == 2
    ensures IsNumeral(f.seconds) && ParseDecimal(f.seconds) == t.seconds && |f.seconds| == 2
  {
    Face(TwoDigits(t.days), TwoDigits(t.hours), TwoDigits(t.minutes), TwoDigits(t.seconds))
  }
}
