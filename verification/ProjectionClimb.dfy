/** How large a plan must be for the projection of fixed figures never to climb: the two
    floors of the blend can lose a milliunit from one day to the next only when the plan
    is at most fifteen milliunits. */
module ProjectionClimb {
  import opened Prelude
  import opened Overspend

  /** The blend in excess of what is spent: `j` is the burn's floored gain over the rest of
      the month, and `x` the floored blend of that gain with the unspent plan. */
  lemma {:induction false} BlendExcess(spent: Money, anchor: Money, clock: MonthClock) returns (j: int, x: int)
    requires clock.Valid() && 0 <= spent <= anchor
    ensures var day, rest := clock.day, clock.length - clock.day;
            && day * j <= spent * rest <= day * j + day - 1
            && clock.length * x <= day * j + rest * (anchor - spent) <= clock.length * x + clock.length - 1
    ensures Blend(spent, anchor, clock) == spent + x
  {
    var day, len, rest := clock.day, clock.length, clock.length - clock.day;
    var runRate := spent * len / day;
    j, x := runRate - spent, Blend(spent, anchor, clock) - spent;
    FloorBounds(spent * len, day);
    FloorBounds(day * runRate + rest * anchor, len);
    SplitProduct(spent, day, rest);
    SplitProduct(day, spent, j);
    SplitProduct(rest, spent, anchor - spent);
    SplitProduct(len, spent, x);
  }

  lemma SplitProduct(c: int, a: int, b: int)
    ensures c * (a + b) == c * a + c * b
  {
  }

  /** Two consecutive days of one month, `k` days before its end, in excesses. */
  ghost predicate TwoDays(n: int, d: int, k: int, s: int, a: int, j: int, x: int, j2: int, y: int) {
    && 28 <= n <= 31 && d >= 1 && k >= 1 && n == d + k && s >= 0 && a >= 0
    && d * j <= s * k <= d * j + d - 1
    && (d + 1) * j2 <= s * (k - 1) <= (d + 1) * j2 + d
    && n * x <= d * j + k * a <= n * x + n - 1
    && n * y <= (d + 1) * j2 + (k - 1) * a <= n * y + n - 1
  }

  lemma Distribute(c: int, m: int)
    ensures c * (m + 1) == c * m + c && (m + 1) * c == m * c + c
    ensures c * (m - 1) == c * m - c && (m - 1) * c == m * c - c
  {
  }

  /** A climb needs more elapsed days than milliunits planned. */
  lemma {:induction false} ClimbIsLate(
      n: int, d: int, k: int, s: int, a: int, j: int, x: int, j2: int, y: int)
    requires TwoDays(n, d, k, s, a, j, x, j2, y) && y > x
    ensures d * j + k * a + 1 <= n * y && a + 1 <= (d + 1) * j2 - d * j
    ensures s + a <= d - 2
  {
    MulMonotone(n, x + 1, y);
    Distribute(n, x);
    Distribute(s, k);
    Distribute(a, k);
    LateLinear(n * x, n * y, n, d * j, k * a, (d + 1) * j2, (k - 1) * a, s * k, s * (k - 1), d, s, a);
  }

  lemma LateLinear(
      nx: int, ny: int, n: int, dj: int, ka: int, ej: int, la: int, sk: int, sl: int, d: int, s: int, a: int)
    requires nx + n <= ny && la == ka - a && sl == sk - s
    requires dj <= sk <= dj + d - 1 && ej <= sl && dj + ka <= nx + n - 1 && ny <= ej + la
    ensures dj + ka + 1 <= ny && a + 1 <= ej - dj && s + a <= d - 2
  {
  }

  /** The burn's gain does not grow overnight. */
  lemma {:induction false} GainShrinks(d: int, k: int, s: int, j: int, j2: int)
    requires d >= 1 && k >= 1 && s >= 0 && s * k <= d * j + d - 1 && (d + 1) * j2 <= s * (k - 1)
    ensures j2 <= j
  {
    GainNotNegative(d, s, k, j);
    Distribute(s, k);
    if j2 > j {
      MulMonotone(d + 1, j + 1, j2);
      SplitProduct(d + 1, j, 1);
      SplitProduct(j, d, 1);
    }
  }

  /** Nor does it shrink under a climb in the last days of a month. */
  lemma {:induction false} GainStays(d: int, k: int, s: int, a: int, j: int, j2: int)
    requires d >= 18 && 1 <= k <= 13 && a >= 0 && 0 <= s <= d - 2
    requires d * j <= s * k && a + 1 <= (d + 1) * j2 - d * j
    ensures j2 >= j
  {
    MulMonotone(s, k, 13);
    if j2 < j {
      MulMonotone(d + 1, j2, j - 1);
      Distribute(d + 1, j);
      SplitProduct(j, d, 1);
      MulMonotone(d, Min(20, j), j);
    }
  }

  /** A climb in the last days of a month comes from the same gain on both of them. */
  lemma {:induction false} SameGain(
      n: int, d: int, k: int, s: int, a: int, j: int, x: int, j2: int, y: int)
    requires TwoDays(n, d, k, s, a, j, x, j2, y) && y > x && d >= 18
    ensures k <= 13 && j2 == j
  {
    ClimbIsLate(n, d, k, s, a, j, x, j2, y);
    GainShrinks(d, k, s, j, j2);
    GainStays(d, k, s, a, j, j2);
  }

  lemma {:induction false} GainNotNegative(d: int, s: int, k: int, j: int)
    requires d >= 1 && s >= 0 && k >= 0 && s * k <= d * j + d - 1
    ensures j >= 0
  {
    assert s * k >= 0;
    if j < 0 {
      MulMonotone(d, j, -1);
    }
  }

  /** With `b` the gain the plan does not make up for, `b * k` reaches past the month. */
  lemma {:induction false} ShortfallIsLong(n: int, d: int, k: int, a: int, j: int, y: int)
    requires n == d + k && d >= 1 && k >= 2 && j - a >= 1
    requires d * j + k * a + 1 <= n * y <= (d + 1) * j + (k - 1) * a
    ensures n + 1 <= k * (j - a)
  {
    var b, t := j - a, j - y;
    SplitProduct(n, t, y);
    SplitProduct(j, d, k);
    SplitProduct(k, b, a);
    Distribute(j, d);
    Distribute(a, k);
    MulMonotone(b, 1, k - 1);
    Distribute(b, k);
    LongLinear(n * t, n * j, n * y, d * j, k * j, k * a, k * b, j, a);
    if t <= 0 {
      MulMonotone(n, t, 0);
    } else {
      MulMonotone(n, 1, t);
    }
  }

  lemma LongLinear(nt: int, nj: int, ny: int, dj: int, kj: int, ka: int, kb: int, j: int, a: int)
    requires nj == nt + ny && nj == dj + kj && kj == kb + ka
    requires dj + ka + 1 <= ny <= dj + j + ka - a
    ensures kb - (j - a) <= nt <= kb - 1
  {
  }

  lemma {:induction false} TwoDaysLeft(n: int, d: int, k: int, s: int, a: int, j: int, x: int, y: int)
    requires TwoDays(n, d, k, s, a, j, x, j, y) && s + a <= d - 2 && j >= 1
    ensures k >= 2
  {
    MulMonotone(d, 1, j);
    assert k == 1 ==> s * k == s;
  }

  /** The arithmetic of a climb in the last days of a month. */
  lemma {:induction false} ClimbArithmetic(
      n: int, d: int, k: int, s: int, a: int, j: int, x: int, j2: int, y: int)
    requires TwoDays(n, d, k, s, a, j, x, j2, y) && y > x && d >= 18
    ensures 2 <= k <= 13 && j2 == j
    ensures var b := j - a;
            && n + 1 <= k * b && j * n <= (k - 1) * (n - k - 1)
            && (s + a) * k <= j * n + n - k - 1 - k * b
  {
    ClimbIsLate(n, d, k, s, a, j, x, j2, y);
    SameGain(n, d, k, s, a, j, x, j2, y);
    Distribute(j, d);
    TwoDaysLeft(n, d, k, s, a, j, x, y);
    ShortfallIsLong(n, d, k, a, j, y);
    GainBound(n, d, k, s, j);
    PlanBound(n, d, k, s, a, j);
  }

  lemma {:induction false} PlanBound(n: int, d: int, k: int, s: int, a: int, j: int)
    requires n == d + k && s * k <= d * j + d - 1
    ensures (s + a) * k <= j * n + n - k - 1 - k * (j - a)
  {
    assert (s + a) * k == s * k + a * k;
    assert j * n == d * j + k * j;
    assert k * (j - a) == k * j - a * k;
  }

  lemma {:induction false} GainBound(n: int, d: int, k: int, s: int, j: int)
    requires n == d + k && k >= 2 && d >= 1
    requires (d + 1) * j <= s * (k - 1) && s * k <= d * j + d - 1
    ensures j * n <= (k - 1) * (n - k - 1)
  {
    MulMonotone(k, (d + 1) * j, s * (k - 1));
    MulMonotone(k - 1, s * k, d * j + d - 1);
    assert k * (s * (k - 1)) == (k - 1) * (s * k);
    assert k * ((d + 1) * j) == k * (d * j) + k * j;
    assert (k - 1) * (d * j + d - 1) == k * (d * j) - d * j + (k - 1) * (d - 1);
    assert j * n == d * j + k * j;
  }

  /** Whatever the length of the month and the days left, it leaves room for fifteen
      milliunits. */
  lemma {:induction false} RoomForFifteen(n: int, k: int, j: int, b: int, plan: int)
    requires 28 <= n <= 31 && 2 <= k <= 13 && b <= j
    requires n + 1 <= k * b && j * n <= (k - 1) * (n - k - 1)
    requires plan * k <= j * n + n - k - 1 - k * b
    ensures plan <= 15
  {
    assert k == 2 || k == 3 || k == 4 || k == 5 || k == 6 || k == 7
           || k == 8 || k == 9 || k == 10 || k == 11 || k == 12 || k == 13;
    MulMonotone(k, Min(16, plan), plan);
  }

  /** The blend climbs overnight only for plans of at most fifteen milliunits. */
  lemma {:induction false} ClimbIsSmall(spent: Money, anchor: Money, today: MonthClock, tomorrow: MonthClock)
    requires today.Valid() && tomorrow.Valid() && tomorrow == today.(day := today.day + 1)
    requires 0 <= spent <= anchor && Blend(spent, anchor, tomorrow) > Blend(spent, anchor, today)
    ensures anchor <= 15
  {
    hide Blend;
    var n, d, k, a := today.length, today.day, today.length - today.day, anchor - spent;
    var j, x := BlendExcess(spent, anchor, today);
    var j2, y := BlendExcess(spent, anchor, tomorrow);
    assert TwoDays(n, d, k, spent, a, j, x, j2, y);
    ClimbIsLate(n, d, k, spent, a, j, x, j2, y);
    if d >= 18 {
      ClimbArithmetic(n, d, k, spent, a, j, x, j2, y);
      RoomForFifteen(n, k, j, j - a, anchor);
    }
  }

  lemma {:induction false} NoClimb(spent: Money, anchor: Money, early: MonthClock, late: MonthClock)
    requires early.Valid() && late.Valid() && early.length == late.length && early.day <= late.day
    requires 0 <= spent <= anchor && anchor >= 16
    ensures Blend(spent, anchor, late) <= Blend(spent, anchor, early)
    decreases late.day
  {
    hide Blend;
    if early.day < late.day {
      var eve := late.(day := late.day - 1);
      NoClimb(spent, anchor, early, eve);
      if Blend(spent, anchor, late) > Blend(spent, anchor, eve) {
        ClimbIsSmall(spent, anchor, eve, late);
      }
    }
  }

  /** The projection of `c` is no higher on a later day of the month. */
  ghost predicate Quiets(c: CategorySpend, early: MonthClock, late: MonthClock) {
    early.Valid() && late.Valid() && early.length == late.length && early.day <= late.day ==>
      ProjectSpend(c, late) <= ProjectSpend(c, early)
  }

  /** The documented monotonicity holds of every category planned or spent at `bound` or
      more, on every pair of days of every month, exactly for bounds of sixteen milliunits
      and up. */
  lemma {:induction false} MonotoneFromIff(bound: Money)
    ensures (forall c: CategorySpend, early, late :: Anchor(c) >= bound ==> Quiets(c, early, late)) <==> bound >= 16
  {
    if bound >= 16 {
      forall c: CategorySpend, early, late | Anchor(c) >= bound ensures Quiets(c, early, late) {
        if early.Valid() && late.Valid() && early.length == late.length && early.day <= late.day {
          ProjectionBounds(c, early);
          ProjectionBounds(c, late);
          NoClimb(SpentMagnitude(c), Anchor(c), early, late);
        }
      }
    } else {
      QuietProjectionCanClimb();
      var c := CategorySpend("c", "c", 15, -12, 0, 0);
      assert Anchor(c) >= bound && !Quiets(c, MonthClock(19, 30), MonthClock(20, 30));
    }
  }
}
