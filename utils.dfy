/**
 * Helpers shared by the dashboard's components: page count, RSSI colour
 * classes and the relative-time buckets.
 */
module Utils {

  /** The colour family of a Tailwind colour utility. */
  datatype Hue = Green | Yellow | Red

  /** A Tailwind colour utility such as `text-green-600`: utility, hue and shade. */
  datatype ColorClass = ColorClass(utility: string, hue: Hue, shade: string)

  function HueName(h: Hue): string
  {
    match h
    case Green => "green"
    case Yellow => "yellow"
    case Red => "red"
  }

  /** The class name as it appears in the markup. */
  function ClassName(c: ColorClass): string
  {
    c.utility + "-" + HueName(c.hue) + "-" + c.shade
  }

  /** Signal quality a hue conveys: green is better than yellow, yellow better than red. */
  function Rank(h: Hue): nat
  {
    match h
    case Green => 2
    case Yellow => 1
    case Red => 0
  }

  // ---------------------------------------------------------------------------
  // `Math.max` and `Math.min`, on integers and on exact reals
  // ---------------------------------------------------------------------------

  function Max(a: int, b: int): int { if a >= b then a else b }

  function Min(a: int, b: int): int { if a <= b then a else b }

  function MaxReal(a: real, b: real): real { if a >= b then a else b }

  function MinReal(a: real, b: real): real { if a <= b then a else b }

  // ---------------------------------------------------------------------------
  // Page count
  // ---------------------------------------------------------------------------

  /** `Math.ceil(total / limit)`: the fewest pages of `limit` records that hold `total` records. */
  function CalculateTotalPages(total: int, limit: int): (n: int)
    requires total >= 0 && limit > 0
    ensures n >= 0
    ensures (n - 1) * limit < total <= n * limit
    ensures n == 0 <==> total == 0
  {
    var q := (total + limit - 1) / limit;
    var r := (total + limit - 1) % limit;
    assert total + limit - 1 == q * limit + r && 0 <= r < limit;
    assert (q - 1) * limit == q * limit - limit;
    q
  }

  /** Any page count that satisfies the ceiling bounds is the one computed. */
  lemma TotalPagesIsLeast(total: int, limit: int, n: int)
    requires total >= 0 && limit > 0
    requires (n - 1) * limit < total <= n * limit
    ensures n == CalculateTotalPages(total, limit)
  {
    var m := CalculateTotalPages(total, limit);
    if n < m {
      MulMonotone(n, m - 1, limit);
    } else if m < n {
      MulMonotone(m, n - 1, limit);
    }
  }

  lemma MulMonotone(a: int, b: int, k: int)
    requires a <= b && k > 0
    ensures a * k <= b * k
  {
    assert b * k - a * k == (b - a) * k;
  }

  // ---------------------------------------------------------------------------
  // RSSI colours
  // ---------------------------------------------------------------------------

  /** Text colour for an RSSI reading: green above -70 dBm, yellow above -85 dBm, red otherwise. */
  function GetRssiColor(rssi: real): (c: ColorClass)
    ensures c.utility == "text" && c.shade == "600"
    ensures c.hue == Green <==> rssi > -70.0
    ensures c.hue == Yellow <==> -85.0 < rssi <= -70.0
    ensures c.hue == Red <==> rssi <= -85.0
  {
    if rssi > -70.0 then ColorClass("text", Green, "600")
    else if rssi > -85.0 then ColorClass("text", Yellow, "600")
    else ColorClass("text", Red, "600")
  }

  /** Background colour for an RSSI reading, on its own copy of the same two thresholds. */
  function GetRssiBgColor(rssi: real): (c: ColorClass)
    ensures c.utility == "bg" && c.shade == "100"
    ensures c.hue == Green <==> rssi > -70.0
    ensures c.hue == Yellow <==> -85.0 < rssi <= -70.0
    ensures c.hue == Red <==> rssi <= -85.0
  {
    if rssi > -70.0 then ColorClass("bg", Green, "100")
    else if rssi > -85.0 then ColorClass("bg", Yellow, "100")
    else ColorClass("bg", Red, "100")
  }

  /** The text and background colours always belong to the same family. */
  lemma RssiColorsAgree(rssi: real)
    ensures GetRssiColor(rssi).hue == GetRssiBgColor(rssi).hue
    ensures ClassName(GetRssiColor(rssi)) in {"text-green-600", "text-yellow-600", "text-red-600"}
    ensures ClassName(GetRssiBgColor(rssi)) in {"bg-green-100", "bg-yellow-100", "bg-red-100"}
  {
    if rssi > -70.0 {
      assert ClassName(GetRssiColor(rssi)) == "text-green-600";
      assert ClassName(GetRssiBgColor(rssi)) == "bg-green-100";
    } else if rssi > -85.0 {
      assert ClassName(GetRssiColor(rssi)) == "text-yellow-600";
      assert ClassName(GetRssiBgColor(rssi)) == "bg-yellow-100";
    } else {
      assert ClassName(GetRssiColor(rssi)) == "text-red-600";
      assert ClassName(GetRssiBgColor(rssi)) == "bg-red-100";
    }
  }

  /** A stronger reading never gets a worse colour. */
  lemma RssiColorMonotone(weaker: real, stronger: real)
    requires weaker <= stronger
    ensures Rank(GetRssiColor(weaker).hue) <= Rank(GetRssiColor(stronger).hue)
  {
  }

  // ---------------------------------------------------------------------------
  // Relative time
  // ---------------------------------------------------------------------------

  const Minute: int := 60
  const Hour: int := 60 * 60
  const Day: int := 24 * 60 * 60
  const Week: int := 7 * 24 * 60 * 60

  /** The bucket `formatRelativeTime` chooses, with the count it prints. */
  datatype RelativeTime =
    | JustNow
    | MinutesAgo(count: nat)
    | HoursAgo(count: nat)
    | DaysAgo(count: nat)
    | WeeksAgo(count: nat)
    | MonthsAgo(count: nat)

  lemma DivDiv(a: int, b: int, c: int)
    requires a >= 0 && b > 0 && c > 0
    ensures a / b / c == a / (b * c)
  {
    var q := a / b / c;
    var r1 := a % b;
    var r2 := (a / b) % c;
    assert a == (a / b) * b + r1;
    assert a / b == q * c + r2;
    assert (q * c + r2) * b == q * c * b + r2 * b;
    assert q * c * b == q * (b * c);
    assert a == q * (b * c) + (r2 * b + r1);
    assert 0 <= r2 * b by {
      MulMonotone(0, r2, b);
    }
    assert r2 * b + r1 < b * c by {
      MulMonotone(r2, c - 1, b);
      assert (c - 1) * b == b * c - b;
    }
    DivUnique(a, b * c, q);
  }

  lemma DivUnique(a: int, d: int, q: int)
    requires d > 0 && q * d <= a < q * d + d
    ensures a / d == q
  {
    var q' := a / d;
    assert a == q' * d + a % d;
    if q' < q {
      MulMonotone(q' + 1, q, d);
    } else if q < q' {
      MulMonotone(q + 1, q', d);
    }
  }

  /**
   * The bucketing of `formatRelativeTime` over whole elapsed seconds
   * (negative for a timestamp in the future). Each step floors the
   * previous count, so the count is the elapsed time floored to the unit.
   */
  function RelativeBucket(elapsed: int): (r: RelativeTime)
    ensures r == JustNow <==> elapsed < Minute
    ensures r.MinutesAgo? <==> Minute <= elapsed < Hour
    ensures r.HoursAgo? <==> Hour <= elapsed < Day
    ensures r.DaysAgo? <==> Day <= elapsed < Week
    ensures r.WeeksAgo? <==> Week <= elapsed < 4 * Week
    ensures r.MonthsAgo? <==> elapsed >= 4 * Week
    ensures r.MinutesAgo? ==> 1 <= r.count <= 59 && r.count == elapsed / Minute
    ensures r.HoursAgo? ==> 1 <= r.count <= 23 && r.count == elapsed / Hour
    ensures r.DaysAgo? ==> 1 <= r.count <= 6 && r.count == elapsed / Day
    ensures r.WeeksAgo? ==> 1 <= r.count <= 3 && r.count == elapsed / Week
    ensures r.MonthsAgo? ==> r.count == elapsed / Day / 30
  {
    if elapsed < 60 then JustNow
    else
      var minutes := elapsed / 60;
      if minutes < 60 then MinutesAgo(minutes)
      else
        var hours := minutes / 60;
        DivDiv(elapsed, 60, 60);
        if hours < 24 then HoursAgo(hours)
        else
          var days := hours / 24;
          DivDiv(elapsed, 60 * 60, 24);
          if days < 7 then DaysAgo(days)
          else
            var weeks := days / 7;
            DivDiv(elapsed, 24 * 60 * 60, 7);
            if weeks < 4 then WeeksAgo(weeks)
            else MonthsAgo(days / 30)
  }

  predicate IsDigit(c: char)
  {
    '0' <= c <= '9'
  }

  /** The number a string of decimal digits denotes, most significant digit first. */
  function DigitsValue(s: string): int
  {
    if s == [] then 0 else DigitsValue(s[..|s| - 1]) * 10 + (s[|s| - 1] as int - '0' as int)
  }

  /**
   * `${n}` for a count: decimal digits that denote `n`, with no leading
   * zero except for zero itself.
   */
  function Decimal(n: nat): (s: string)
    ensures |s| >= 1
    ensures forall i :: 0 <= i < |s| ==> IsDigit(s[i])
    ensures DigitsValue(s) == n
    ensures s[0] == '0' <==> n == 0
  {
    var digit := ('0' as int + n % 10) as char;
    if n < 10 then [digit]
    else
      var prefix := Decimal(n / 10);
      var s := prefix + [digit];
      assert s[..|s| - 1] == prefix;
      s
  }

  function Render(r: RelativeTime): string
  {
    match r
    case JustNow => "Az önce"
    case MinutesAgo(n) => Decimal(n) + " dakika önce"
    case HoursAgo(n) => Decimal(n) + " saat önce"
    case DaysAgo(n) => Decimal(n) + " gün önce"
    case WeeksAgo(n) => Decimal(n) + " hafta önce"
    case MonthsAgo(n) => Decimal(n) + " ay önce"
  }

  /** `formatRelativeTime` as written, after the clock read. */
  function FormatRelativeTime(elapsed: int): (s: string)
    ensures s == "Az önce" <==> elapsed < Minute
  {
    Render(RelativeBucket(elapsed))
  }

  /**
   * The month bucket starts at four weeks (28 days) but divides the days
   * by 30, so 28 and 29 elapsed days print a count of zero months.
   */
  lemma MonthBucketShowsZero(elapsed: int)
    requires 28 * Day <= elapsed < 30 * Day
    ensures RelativeBucket(elapsed) == MonthsAgo(0)
    ensures FormatRelativeTime(elapsed) == "0 ay önce"
  {
    DivDiv(elapsed, Day, 30);
    DivUnique(elapsed, Day * 30, 0);
  }

  /**
   * The bucketing with the week bucket running up to 30 days, so that
   * the month bucket, and every other bucket, prints a count of at least one.
   */
  function RelativeBucketCorrected(elapsed: int): (r: RelativeTime)
    ensures r == JustNow <==> elapsed < Minute
    ensures !r.JustNow? ==> r.count >= 1
    ensures r.WeeksAgo? ==> 1 <= r.count <= 4
    ensures r.MonthsAgo? <==> elapsed >= 30 * Day
    ensures elapsed < 28 * Day ==> r == RelativeBucket(elapsed)
  {
    var r := RelativeBucket(elapsed);
    if r.MonthsAgo? && elapsed < 30 * Day then
      DivUnique(elapsed, Week, 4);
      WeeksAgo(4)
    else if r.MonthsAgo? then
      DivDiv(elapsed, Day, 30);
      r
    else r
  }

  /**
   * The relative time on the corrected buckets: "Az önce" exactly for less
   * than a minute, and the same text as written below 28 days.
   */
  function FormatRelativeTimeCorrected(elapsed: int): (s: string)
    ensures s == "Az önce" <==> elapsed < Minute
    ensures elapsed < 28 * Day ==> s == FormatRelativeTime(elapsed)
  {
    Render(RelativeBucketCorrected(elapsed))
  }
}
