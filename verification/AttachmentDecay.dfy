// packages/shared/src/attachment-decay.ts: size-based expiry and renewal on access.
// Instants are milliseconds; sizes are reals; the natural logarithm is a parameter.
module AttachmentDecay {
  import opened Common

  const MIN_MB: real := 5.0
  const MAX_MB: real := 500.0
  const PLAN_MAX_MB: real := 500.0
  const MIN_DAYS: int := 14
  const MAX_DAYS: int := 365 * 3
  const MIN_WINDOW_DAYS: int := 7
  const MAX_WINDOW_DAYS: int := 30
  const MIN_THRESHOLD_DAYS: int := 3
  const MAX_THRESHOLD_DAYS: int := 14
  const MS_PER_DAY: int := 1000 * 60 * 60 * 24

  /** What is used of `Math.log`. */
  ghost predicate IsLog(ln: real -> real) {
    ln(1.0) == 0.0 && forall x, y :: 0.0 < x < y ==> ln(x) < ln(y)
  }

  function LogFrac(ln: real -> real, sizeMB: real): real
    requires ln(MAX_MB / MIN_MB) != 0.0
  {
    ln(sizeMB / MIN_MB) / ln(MAX_MB / MIN_MB)
  }

  /** The lifetime in days, None above the upload cap; `curve` blends the linear and the logarithmic fraction. */
  function LifetimeDays(ln: real -> real, sizeMB: real, curve: real): Option<int>
    requires ln(MAX_MB / MIN_MB) != 0.0
  {
    if sizeMB > PLAN_MAX_MB then None
    else if sizeMB <= MIN_MB then Some(MAX_DAYS)
    else if sizeMB >= MAX_MB then Some(MIN_DAYS)
    else
      var linearFrac := (sizeMB - MIN_MB) / (MAX_MB - MIN_MB);
      var blend := Weighted(1.0 - curve, curve, linearFrac, LogFrac(ln, sizeMB));
      Some(Round(MAX_DAYS as real - blend * (MAX_DAYS - MIN_DAYS) as real))
  }

  function RenewalWindowDays(ln: real -> real, sizeMB: real): int
    requires ln(MAX_MB / MIN_MB) != 0.0
  {
    if sizeMB <= MIN_MB then MAX_WINDOW_DAYS
    else if sizeMB >= MAX_MB then MIN_WINDOW_DAYS
    else Round(MAX_WINDOW_DAYS as real - LogFrac(ln, sizeMB) * (MAX_WINDOW_DAYS - MIN_WINDOW_DAYS) as real)
  }

  function RenewalThresholdDays(windowDays: int): int {
    Max(MIN_THRESHOLD_DAYS, Min(MAX_THRESHOLD_DAYS, Round(windowDays as real / 2.0)))
  }

  function WindowMs(ln: real -> real, sizeMB: real): int
    requires ln(MAX_MB / MIN_MB) != 0.0
  {
    RenewalWindowDays(ln, sizeMB) * MS_PER_DAY
  }

  function ThresholdMs(ln: real -> real, sizeMB: real): int
    requires ln(MAX_MB / MIN_MB) != 0.0
  {
    RenewalThresholdDays(RenewalWindowDays(ln, sizeMB)) * MS_PER_DAY
  }

  /** The new expiry on an access at `now`, if the access renews. */
  function MaybeRenewExpiry(ln: real -> real, currentExpiry: int, now: int, sizeMB: real): Option<int>
    requires ln(MAX_MB / MIN_MB) != 0.0
  {
    var remainingMs := currentExpiry - now;
    if remainingMs > ThresholdMs(ln, sizeMB) then None
    else if remainingMs <= 0 then None
    else
      var newExpiry := now + WindowMs(ln, sizeMB);
      if newExpiry <= currentExpiry then None else Some(newExpiry)
  }

  /** The expiry in force after an access. */
  function Accessed(ln: real -> real, expiry: int, now: int, sizeMB: real): int
    requires ln(MAX_MB / MIN_MB) != 0.0
  {
    var renewed := MaybeRenewExpiry(ln, expiry, now, sizeMB);
    if renewed.Some? then renewed.value else expiry
  }

  // ---- Ranges --------------------------------------------------------------------

  lemma LogNonzero(ln: real -> real)
    requires IsLog(ln)
    ensures ln(MAX_MB / MIN_MB) > 0.0
  {
  }

  lemma QuotientGrows(a: real, b: real, d: real)
    requires a < b && d > 0.0
    ensures a / d < b / d
  {
  }

  lemma QuotientInUnit(a: real, b: real)
    requires 0.0 < a < b
    ensures 0.0 < a / b < 1.0
  {
    QuotientGrows(0.0, a, b);
    QuotientGrows(a, b, b);
    assert b / b == 1.0;
  }

  /** Strictly between the size limits the logarithmic fraction lies strictly between 0 and 1. */
  lemma LogFracInUnit(ln: real -> real, sizeMB: real)
    requires IsLog(ln) && MIN_MB < sizeMB < MAX_MB
    ensures ln(MAX_MB / MIN_MB) != 0.0 && 0.0 < LogFrac(ln, sizeMB) < 1.0
  {
    LogNonzero(ln);
    QuotientGrows(MIN_MB, sizeMB, MIN_MB);
    QuotientGrows(sizeMB, MAX_MB, MIN_MB);
    QuotientInUnit(ln(sizeMB / MIN_MB), ln(MAX_MB / MIN_MB));
  }

  lemma LogFracGrows(ln: real -> real, a: real, b: real)
    requires IsLog(ln) && MIN_MB < a < b < MAX_MB
    ensures ln(MAX_MB / MIN_MB) != 0.0 && LogFrac(ln, a) < LogFrac(ln, b)
  {
    LogNonzero(ln);
    QuotientGrows(MIN_MB, a, MIN_MB);
    QuotientGrows(a, b, MIN_MB);
    QuotientGrows(ln(a / MIN_MB), ln(b / MIN_MB), ln(MAX_MB / MIN_MB));
  }

  /** The threshold always lies below the window, for every size. */
  lemma ThresholdBelowWindow(ln: real -> real, sizeMB: real)
    requires IsLog(ln)
    ensures ln(MAX_MB / MIN_MB) != 0.0
    ensures MIN_WINDOW_DAYS <= RenewalWindowDays(ln, sizeMB) <= MAX_WINDOW_DAYS
    ensures 0 < ThresholdMs(ln, sizeMB) < WindowMs(ln, sizeMB)
  {
    LogNonzero(ln);
    if MIN_MB < sizeMB < MAX_MB {
      LogFracInUnit(ln, sizeMB);
    }
  }

  // ---- Lifetimes --------------------------------------------------------------------

  function Weighted(p: real, q: real, a: real, b: real): real {
    p * a + q * b
  }

  lemma WeightedGrows(p: real, q: real, a: real, b: real, c: real, d: real)
    requires p >= 0.0 && q >= 0.0 && a <= c && b <= d
    ensures Weighted(p, q, a, b) <= Weighted(p, q, c, d)
  {
  }

  lemma WeightedInUnit(p: real, q: real, a: real, b: real)
    requires p >= 0.0 && q >= 0.0 && p + q == 1.0 && 0.0 <= a <= 1.0 && 0.0 <= b <= 1.0
    ensures 0.0 <= Weighted(p, q, a, b) <= 1.0
  {
    WeightedGrows(p, q, 0.0, 0.0, a, b);
    WeightedGrows(p, q, a, b, 1.0, 1.0);
  }

  lemma LifetimeInRange(ln: real -> real, sizeMB: real, curve: real)
    requires IsLog(ln) && 0.0 <= curve <= 1.0
    ensures ln(MAX_MB / MIN_MB) != 0.0
    ensures LifetimeDays(ln, sizeMB, curve).None? <==> sizeMB > PLAN_MAX_MB
    ensures LifetimeDays(ln, sizeMB, curve).Some? ==> MIN_DAYS <= LifetimeDays(ln, sizeMB, curve).value <= MAX_DAYS
  {
    LogNonzero(ln);
    if MIN_MB < sizeMB < MAX_MB {
      LogFracInUnit(ln, sizeMB);
      QuotientInUnit(sizeMB - MIN_MB, MAX_MB - MIN_MB);
      WeightedInUnit(1.0 - curve, curve, (sizeMB - MIN_MB) / (MAX_MB - MIN_MB), LogFrac(ln, sizeMB));
    }
  }

  /** A larger file never lives longer. */
  lemma LargerNeverLivesLonger(ln: real -> real, a: real, b: real, curve: real)
    requires IsLog(ln) && 0.0 <= curve <= 1.0 && a <= b <= PLAN_MAX_MB
    ensures ln(MAX_MB / MIN_MB) != 0.0
    ensures LifetimeDays(ln, a, curve).Some? && LifetimeDays(ln, b, curve).Some?
    ensures LifetimeDays(ln, b, curve).value <= LifetimeDays(ln, a, curve).value
  {
    LogNonzero(ln);
    LifetimeInRange(ln, a, curve);
    LifetimeInRange(ln, b, curve);
    if MIN_MB < a < b < MAX_MB {
      LogFracGrows(ln, a, b);
      QuotientGrows(a - MIN_MB, b - MIN_MB, MAX_MB - MIN_MB);
      WeightedGrows(1.0 - curve, curve, (a - MIN_MB) / (MAX_MB - MIN_MB), LogFrac(ln, a),
                    (b - MIN_MB) / (MAX_MB - MIN_MB), LogFrac(ln, b));
    }
  }

  // ---- The formulas --------------------------------------------------------------------

  /** `days` is `exact` to the nearest day, the later one in the middle. */
  predicate Nearest(days: int, exact: real) {
    exact - 0.5 < days as real <= exact + 0.5
  }

  /**
   * From 5 MB to 500 MB a lifetime falls from three years to two weeks, and the window from 30 days to a week,
   * along the blend of the linear and the logarithmic share of the way. The threshold is half the window, at most
   * 14 days; its floor of 3 days never decides.
   */
  lemma DaysFollowSize(ln: real -> real, sizeMB: real, curve: real)
    requires IsLog(ln)
    ensures ln(500.0 / 5.0) != 0.0
    ensures var days, window := LifetimeDays(ln, sizeMB, curve), RenewalWindowDays(ln, sizeMB);
      var logarithmic := ln(sizeMB / 5.0) / ln(500.0 / 5.0);
      && (sizeMB <= 5.0 ==> days == Some(3 * 365) && window == 30)
      && (5.0 < sizeMB < 500.0 ==>
            && Nearest(window, 30.0 - logarithmic * 23.0)
            && days.Some?
            && Nearest(days.value,
                       1095.0 - ((1.0 - curve) * ((sizeMB - 5.0) / 495.0) + curve * logarithmic) * 1081.0))
      && (sizeMB == 500.0 ==> days == Some(14))
      && (sizeMB >= 500.0 ==> window == 7)
      && WindowMs(ln, sizeMB) == window * 86_400_000
      && ThresholdMs(ln, sizeMB) == (if window >= 29 then 14 else (window + 1) / 2) * 86_400_000
  {
    LogNonzero(ln);
    ThresholdBelowWindow(ln, sizeMB);
    HalfWindow(RenewalWindowDays(ln, sizeMB));
    if MIN_MB < sizeMB < MAX_MB {
      LifetimeInterpolates(ln, sizeMB, curve);
      WindowInterpolates(ln, sizeMB);
    }
  }

  lemma LifetimeInterpolates(ln: real -> real, sizeMB: real, curve: real)
    requires ln(500.0 / 5.0) != 0.0 && 5.0 < sizeMB < 500.0
    ensures LifetimeDays(ln, sizeMB, curve).Some?
    ensures Nearest(LifetimeDays(ln, sizeMB, curve).value,
                    1095.0 - ((1.0 - curve) * ((sizeMB - 5.0) / 495.0)
                              + curve * (ln(sizeMB / 5.0) / ln(500.0 / 5.0))) * 1081.0)
  {
    var blend := Weighted(1.0 - curve, curve, (sizeMB - 5.0) / 495.0, LogFrac(ln, sizeMB));
    RoundsHalfUp(1095.0 - blend * 1081.0);
  }

  lemma WindowInterpolates(ln: real -> real, sizeMB: real)
    requires ln(500.0 / 5.0) != 0.0 && 5.0 < sizeMB < 500.0
    ensures Nearest(RenewalWindowDays(ln, sizeMB), 30.0 - ln(sizeMB / 5.0) / ln(500.0 / 5.0) * 23.0)
  {
    RoundsHalfUp(30.0 - LogFrac(ln, sizeMB) * 23.0);
  }

  lemma HalfWindow(windowDays: int)
    requires MIN_WINDOW_DAYS <= windowDays <= MAX_WINDOW_DAYS
    ensures RenewalThresholdDays(windowDays) == if windowDays >= 29 then 14 else (windowDays + 1) / 2
  {
    RoundsHalfUp(windowDays as real / 2.0);
  }

  // ---- Renewal over runs ---------------------------------------------------------------

  /** Accesses in time order. */
  function AfterAccesses(ln: real -> real, expiry: int, times: seq<int>, sizeMB: real): int
    requires ln(MAX_MB / MIN_MB) != 0.0
  {
    if times == [] then expiry
    else Accessed(ln, AfterAccesses(ln, expiry, times[..|times| - 1], sizeMB), times[|times| - 1], sizeMB)
  }

  /** Consecutive accesses are at most `gap` apart. */
  ghost predicate GapsWithin(times: seq<int>, gap: int) {
    forall i :: 0 < i < |times| ==> times[i - 1] <= times[i] <= times[i - 1] + gap
  }

  /** The only-extend guard never decides: an access that is close enough to expiry always renews. */
  lemma ExtendGuardNeverFires(ln: real -> real, expiry: int, now: int, sizeMB: real)
    requires IsLog(ln)
    ensures ln(MAX_MB / MIN_MB) != 0.0
    ensures MaybeRenewExpiry(ln, expiry, now, sizeMB)
        == if 0 < expiry - now <= ThresholdMs(ln, sizeMB) then Some(now + WindowMs(ln, sizeMB)) else None
  {
    LogNonzero(ln);
    ThresholdBelowWindow(ln, sizeMB);
  }

  /**
   * A used file stays alive: first accessed before its expiry and then at gaps of at most its threshold, it is
   * alive through the next threshold, never loses lifetime, and never outlasts its last access by more than
   * one window unless its first expiry already did.
   */
  lemma {:induction false} UsedFilesStayAlive(ln: real -> real, expiry: int, times: seq<int>, sizeMB: real)
    requires IsLog(ln) && times != [] && times[0] < expiry
    requires ln(MAX_MB / MIN_MB) != 0.0 && GapsWithin(times, ThresholdMs(ln, sizeMB))
    ensures var e := AfterAccesses(ln, expiry, times, sizeMB);
      && times[|times| - 1] + ThresholdMs(ln, sizeMB) < e
      && AfterAccesses(ln, expiry, times[..|times| - 1], sizeMB) <= e
      && times[|times| - 1] < AfterAccesses(ln, expiry, times[..|times| - 1], sizeMB)
      && e <= Max(expiry, times[|times| - 1] + WindowMs(ln, sizeMB))
    decreases |times|
  {
    var front, now := times[..|times| - 1], times[|times| - 1];
    ThresholdBelowWindow(ln, sizeMB);
    ExtendGuardNeverFires(ln, AfterAccesses(ln, expiry, front, sizeMB), now, sizeMB);
    if front != [] {
      UsedFilesStayAlive(ln, expiry, front, sizeMB);
    }
  }

  /** The gap is the most that can be promised: one millisecond past the threshold can find the file expired. */
  lemma LongerGapsCanExpire(ln: real -> real, now: int, sizeMB: real)
    requires IsLog(ln)
    ensures ln(MAX_MB / MIN_MB) != 0.0
    ensures var expiry := now + ThresholdMs(ln, sizeMB) + 1;
      Accessed(ln, expiry, now, sizeMB) == expiry && MaybeRenewExpiry(ln, expiry, expiry, sizeMB).None?
  {
  }
}
