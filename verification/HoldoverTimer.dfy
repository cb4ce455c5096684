/** Linear holdover drift and the timers derived from it (pkg/dpll/dpll.go, pkg/daemon/daemon.go). */
module HoldoverTimer {
  import opened PtpTypes
  import opened Text

  /** math.Round: to the nearest integer, halves away from zero. */
  function Round(x: real): int {
    if x >= 0.0 then (x + 0.5).Floor else -(-x + 0.5).Floor
  }

  /** The slope of a DPLL that may drift `max` nanoseconds in `timeout` seconds. */
  function Slope(max: nat, timeout: nat): real
    requires timeout > 0
  {
    max as real / timeout as real
  }

  /** The offset the holdover loop computes at a tick. */
  function Drift(max: nat, timeout: nat, seconds: nat): int
    requires timeout > 0
  {
    Round(Slope(max, timeout) * seconds as real)
  }

  /** The time to reach the in-spec limit, as NewDpll and CalculateTimer compute it. */
  function InSpecTimer(max: nat, timeout: nat, inSpec: nat): int
    requires timeout > 0 && max > 0
  {
    assert Slope(max, timeout) > 0.0 by { Multiply(max as real, timeout as real); }
    Round(inSpec as real / Slope(max, timeout))
  }

  /** The first second whose drift is out of spec: T(2S+1)/(2M), rounded up. */
  function FirstOutOfSpec(max: nat, timeout: nat, inSpec: nat): int
    requires max > 0
  {
    (timeout * (2 * inSpec + 1) + 2 * max - 1) / (2 * max)
  }

  function Min(a: int, b: int): int {
    if a <= b then a else b
  }

  // ---------------------------------------------------------------- real arithmetic

  lemma {:induction false} Multiply(a: real, b: real)
    requires b > 0.0
    ensures a / b * b == a
    ensures a > 0.0 ==> a / b > 0.0
    ensures a >= 0.0 ==> a / b >= 0.0
  {}

  lemma {:induction false} MultiplyBoth(x: real, y: real, b: real)
    requires b > 0.0
    ensures x >= y <==> x * b >= y * b
  {}

  lemma {:induction false} ProductAsReal(a: int, b: int)
    ensures a as real * b as real == (a * b) as real
  {}

  /** A slope of m/t, k seconds on. */
  lemma {:induction false} SlopeTimes(m: real, t: real, k: real)
    requires m >= 0.0 && t > 0.0 && k >= 0.0
    ensures m / t * k >= 0.0 && m / t * k * t == m * k
  {
    Multiply(m, t);
    var slope := m / t;
    assert slope * k * t == slope * t * k;
  }

  lemma {:induction false} RoundExceeds(x: real, limit: nat)
    requires x >= 0.0
    ensures Round(x) > limit <==> x >= limit as real + 0.5
  {}

  lemma {:induction false} DriftCompared(max: nat, timeout: nat, inSpec: nat, seconds: nat)
    requires timeout > 0
    ensures Drift(max, timeout, seconds) > inSpec <==>
            max as real * seconds as real >= (inSpec as real + 0.5) * timeout as real
  {
    var m, t, k, limit := max as real, timeout as real, seconds as real, inSpec as real + 0.5;
    SlopeTimes(m, t, k);
    var x := m / t * k;
    RoundExceeds(x, inSpec);
    MultiplyBoth(x, limit, t);
  }

  lemma {:induction false} LimitTimes(inSpec: nat, timeout: nat)
    ensures (inSpec as real + 0.5) * timeout as real == (inSpec * timeout) as real + timeout as real / 2.0
    ensures timeout * (2 * inSpec + 1) == 2 * (inSpec * timeout) + timeout
  {
    ProductAsReal(inSpec, timeout);
  }

  lemma {:induction false} Doubled(p: int, q: int, t: int)
    ensures p as real >= q as real + t as real / 2.0 <==> 2 * p >= 2 * q + t
  {}

  /** A drift is out of spec exactly from T(2S+1)/(2M) seconds on. */
  lemma {:induction false} DriftExceeds(max: nat, timeout: nat, inSpec: nat, seconds: nat)
    requires timeout > 0 && max > 0
    ensures Drift(max, timeout, seconds) > inSpec <==> 2 * (max * seconds) >= timeout * (2 * inSpec + 1)
  {
    DriftCompared(max, timeout, inSpec, seconds);
    ProductAsReal(max, seconds);
    LimitTimes(inSpec, timeout);
    Doubled(max * seconds, inSpec * timeout, timeout);
  }

  lemma {:induction false} InverseSlope(s: real, m: real, t: real)
    requires s >= 0.0 && m > 0.0 && t > 0.0
    ensures m / t > 0.0 && s / (m / t) >= 0.0 && s / (m / t) * m == s * t
  {
    Multiply(m, t);
    var slope := m / t;
    Multiply(s, slope);
    assert s / slope * (slope * t) == s * t;
  }

  lemma {:induction false} Scale(x: real, r: real, m: real, p: real)
    requires m > 0.0 && r <= x + 0.5 < r + 1.0 && x * m == p
    ensures r * m <= p + m / 2.0 < r * m + m
  {
    MultiplyBoth(x + 0.5, r, m);
    MultiplyBoth(x + 0.5, r + 1.0, m);
  }

  /** Rounding the in-spec time: |S*T/M - timer| is at most a half, and a half rounds up. */
  lemma {:induction false} TimerRounds(max: nat, timeout: nat, inSpec: nat)
    requires timeout > 0 && max > 0
    ensures var timer := InSpecTimer(max, timeout, inSpec);
            timer >= 0 && 2 * (max * timer) - max <= 2 * (timeout * inSpec) < 2 * (max * timer) + max
  {
    var m, t, s := max as real, timeout as real, inSpec as real;
    InverseSlope(s, m, t);
    RoundScaled(s / (m / t), s * t, m);
    IntegerBounds(max, InSpecTimer(max, timeout, inSpec), timeout, inSpec);
  }

  lemma {:induction false} RoundScaled(x: real, p: real, m: real)
    requires x >= 0.0 && m > 0.0 && x * m == p
    ensures Round(x) >= 0
    ensures Round(x) as real * m <= p + m / 2.0 < Round(x) as real * m + m
  {
    RoundNearest(x);
    Scale(x, Round(x) as real, m, p);
  }

  lemma {:induction false} RoundNearest(x: real)
    requires x >= 0.0
    ensures Round(x) >= 0 && Round(x) as real <= x + 0.5 < Round(x) as real + 1.0
  {}

  lemma {:induction false} IntegerBounds(max: nat, timer: int, timeout: nat, inSpec: nat)
    requires timer as real * max as real <= inSpec as real * timeout as real + max as real / 2.0
    requires inSpec as real * timeout as real + max as real / 2.0 < timer as real * max as real + max as real
    ensures 2 * (max * timer) - max <= 2 * (timeout * inSpec) < 2 * (max * timer) + max
  {
    ProductAsReal(timer, max);
    ProductAsReal(inSpec, timeout);
  }

  lemma {:induction false} CeilDiv(a: nat, b: nat, k: int)
    requires b > 0
    ensures k >= (a + b - 1) / b <==> k * b >= a
  {
    var q := (a + b - 1) / b;
    assert q * b <= a + b - 1 < q * b + b;
    if k >= q { assert k * b >= q * b; }
    if k <= q - 1 { assert k * b <= (q - 1) * b == q * b - b; }
  }

  // ---------------------------------------------------------------- when holdover ends

  /** Drift is out of spec exactly from FirstOutOfSpec on. */
  lemma {:induction false} OutOfSpecFrom(max: nat, timeout: nat, inSpec: nat, seconds: nat)
    requires timeout > 0 && max > 0
    ensures Drift(max, timeout, seconds) > inSpec <==> seconds >= FirstOutOfSpec(max, timeout, inSpec)
    ensures FirstOutOfSpec(max, timeout, inSpec) > 0
  {
    DriftExceeds(max, timeout, inSpec, seconds);
    CeilDiv(timeout * (2 * inSpec + 1), 2 * max, seconds);
    CeilDiv(timeout * (2 * inSpec + 1), 2 * max, 0);
    assert timeout * (2 * inSpec + 1) > 0;
    assert seconds * (2 * max) == 2 * (max * seconds);
  }

  lemma {:induction false} Products(max: nat, a: int, b: int)
    ensures max * (a - b) == max * a - max * b
    ensures a <= b - 1 ==> max * a <= max * b - max
    ensures a * (2 * max) == 2 * (max * a) && (a - 1) * (2 * max) == 2 * (max * a) - 2 * max
  {
    if a <= b - 1 { assert max * a <= max * (b - 1) == max * b - max; }
  }

  lemma {:induction false} FirstBounds(max: nat, timeout: nat, inSpec: nat)
    requires max > 0
    ensures var p := max * FirstOutOfSpec(max, timeout, inSpec);
            2 * p - 2 * max < 2 * (timeout * inSpec) + timeout <= 2 * p
  {
    var first, a := FirstOutOfSpec(max, timeout, inSpec), timeout * (2 * inSpec + 1);
    assert a == 2 * (timeout * inSpec) + timeout;
    CeilDiv(a, 2 * max, first);
    CeilDiv(a, 2 * max, first - 1);
    Products(max, first, first);
  }

  /** The in-spec timer never passes the first out-of-spec second and trails it by less than T/(2M) + 3/2. */
  lemma {:induction false} TimerTrails(max: nat, timeout: nat, inSpec: nat)
    requires timeout > 0 && max > 0
    ensures var timer, first := InSpecTimer(max, timeout, inSpec), FirstOutOfSpec(max, timeout, inSpec);
            timer <= first && 2 * (max * (first - timer)) < timeout + 3 * max
  {
    TimerRounds(max, timeout, inSpec);
    FirstBounds(max, timeout, inSpec);
    Products(max, FirstOutOfSpec(max, timeout, inSpec), InSpecTimer(max, timeout, inSpec));
  }

  /** --ts2phc.holdover, when frequency is not traceable. */
  function Ts2phcHoldover(max: nat, timeout: nat, inSpec: nat): int
    requires timeout > 0 && max > 0
  {
    Min(InSpecTimer(max, timeout, inSpec), timeout)
  }

  lemma {:induction false} CappedGap(max: nat, timer: int, first: int, timeout: int, bound: int)
    requires timer <= first && 2 * (max * (first - timer)) < bound
    ensures Min(timer, timeout) <= Min(timeout, first)
    ensures 2 * (max * (Min(timeout, first) - Min(timer, timeout))) < bound
  {
    var gap, capped := first - timer, Min(timeout, first) - Min(timer, timeout);
    assert 0 <= capped <= gap;
    assert max * capped <= max * gap;
  }

  /** The ts2phc holdover never outlasts the DPLL holdover, and stops less than T/(2M) + 3/2 seconds before it. */
  lemma {:induction false} Ts2phcEndsFirst(max: nat, timeout: nat, inSpec: nat)
    requires timeout > 0 && max > 0
    ensures var option, end := Ts2phcHoldover(max, timeout, inSpec), Min(timeout, FirstOutOfSpec(max, timeout, inSpec));
            option <= end && 2 * (max * (end - option)) < timeout + 3 * max
  {
    TimerTrails(max, timeout, inSpec);
    CappedGap(max, InSpecTimer(max, timeout, inSpec), FirstOutOfSpec(max, timeout, inSpec), timeout, timeout + 3 * max);
  }

  // ---------------------------------------------------------------- settings of a profile

  const MAX_OFFSET_KEY := "LocalMaxHoldoverOffSet"
  const TIMEOUT_KEY := "LocalHoldoverTimeout"
  const IN_SPEC_KEY := "MaxInSpecOffset"
  const DEFAULT_MAX_OFFSET := 1500
  const DEFAULT_TIMEOUT := 14400
  const DEFAULT_IN_SPEC := 100

  /** strconv.ParseUint(v, 10, 64) */
  function ParseUint64(v: string): Option<nat> {
    match ParseUint(v, Ten)
    case Some(n) => if n < 0x1_0000_0000_0000_0000 then Some(n) else None
    case None => None
  }

  /** A setting counts only when it is present and parses; otherwise the default stays. */
  function Setting(settings: map<string, string>, key: string, default: nat): nat {
    if key in settings && ParseUint64(settings[key]).Some? then ParseUint64(settings[key]).value else default
  }

  /**
   * The timer for any settings. A timeout of zero makes the slope infinite and the timer zero; a maximum offset of zero
   * leaves the conversion of an infinite or undefined quotient to the platform.
   */
  function TimerFor(max: nat, timeout: nat, inSpec: nat): Option<int> {
    if max == 0 then None else if timeout == 0 then Some(0) else Some(InSpecTimer(max, timeout, inSpec))
  }

  /** CalculateTimer: whatever order the settings are visited in, each value is the profile's own or the default. */
  method CalculateTimer(settings: map<string, string>) returns (inSpec: nat, max: nat, timeout: nat, timer: Option<int>)
    ensures max == Setting(settings, MAX_OFFSET_KEY, DEFAULT_MAX_OFFSET)
    ensures timeout == Setting(settings, TIMEOUT_KEY, DEFAULT_TIMEOUT)
    ensures inSpec == Setting(settings, IN_SPEC_KEY, DEFAULT_IN_SPEC)
    ensures timer == TimerFor(max, timeout, inSpec)
  {
    max, timeout, inSpec := DEFAULT_MAX_OFFSET, DEFAULT_TIMEOUT, DEFAULT_IN_SPEC;
    var todo := settings.Keys;
    while todo != {}
      invariant todo <= settings.Keys
      invariant max == if MAX_OFFSET_KEY in todo then DEFAULT_MAX_OFFSET else Setting(settings, MAX_OFFSET_KEY, DEFAULT_MAX_OFFSET)
      invariant timeout == if TIMEOUT_KEY in todo then DEFAULT_TIMEOUT else Setting(settings, TIMEOUT_KEY, DEFAULT_TIMEOUT)
      invariant inSpec == if IN_SPEC_KEY in todo then DEFAULT_IN_SPEC else Setting(settings, IN_SPEC_KEY, DEFAULT_IN_SPEC)
      decreases todo
    {
      var k :| k in todo;
      todo := todo - {k};
      var n := ParseUint64(settings[k]);
      if n.None? { continue; }
      if k == MAX_OFFSET_KEY { max := n.value; }
      if k == TIMEOUT_KEY { timeout := n.value; }
      if k == IN_SPEC_KEY { inSpec := n.value; }
    }
    if max == 0 {
      timer := None;
    } else if timeout == 0 {
      timer := Some(0);
    } else {
      timer := Some(InSpecTimer(max, timeout, inSpec));
    }
  }

  // ---------------------------------------------------------------- what a profile sets

  lemma {:induction false} ParsesDigits(s: string)
    ensures DigitsValue(s, Ten).Some? <==> forall i :: 0 <= i < |s| ==> '0' <= s[i] <= '9'
  {
    if s != [] {
      var n := |s| - 1;
      ParsesDigits(s[..n]);
      assert (forall i :: 0 <= i < |s| ==> '0' <= s[i] <= '9') <==>
             (forall i :: 0 <= i < n ==> '0' <= s[..n][i] <= '9') && '0' <= s[n] <= '9';
    }
  }

  /** A setting counts exactly when it is there, consists of digits and fits 64 bits; a printed number is its value. */
  lemma {:induction false} SettingIs(settings: map<string, string>, key: string, default: nat, n: nat)
    ensures key in settings && settings[key] == Digits(n, Ten) && n < 0x1_0000_0000_0000_0000 ==>
              Setting(settings, key, default) == n
    ensures key in settings && settings[key] == Digits(n, Ten) && n >= 0x1_0000_0000_0000_0000 ==>
              Setting(settings, key, default) == default
    ensures key !in settings || settings[key] == [] || (exists i :: 0 <= i < |settings[key]| && !('0' <= settings[key][i] <= '9')) ==>
              Setting(settings, key, default) == default
  {
    DigitsRoundTrip(n, Ten);
    if key in settings { ParsesDigits(settings[key]); }
  }

  /** The profile's own names and defaults, and the timer they give: S*T/M, rounded half up. */
  lemma {:induction false} ProfileTimer(settings: map<string, string>)
    ensures var max := Setting(settings, "LocalMaxHoldoverOffSet", 1500);
            var timeout, inSpec := Setting(settings, "LocalHoldoverTimeout", 14400), Setting(settings, "MaxInSpecOffset", 100);
            && max == Setting(settings, MAX_OFFSET_KEY, DEFAULT_MAX_OFFSET)
            && timeout == Setting(settings, TIMEOUT_KEY, DEFAULT_TIMEOUT)
            && inSpec == Setting(settings, IN_SPEC_KEY, DEFAULT_IN_SPEC)
            && (max > 0 && timeout > 0 ==>
                  && TimerFor(max, timeout, inSpec).Some?
                  && var timer := TimerFor(max, timeout, inSpec).value;
                     timer >= 0 && 2 * (max * timer) - max <= 2 * (timeout * inSpec) < 2 * (max * timer) + max)
            && (max > 0 && timeout == 0 ==> TimerFor(max, timeout, inSpec) == Some(0))
            && (max == 0 ==> TimerFor(max, timeout, inSpec).None?)
  {
    var max := Setting(settings, MAX_OFFSET_KEY, DEFAULT_MAX_OFFSET);
    var timeout, inSpec := Setting(settings, TIMEOUT_KEY, DEFAULT_TIMEOUT), Setting(settings, IN_SPEC_KEY, DEFAULT_IN_SPEC);
    if max > 0 && timeout > 0 { TimerRounds(max, timeout, inSpec); }
  }
}
