/**
 NTC thermistor conversion and presence classification (hardware/temperature.py).

 Arithmetic is over the reals. The logarithm is a parameter, known only through its laws.
 */
module Thermistor {
  import opened Results

  const NTC_R25_OHM: real := 10000.0
  const NTC_BETA: real := 3435.0
  const NTC_PULLDOWN_R: real := 10000.0
  const NTC_EXCITATION_V: real := 5.0
  const ABSENT_VOLTAGE_THRESHOLD: real := 0.05
  const NTC_SHORT_VOLTAGE_MARGIN_V: real := 0.05
  const NTC_PLAUSIBLE_TEMP_MIN_C: real := -20.0
  const NTC_PLAUSIBLE_TEMP_MAX_C: real := 80.0
  const ZERO_CELSIUS_K: real := 273.15
  const T0_K: real := 25.0 + ZERO_CELSIUS_K

  datatype Presence = PRESENT | ABSENT | FAULT

  /** ZeroDivisionError, or the domain error of the logarithm. */
  datatype ArithmeticError = DivisionByZero | LogDomain

  /** The laws of the natural logarithm that the results below use. */
  ghost predicate IsLn(ln: real -> real) {
    && (forall x, y :: Increasing(ln, x, y))
    && (forall x, y :: ProductLaw(ln, x, y))
    && (forall x :: BelowTangent(ln, x))
  }

  ghost predicate Increasing(ln: real -> real, x: real, y: real) {
    0.0 < x < y ==> ln(x) < ln(y)
  }

  ghost predicate ProductLaw(ln: real -> real, x: real, y: real) {
    0.0 < x && 0.0 < y ==> ln(x * y) == ln(x) + ln(y)
  }

  ghost predicate BelowTangent(ln: real -> real, x: real) {
    0.0 < x ==> ln(x) <= x - 1.0
  }

  /** `ntc_voltage_to_celsius`; `None` outside the divider's range. */
  function NtcVoltageToCelsius(ln: real -> real, v: real, vExc: real, rPulldown: real, r25: real, beta: real)
    : Result<Option<real>, ArithmeticError>
  {
    if v <= 0.0 || v >= vExc then Ok(None)
    else
      var rNtc := rPulldown * (vExc - v) / v;
      if r25 == 0.0 || beta == 0.0 then Err(DivisionByZero)
      else if rNtc / r25 <= 0.0 then Err(LogDomain)
      else
        var inverse := 1.0 / T0_K + (1.0 / beta) * ln(rNtc / r25);
        if inverse == 0.0 then Err(DivisionByZero) else Ok(Some(1.0 / inverse - ZERO_CELSIUS_K))
  }

  /** `classify_ntc_presence`. */
  function ClassifyNtcPresence(ln: real -> real, v: real, vExc: real): Result<Presence, ArithmeticError> {
    if v <= ABSENT_VOLTAGE_THRESHOLD then Ok(ABSENT)
    else if v >= vExc - NTC_SHORT_VOLTAGE_MARGIN_V then Ok(FAULT)
    else
      match NtcVoltageToCelsius(ln, v, vExc, NTC_PULLDOWN_R, NTC_R25_OHM, NTC_BETA)
      case Err(e) => Err(e)
      case Ok(None) => Ok(FAULT)
      case Ok(Some(t)) => Ok(if NTC_PLAUSIBLE_TEMP_MIN_C <= t <= NTC_PLAUSIBLE_TEMP_MAX_C then PRESENT else FAULT)
  }

  /** The voltages that reach the formula. */
  predicate Guarded(v: real, vExc: real) {
    ABSENT_VOLTAGE_THRESHOLD < v < vExc - NTC_SHORT_VOLTAGE_MARGIN_V
  }

  /** Resistance relative to R25, for a pulldown equal to R25. */
  function Ratio(v: real, vExc: real): real
    requires v > 0.0
  {
    (vExc - v) / v
  }

  /** The inverse absolute temperature. */
  function Inverse(ln: real -> real, v: real, vExc: real): real
    requires v > 0.0
  {
    1.0 / T0_K + (1.0 / NTC_BETA) * ln(Ratio(v, vExc))
  }

  /** The formula is not yet past its pole where the short-circuit margin starts. */
  predicate PoleBeyondMargin(ln: real -> real, vExc: real) {
    && vExc > ABSENT_VOLTAGE_THRESHOLD + NTC_SHORT_VOLTAGE_MARGIN_V
    && Inverse(ln, vExc - NTC_SHORT_VOLTAGE_MARGIN_V, vExc) >= 0.0
  }

  // ------------------------------------------------------------------- ln

  lemma LnOfOne(ln: real -> real)
    requires IsLn(ln)
    ensures ln(1.0) == 0.0
  {
    assert ProductLaw(ln, 1.0, 1.0);
  }

  lemma LnOfTwo(ln: real -> real)
    requires IsLn(ln)
    ensures 0.5 <= ln(2.0) <= 1.0 && ln(0.5) == -ln(2.0)
  {
    LnOfOne(ln);
    assert ProductLaw(ln, 2.0, 0.5) && BelowTangent(ln, 2.0) && BelowTangent(ln, 0.5);
  }

  function Power(k: nat): (p: real)
    ensures p > 0.0
  {
    if k == 0 then 1.0 else 2.0 * Power(k - 1)
  }

  lemma {:induction false} LnOfPower(ln: real -> real, k: nat)
    requires IsLn(ln)
    ensures ln(Power(k)) == k as real * ln(2.0)
  {
    LnOfOne(ln);
    if k == 0 {
    } else {
      LnOfPower(ln, k - 1);
      assert ProductLaw(ln, 2.0, Power(k - 1));
      assert k as real == (k - 1) as real + 1.0;
    }
  }

  lemma LnOfProduct(ln: real -> real, x: real, y: real, z: real)
    requires IsLn(ln) && 0.0 < x && 0.0 < y && x * y == z
    ensures ln(z) == ln(x) + ln(y)
  {
    assert ProductLaw(ln, x, y);
  }

  lemma LnOfInverse(ln: real -> real, x: real)
    requires IsLn(ln) && x > 0.0
    ensures ln(1.0 / x) == -ln(x)
  {
    LnOfOne(ln);
    var y := 1.0 / x;
    assert x * y == 1.0;
    PositiveQuotient(1.0, x);
    LnOfProduct(ln, x, y, 1.0);
  }

  // --------------------------------------------------------------- formula

  lemma RatioDecreases(v: real, w: real, vExc: real)
    requires 0.0 < v < w < vExc
    ensures Ratio(v, vExc) > Ratio(w, vExc) > 0.0
  {
    Quotient(vExc - v, v, vExc / v - 1.0);
    Quotient(vExc - w, w, vExc / w - 1.0);
    DivisionDecreases(vExc, v, w);
    PositiveQuotient(vExc - w, w);
  }

  lemma DivisionDecreases(a: real, x: real, y: real)
    requires a > 0.0 && 0.0 < x < y
    ensures a / x > a / y > 0.0
  {
    var p, q := a / x, a / y;
    assert p * x == a && q * y == a;
    PositiveQuotient(a, y);
    assert p <= q ==> p * x <= q * x;
    assert q * x < q * y;
  }

  lemma PositiveQuotient(a: real, x: real)
    requires a > 0.0 && x > 0.0
    ensures a / x > 0.0
  {
    var q := a / x;
    assert q * x == a;
    assert q <= 0.0 ==> q * x <= 0.0;
  }

  lemma Quotient(a: real, x: real, q: real)
    requires x > 0.0 && q * x == a
    ensures a / x == q
  {
    var p := a / x;
    assert p * x == q * x;
    assert (p - q) * x == 0.0;
  }

  lemma InverseDecreases(ln: real -> real, v: real, w: real, vExc: real)
    requires IsLn(ln) && 0.0 < v < w < vExc
    ensures Inverse(ln, v, vExc) > Inverse(ln, w, vExc)
  {
    RatioDecreases(v, w, vExc);
    assert Increasing(ln, Ratio(w, vExc), Ratio(v, vExc));
  }

  /** Division by zero: on the guarded range the denominator is positive. */
  lemma InversePositive(ln: real -> real, v: real, vExc: real)
    requires IsLn(ln) && PoleBeyondMargin(ln, vExc) && Guarded(v, vExc)
    ensures Inverse(ln, v, vExc) > 0.0
  {
    InverseDecreases(ln, v, vExc - NTC_SHORT_VOLTAGE_MARGIN_V, vExc);
  }

  /** The 5 V supply is safe: at the margin the ratio is 1/99 > 2^-7, and beta * (1/T0) exceeds 7. */
  lemma DefaultExcitationSafe(ln: real -> real)
    requires IsLn(ln)
    ensures PoleBeyondMargin(ln, NTC_EXCITATION_V)
  {
    assert Power(7) == 128.0;
    LnOfPower(ln, 7);
    LnOfTwo(ln);
    LnOfInverse(ln, 99.0);
    assert Increasing(ln, 99.0, 128.0);
    assert Ratio(NTC_EXCITATION_V - NTC_SHORT_VOLTAGE_MARGIN_V, NTC_EXCITATION_V) == 1.0 / 99.0;
    assert 1.0 / T0_K >= (1.0 / NTC_BETA) * 7.0;
  }

  /** The temperature of a guarded voltage, as the formula computes it. */
  lemma ReadingOf(ln: real -> real, v: real, vExc: real)
    requires IsLn(ln) && PoleBeyondMargin(ln, vExc) && Guarded(v, vExc)
    ensures Inverse(ln, v, vExc) > 0.0
    ensures NtcVoltageToCelsius(ln, v, vExc, NTC_PULLDOWN_R, NTC_R25_OHM, NTC_BETA)
            == Ok(Some(1.0 / Inverse(ln, v, vExc) - ZERO_CELSIUS_K))
  {
    InversePositive(ln, v, vExc);
    AnyReading(ln, v, vExc);
  }

  lemma SameRatio(v: real, vExc: real)
    requires v > 0.0
    ensures NTC_PULLDOWN_R * (vExc - v) / v / NTC_R25_OHM == Ratio(v, vExc)
  {
    var q := (vExc - v) / v;
    assert 10000.0 * (vExc - v) / v == 10000.0 * q;
  }

  /** Hotter is higher: on the guarded range the reading exists and rises strictly with the voltage. */
  lemma CelsiusIncreases(ln: real -> real, v: real, w: real, vExc: real)
    requires IsLn(ln) && PoleBeyondMargin(ln, vExc) && Guarded(v, vExc) && Guarded(w, vExc) && v < w
    ensures var tv := NtcVoltageToCelsius(ln, v, vExc, NTC_PULLDOWN_R, NTC_R25_OHM, NTC_BETA);
            var tw := NtcVoltageToCelsius(ln, w, vExc, NTC_PULLDOWN_R, NTC_R25_OHM, NTC_BETA);
            tv.Ok? && tw.Ok? && tv.value.Some? && tw.value.Some? && tv.value.value < tw.value.value
  {
    ReadingOf(ln, v, vExc);
    ReadingOf(ln, w, vExc);
    InverseDecreases(ln, v, w, vExc);
    DivisionDecreases(1.0, Inverse(ln, w, vExc), Inverse(ln, v, vExc));
  }

  /** What the formula computes for any guarded voltage, also past its pole. */
  lemma AnyReading(ln: real -> real, v: real, vExc: real)
    requires Guarded(v, vExc)
    ensures NtcVoltageToCelsius(ln, v, vExc, NTC_PULLDOWN_R, NTC_R25_OHM, NTC_BETA) ==
            if Inverse(ln, v, vExc) == 0.0 then Err(DivisionByZero)
            else Ok(Some(1.0 / Inverse(ln, v, vExc) - ZERO_CELSIUS_K))
  {
    SameRatio(v, vExc);
    PositiveQuotient(vExc - v, v);
  }

  lemma InverseAtMidpoint(ln: real -> real, vExc: real)
    requires IsLn(ln) && vExc > 0.0
    ensures Inverse(ln, vExc / 2.0, vExc) == 1.0 / T0_K
  {
    Quotient(vExc - vExc / 2.0, vExc / 2.0, 1.0);
    LnOfOne(ln);
  }

  /** Half the excitation voltage is exactly 25 C, and a present battery, for every supply with a guarded range. */
  lemma MidpointIsPresent(ln: real -> real, vExc: real)
    requires IsLn(ln) && vExc > ABSENT_VOLTAGE_THRESHOLD + NTC_SHORT_VOLTAGE_MARGIN_V
    ensures NtcVoltageToCelsius(ln, vExc / 2.0, vExc, NTC_PULLDOWN_R, NTC_R25_OHM, NTC_BETA) == Ok(Some(25.0))
    ensures ClassifyNtcPresence(ln, vExc / 2.0, vExc) == Ok(PRESENT)
  {
    InverseAtMidpoint(ln, vExc);
    AnyReading(ln, vExc / 2.0, vExc);
    assert 1.0 / (1.0 / T0_K) == T0_K;
  }

  /**
   Without the guard the order is lost: just below 5 V the conversion alone is past the pole of
   the formula and reports a temperature below absolute zero.
   */
  lemma UnguardedPastThePole(ln: real -> real)
    requires IsLn(ln)
    ensures var v := 5.0 * 16777216.0 / 16777217.0;
            && 0.0 < v < NTC_EXCITATION_V
            && var r := NtcVoltageToCelsius(ln, v, NTC_EXCITATION_V, NTC_PULLDOWN_R, NTC_R25_OHM, NTC_BETA);
               r.Ok? && r.value.Some? && r.value.value < -ZERO_CELSIUS_K
  {
    var v := 5.0 * 16777216.0 / 16777217.0;
    Quotient(5.0 - v, v, 1.0 / 16777216.0);
    assert Power(12) == 4096.0;
    LnOfPower(ln, 12);
    LnOfProduct(ln, 4096.0, 4096.0, 16777216.0);
    LnOfTwo(ln);
    LnOfInverse(ln, 16777216.0);
    SameRatio(v, NTC_EXCITATION_V);
    var inverse := Inverse(ln, v, NTC_EXCITATION_V);
    assert inverse < 0.0;
    DivisionDecreases(1.0, -inverse, -inverse + 1.0);
    Quotient(1.0, -inverse, -(1.0 / inverse));
  }

  // -------------------------------------------------------- classification

  /** How far the classification has got as the voltage rises: absent, too cold, present, too hot or shorted. */
  ghost function Phase(ln: real -> real, v: real, vExc: real): int {
    match ClassifyNtcPresence(ln, v, vExc)
    case Ok(ABSENT) => 0
    case Ok(PRESENT) => 2
    case Ok(FAULT) => if v < vExc / 2.0 then 1 else 3
    case Err(_) => -1
  }

  const COLDEST: real := 1.0 / (NTC_PLAUSIBLE_TEMP_MIN_C + ZERO_CELSIUS_K)
  const HOTTEST: real := 1.0 / (NTC_PLAUSIBLE_TEMP_MAX_C + ZERO_CELSIUS_K)

  /** A reading is plausible exactly when its inverse temperature lies between those of the two limits. */
  lemma PlausibleInverse(x: real)
    requires x != 0.0
    ensures NTC_PLAUSIBLE_TEMP_MIN_C <= 1.0 / x - ZERO_CELSIUS_K <= NTC_PLAUSIBLE_TEMP_MAX_C <==> HOTTEST <= x <= COLDEST
  {
    if x < 0.0 {
      PositiveQuotient(1.0, -x);
      Quotient(1.0, -x, -(1.0 / x));
    } else {
      assert 1.0 / COLDEST == 253.15 && 1.0 / HOTTEST == 353.15;
      if x < HOTTEST { DivisionDecreases(1.0, x, HOTTEST); }
      if HOTTEST < x { DivisionDecreases(1.0, HOTTEST, x); }
      if x < COLDEST { DivisionDecreases(1.0, x, COLDEST); }
      if COLDEST < x { DivisionDecreases(1.0, COLDEST, x); }
    }
  }

  /** The phase of a guarded voltage, read off its inverse temperature. */
  lemma GuardedPhase(ln: real -> real, v: real, vExc: real)
    requires IsLn(ln) && Guarded(v, vExc)
    ensures var x := Inverse(ln, v, vExc);
            Phase(ln, v, vExc) == if x == 0.0 then -1 else if x > COLDEST then 1 else if x >= HOTTEST then 2 else 3
  {
    var x, mid := Inverse(ln, v, vExc), vExc / 2.0;
    AnyReading(ln, v, vExc);
    InverseAtMidpoint(ln, vExc);
    if v < mid { InverseDecreases(ln, v, mid, vExc); }
    if mid < v { InverseDecreases(ln, mid, v, vExc); }
    if x != 0.0 { PlausibleInverse(x); }
    assert HOTTEST < 1.0 / T0_K < COLDEST;
  }

  /**
   Classification is well ordered, for every excitation voltage: it fails only where the formula's
   denominator is exactly zero, and otherwise, as the voltage rises, it goes through absent, too
   cold, present, too hot, in this order and without going back. In particular the present
   voltages form one interval.
   */
  lemma PhaseNeverFalls(ln: real -> real, v: real, w: real, vExc: real)
    requires IsLn(ln) && v <= w
    ensures ClassifyNtcPresence(ln, v, vExc).Err? <==> Guarded(v, vExc) && Inverse(ln, v, vExc) == 0.0
    ensures ClassifyNtcPresence(ln, v, vExc).Ok? && ClassifyNtcPresence(ln, w, vExc).Ok? ==>
              0 <= Phase(ln, v, vExc) <= Phase(ln, w, vExc)
  {
    if Guarded(v, vExc) { GuardedPhase(ln, v, vExc); }
    if Guarded(w, vExc) { GuardedPhase(ln, w, vExc); }
    if Guarded(v, vExc) && Guarded(w, vExc) && v < w { InverseDecreases(ln, v, w, vExc); }
  }

  /** It never fails where the pole lies beyond the short-circuit margin. */
  lemma NeverFailsBelowPole(ln: real -> real, v: real, vExc: real)
    requires IsLn(ln) && PoleBeyondMargin(ln, vExc)
    ensures ClassifyNtcPresence(ln, v, vExc).Ok?
  {
    PhaseNeverFalls(ln, v, v, vExc);
    if Guarded(v, vExc) { InversePositive(ln, v, vExc); }
  }

  /** At 5 V classification never fails and PRESENT is a single interval around 2.5 V. */
  lemma PresentIsOneInterval(ln: real -> real, u: real, v: real, w: real)
    requires IsLn(ln) && u <= v <= w
    ensures ClassifyNtcPresence(ln, 2.5, NTC_EXCITATION_V) == Ok(PRESENT)
    ensures ClassifyNtcPresence(ln, u, NTC_EXCITATION_V) == Ok(PRESENT) && ClassifyNtcPresence(ln, w, NTC_EXCITATION_V) == Ok(PRESENT)
            ==> ClassifyNtcPresence(ln, v, NTC_EXCITATION_V) == Ok(PRESENT)
    ensures ClassifyNtcPresence(ln, v, NTC_EXCITATION_V).Ok?
  {
    DefaultExcitationSafe(ln);
    MidpointIsPresent(ln, NTC_EXCITATION_V);
    NeverFailsBelowPole(ln, u, NTC_EXCITATION_V);
    NeverFailsBelowPole(ln, v, NTC_EXCITATION_V);
    NeverFailsBelowPole(ln, w, NTC_EXCITATION_V);
    PhaseNeverFalls(ln, u, v, NTC_EXCITATION_V);
    PhaseNeverFalls(ln, v, w, NTC_EXCITATION_V);
  }

  /** Both fault phases are real: 0.06 V is too cold to be plausible and 4.9 V too hot. */
  lemma BothFaultPhasesOccur(ln: real -> real)
    requires IsLn(ln)
    ensures Phase(ln, 0.06, NTC_EXCITATION_V) == 1 && Phase(ln, 4.9, NTC_EXCITATION_V) == 3
  {
    DefaultExcitationSafe(ln);
    LnOfTwo(ln);
    LnOfPower(ln, 5);
    assert Power(5) == 32.0;
    LnOfInverse(ln, 49.0);
    assert Ratio(4.9, 5.0) == 1.0 / 49.0;
    assert Increasing(ln, 32.0, 49.0);
    assert Increasing(ln, 32.0, Ratio(0.06, 5.0));
    ReadingOf(ln, 0.06, NTC_EXCITATION_V);
    ReadingOf(ln, 4.9, NTC_EXCITATION_V);
    assert Inverse(ln, 0.06, 5.0) > 1.0 / 253.15;
    assert Inverse(ln, 4.9, 5.0) < 1.0 / 353.15;
    DivisionDecreases(1.0, 1.0 / 253.15, Inverse(ln, 0.06, 5.0));
    DivisionDecreases(1.0, Inverse(ln, 4.9, 5.0), 1.0 / 353.15);
  }
}
