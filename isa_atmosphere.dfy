/** The simplified International Standard Atmosphere of ISA_atmosphere.cpp:
    temperature, pressure and density as functions of altitude.

    Temperature falls linearly at 6.5 K/km from 288.15 K at sea level up to
    11 000 m and stays at 216.65 K above. Pressure follows the barometric
    formula of the gradient layer below 11 000 m and the isothermal
    exponential above it. Negative altitudes are evaluated at sea level.

    Arithmetic is over `real`; `std::pow` and `std::exp` are the two fields of
    a `CMath` value, left uninterpreted. */
module StandardAtmosphere {

  // Physical constants of the model (exact decimals, as written in the code).
  const P0: real := 101325.0                    // sea-level pressure (Pa)
  const T0: real := 288.15                      // sea-level temperature (K)
  const G: real := 9.80665                      // gravitational acceleration (m/s^2)
  const R: real := 287.053                      // specific gas constant of air (J/(kg K))
  const LapseTroposphere: real := 0.0065        // tropospheric lapse rate (K/m)
  const TropopauseAltitude: real := 11000.0     // top of the gradient branch (m)
  const TropopauseTemperature: real := 216.65   // temperature above it (K)

  /** Exponent of the tropospheric barometric formula, g / (L R). */
  const PressureExponent: real := G / (LapseTroposphere * R)

  /** The two functions of the C math library the pressure formula calls. */
  datatype CMath = CMath(pow: (real, real) -> real, exp: real -> real)

  /** `pow` is positive on positive bases for exponent `e` (as x^e is). */
  ghost predicate PowPositive(m: CMath, e: real)
  {
    forall b :: 0.0 < b ==> 0.0 < m.pow(b, e)
  }

  /** `pow` is strictly increasing in its base over the positive reals for
      exponent `e` (as x^e is for e > 0). */
  ghost predicate PowIncreasing(m: CMath, e: real)
  {
    forall b1, b2 :: 0.0 < b1 < b2 ==> m.pow(b1, e) < m.pow(b2, e)
  }

  /** `exp` is positive (as e^x is). */
  ghost predicate ExpPositive(m: CMath)
  {
    forall x :: 0.0 < m.exp(x)
  }

  /** `exp` is strictly increasing (as e^x is). */
  ghost predicate ExpIncreasing(m: CMath)
  {
    forall x, y :: x < y ==> m.exp(x) < m.exp(y)
  }

  /** `exp` is below 1 on negative arguments (as e^x is). */
  ghost predicate ExpBelowOneOnNegatives(m: CMath)
  {
    forall x :: x < 0.0 ==> m.exp(x) < 1.0
  }

  /** The altitude the formulas are evaluated at: negative altitudes become 0. */
  function ClampAltitude(altitude: real): (a: real)
    ensures 0.0 <= a
    ensures altitude >= 0.0 ==> a == altitude
  {
    if altitude < 0.0 then 0.0 else altitude
  }

  /** Exponent argument of the isothermal branch at clamped altitude `a`:
      zero at the tropopause and negative above it. */
  function IsothermalArgument(a: real): (x: real)
    ensures a == TropopauseAltitude ==> x == 0.0
    ensures a > TropopauseAltitude ==> x < 0.0
  {
    -G * (a - TropopauseAltitude) / (R * TropopauseTemperature)
  }

  /** ISA_atmosphere: it has no fields, so every value of this type is the
      freshly constructed model, and every query is a function of altitude. */
  datatype IsaAtmosphere = IsaAtmosphere
  {
    /** directTemperature: the temperature profile stays within
        [216.65 K, 288.15 K]. */
    function DirectTemperature(altitude: real): (t: real)
      ensures TropopauseTemperature <= t <= T0
    {
      var a := ClampAltitude(altitude);
      if a <= TropopauseAltitude then T0 - LapseTroposphere * a
      else TropopauseTemperature
    }

    /** P_tropo: the tropospheric formula evaluated at the temperature the
        profile reaches at 11 000 m. */
    function TropopausePressure(m: CMath): (p: real)
      ensures p == P0 * m.pow(DirectTemperature(TropopauseAltitude) / T0, PressureExponent)
    {
      P0 * m.pow((T0 - LapseTroposphere * TropopauseAltitude) / T0, PressureExponent)
    }

    /** directPressure. Both branches follow the temperature profile: up to
        and including 11 000 m the barometric formula of the gradient layer
        over T(h)/T0, above it the isothermal exponential at T(h) = 216.65 K
        starting from P_tropo. */
    function DirectPressure(m: CMath, altitude: real): (p: real)
      ensures ClampAltitude(altitude) <= TropopauseAltitude ==>
        p == P0 * m.pow(DirectTemperature(altitude) / T0, PressureExponent)
      ensures ClampAltitude(altitude) > TropopauseAltitude ==>
        p == TropopausePressure(m)
             * m.exp(-G * (altitude - TropopauseAltitude) / (R * DirectTemperature(altitude)))
    {
      var a := ClampAltitude(altitude);
      if a <= TropopauseAltitude then
        var t := T0 - LapseTroposphere * a;
        P0 * m.pow(t / T0, PressureExponent)
      else
        TropopausePressure(m) * m.exp(IsothermalArgument(a))
    }

    /** getTemperature: the public query; in the model's temperature range. */
    function GetTemperature(altitude: real): (t: real)
      ensures TropopauseTemperature <= t <= T0
    {
      DirectTemperature(altitude)
    }

    /** getPressure: the public query, consistent with the public temperature
        query at the same altitude. */
    function GetPressure(m: CMath, altitude: real): (p: real)
      ensures ClampAltitude(altitude) <= TropopauseAltitude ==>
        p == P0 * m.pow(GetTemperature(altitude) / T0, PressureExponent)
      ensures ClampAltitude(altitude) > TropopauseAltitude ==>
        p == TropopausePressure(m)
             * m.exp(-G * (ClampAltitude(altitude) - TropopauseAltitude) / (R * GetTemperature(altitude)))
    {
      DirectPressure(m, altitude)
    }

    /** getDensity: the ideal-gas density. The temperature is never zero, so
        the division is always defined, and density times R T gives back the
        pressure. */
    function GetDensity(m: CMath, altitude: real): (rho: real)
      ensures rho * (R * GetTemperature(altitude)) == GetPressure(m, altitude)
    {
      var p := GetPressure(m, altitude);
      var t := GetTemperature(altitude);
      p / (R * t)
    }
  }

  // ---------------------------------------------------------------------
  // Temperature

  /** A negative altitude gives the sea-level temperature, 288.15 K. */
  lemma TemperatureClampsNegative(isa: IsaAtmosphere, altitude: real)
    requires altitude < 0.0
    ensures isa.DirectTemperature(altitude) == isa.DirectTemperature(0.0)
    ensures isa.DirectTemperature(0.0) == T0 == 288.15
  {
  }

  /** The piecewise temperature profile: linear at 6.5 K/km up to and
      including 11 000 m, constant 216.65 K above. */
  lemma TemperatureProfile(isa: IsaAtmosphere, altitude: real)
    ensures 0.0 <= altitude <= TropopauseAltitude ==>
      isa.DirectTemperature(altitude) == 288.15 - 0.0065 * altitude
    ensures altitude > TropopauseAltitude ==>
      isa.DirectTemperature(altitude) == 216.65
  {
  }

  /** In the troposphere the temperature strictly decreases with altitude. */
  lemma TemperatureStrictlyDecreasingInTroposphere(isa: IsaAtmosphere, a1: real, a2: real)
    requires 0.0 <= a1 < a2 <= TropopauseAltitude
    ensures isa.DirectTemperature(a2) < isa.DirectTemperature(a1)
  {
  }

  /** Everywhere, the temperature never increases with altitude. */
  lemma TemperatureNonIncreasing(isa: IsaAtmosphere, a1: real, a2: real)
    requires a1 <= a2
    ensures isa.DirectTemperature(a2) <= isa.DirectTemperature(a1)
  {
  }

  /** The boundary altitude belongs to the gradient branch, and that branch
      reaches exactly the isothermal value there: T0 - L 11000 = 216.65. */
  lemma TemperatureAtTropopause(isa: IsaAtmosphere)
    ensures T0 - LapseTroposphere * TropopauseAltitude == TropopauseTemperature
    ensures isa.DirectTemperature(TropopauseAltitude)
         == T0 - LapseTroposphere * TropopauseAltitude
         == TropopauseTemperature
  {
  }

  function Abs(x: real): (r: real)
  {
    if x < 0.0 then -x else x
  }

  /** The temperature profile is Lipschitz with constant 0.0065 K/m, so it is
      continuous everywhere, at 0 m and at 11 000 m included. */
  lemma TemperatureLipschitz(isa: IsaAtmosphere, a1: real, a2: real)
    ensures Abs(isa.DirectTemperature(a1) - isa.DirectTemperature(a2))
         <= LapseTroposphere * Abs(a1 - a2)
  {
    if a2 < a1 {
      TemperatureLipschitzOrdered(isa, a2, a1);
    } else {
      TemperatureLipschitzOrdered(isa, a1, a2);
    }
  }

  lemma TemperatureLipschitzOrdered(isa: IsaAtmosphere, a1: real, a2: real)
    requires a1 <= a2
    ensures 0.0 <= isa.DirectTemperature(a1) - isa.DirectTemperature(a2)
                <= LapseTroposphere * (a2 - a1)
  {
    var c1, c2 := ClampAltitude(a1), ClampAltitude(a2);
    assert c2 - c1 <= a2 - a1;
  }

  // ---------------------------------------------------------------------
  // Pressure

  /** A negative altitude gives the sea-level pressure. */
  lemma PressureClampsNegative(isa: IsaAtmosphere, m: CMath, altitude: real)
    requires altitude < 0.0
    ensures isa.DirectPressure(m, altitude) == isa.DirectPressure(m, 0.0)
  {
  }

  /** At sea level the pressure is P0 times pow(1, g/(L R)). */
  lemma PressureAtSeaLevel(isa: IsaAtmosphere, m: CMath)
    ensures isa.DirectPressure(m, 0.0) == P0 * m.pow(1.0, PressureExponent)
  {
  }

  /** The gradient branch evaluated at 11 000 m is P_tropo, and above 11 000 m
      the isothermal branch starts from that value: whatever pow and exp are,
      the upper branch is anchored to where the lower branch ends. */
  lemma PressureAnchoredAtTropopause(isa: IsaAtmosphere, m: CMath, altitude: real)
    requires altitude > TropopauseAltitude
    ensures isa.DirectPressure(m, TropopauseAltitude) == isa.TropopausePressure(m)
    ensures isa.DirectPressure(m, altitude)
         == isa.DirectPressure(m, TropopauseAltitude)
            * m.exp(-G * (altitude - TropopauseAltitude) / (R * TropopauseTemperature))
  {
  }

  /** With a positive pow and a positive exp, pressure is positive at every
      altitude. */
  lemma PressurePositive(isa: IsaAtmosphere, m: CMath, altitude: real)
    requires PowPositive(m, PressureExponent)
    requires ExpPositive(m)
    ensures 0.0 < isa.DirectPressure(m, altitude)
  {
    var a := ClampAltitude(altitude);
    var ptropo := isa.TropopausePressure(m);
    assert 0.0 < m.pow((T0 - LapseTroposphere * TropopauseAltitude) / T0, PressureExponent);
    if a <= TropopauseAltitude {
      assert 0.0 < m.pow((T0 - LapseTroposphere * a) / T0, PressureExponent);
    } else {
      var e := m.exp(IsothermalArgument(a));
      assert 0.0 < e;
      PositiveProduct(ptropo, e);
    }
  }

  /** ... and so is density. */
  lemma DensityPositive(isa: IsaAtmosphere, m: CMath, altitude: real)
    requires PowPositive(m, PressureExponent)
    requires ExpPositive(m)
    ensures 0.0 < isa.GetDensity(m, altitude)
  {
    PressurePositive(isa, m, altitude);
    var p := isa.GetPressure(m, altitude);
    var d := R * isa.GetTemperature(altitude);
    assert 0.0 < d;
    PositiveQuotient(p, d);
  }

  lemma PositiveProduct(x: real, y: real)
    requires 0.0 < x && 0.0 < y
    ensures 0.0 < x * y
  {
  }

  lemma PositiveQuotient(x: real, y: real)
    requires 0.0 < x && 0.0 < y
    ensures 0.0 < x / y
  {
  }

  lemma ProductStrictlyIncreasing(c: real, x: real, y: real)
    requires 0.0 < c && x < y
    ensures c * x < c * y
  {
  }

  /** The tropospheric formula is strictly decreasing in altitude on
      [0, 11 000 m] when pow is increasing in its base. */
  lemma GradientPressureDecreasing(m: CMath, a1: real, a2: real)
    requires PowIncreasing(m, PressureExponent)
    requires 0.0 <= a1 < a2 <= TropopauseAltitude
    ensures P0 * m.pow((T0 - LapseTroposphere * a2) / T0, PressureExponent)
          < P0 * m.pow((T0 - LapseTroposphere * a1) / T0, PressureExponent)
  {
    var b1 := (T0 - LapseTroposphere * a1) / T0;
    var b2 := (T0 - LapseTroposphere * a2) / T0;
    assert 0.0 < b2 < b1;
    assert m.pow(b2, PressureExponent) < m.pow(b1, PressureExponent);
  }

  /** P_tropo is positive when pow is. */
  lemma TropopausePressurePositive(isa: IsaAtmosphere, m: CMath)
    requires PowPositive(m, PressureExponent)
    ensures 0.0 < isa.TropopausePressure(m)
  {
    assert 0.0 < m.pow((T0 - LapseTroposphere * TropopauseAltitude) / T0, PressureExponent);
  }

  /** Above the tropopause pressure is P_tropo times exp of the isothermal
      argument. */
  lemma IsothermalBranch(isa: IsaAtmosphere, m: CMath, a: real)
    requires TropopauseAltitude < a
    ensures isa.DirectPressure(m, a) == isa.TropopausePressure(m) * m.exp(IsothermalArgument(a))
  {
  }

  /** The isothermal argument strictly decreases with altitude. */
  lemma IsothermalArgumentDecreasing(a1: real, a2: real)
    requires a1 < a2
    ensures IsothermalArgument(a2) < IsothermalArgument(a1)
  {
  }

  /** Above the tropopause the isothermal branch decreases with altitude. */
  lemma IsothermalPressureDecreasing(isa: IsaAtmosphere, m: CMath, a1: real, a2: real)
    requires PowPositive(m, PressureExponent)
    requires ExpIncreasing(m)
    requires TropopauseAltitude < a1 < a2
    ensures isa.DirectPressure(m, a2) < isa.DirectPressure(m, a1)
  {
    TropopausePressurePositive(isa, m);
    IsothermalBranch(isa, m, a1);
    IsothermalBranch(isa, m, a2);
    var x1, x2 := IsothermalArgument(a1), IsothermalArgument(a2);
    IsothermalArgumentDecreasing(a1, a2);
    assert m.exp(x2) < m.exp(x1);
    ProductStrictlyIncreasing(isa.TropopausePressure(m), m.exp(x2), m.exp(x1));
  }

  /** Above the tropopause the pressure is below P_tropo ... */
  lemma IsothermalPressureBelowTropopause(isa: IsaAtmosphere, m: CMath, a: real)
    requires PowPositive(m, PressureExponent)
    requires ExpBelowOneOnNegatives(m)
    requires TropopauseAltitude < a
    ensures isa.DirectPressure(m, a) < isa.TropopausePressure(m)
  {
    TropopausePressurePositive(isa, m);
    IsothermalBranch(isa, m, a);
    var x := IsothermalArgument(a);
    assert x < 0.0;
    assert m.exp(x) < 1.0;
    ProductStrictlyIncreasing(isa.TropopausePressure(m), m.exp(x), 1.0);
  }

  /** ... and at or below it, at least P_tropo. */
  lemma GradientPressureAboveTropopause(isa: IsaAtmosphere, m: CMath, a: real)
    requires PowIncreasing(m, PressureExponent)
    requires 0.0 <= a <= TropopauseAltitude
    ensures isa.TropopausePressure(m) <= isa.DirectPressure(m, a)
  {
    if a < TropopauseAltitude {
      GradientPressureDecreasing(m, a, TropopauseAltitude);
    }
  }

  /** Pressure strictly decreases with altitude over [0, +inf), for any pow
      positive and increasing in its base and any exp increasing and below 1
      on negative arguments. */
  lemma PressureStrictlyDecreasing(isa: IsaAtmosphere, m: CMath, a1: real, a2: real)
    requires PowPositive(m, PressureExponent)
    requires PowIncreasing(m, PressureExponent)
    requires ExpIncreasing(m)
    requires ExpBelowOneOnNegatives(m)
    requires 0.0 <= a1 < a2
    ensures isa.DirectPressure(m, a2) < isa.DirectPressure(m, a1)
  {
    if a2 <= TropopauseAltitude {
      GradientPressureDecreasing(m, a1, a2);
    } else if TropopauseAltitude < a1 {
      IsothermalPressureDecreasing(isa, m, a1, a2);
    } else {
      IsothermalPressureBelowTropopause(isa, m, a2);
      GradientPressureAboveTropopause(isa, m, a1);
    }
  }

  /** Over all altitudes, negative ones included, pressure never increases. */
  lemma PressureNonIncreasing(isa: IsaAtmosphere, m: CMath, a1: real, a2: real)
    requires PowPositive(m, PressureExponent)
    requires PowIncreasing(m, PressureExponent)
    requires ExpIncreasing(m)
    requires ExpBelowOneOnNegatives(m)
    requires a1 <= a2
    ensures isa.DirectPressure(m, a2) <= isa.DirectPressure(m, a1)
  {
    var c1, c2 := ClampAltitude(a1), ClampAltitude(a2);
    assert isa.DirectPressure(m, a1) == isa.DirectPressure(m, c1);
    assert isa.DirectPressure(m, a2) == isa.DirectPressure(m, c2);
    if c1 < c2 {
      PressureStrictlyDecreasing(isa, m, c1, c2);
    }
  }

  // ---------------------------------------------------------------------
  // Queries

  /** getTemperature, getPressure and getDensity answer from
      directTemperature and directPressure, and density is p / (R t). */
  lemma QueriesUseDirectFormulas(isa: IsaAtmosphere, m: CMath, altitude: real)
    ensures isa.GetTemperature(altitude) == isa.DirectTemperature(altitude)
    ensures isa.GetPressure(m, altitude) == isa.DirectPressure(m, altitude)
    ensures isa.GetDensity(m, altitude)
         == isa.GetPressure(m, altitude) / (R * isa.GetTemperature(altitude))
  {
  }
}
