# LV_project: ISA atmosphere, atmosphere factory and the simulated body

This project models in Dafny the parts of LV_project that have behaviour you can state. There are three of them:

- **`StandardAtmosphere`** (`isa_atmosphere.dfy`) models the simplified International Standard Atmosphere of `ISA_atmosphere`:
  - Temperature is 288.15 K at sea level. It falls at 0.0065 K/m up to and including 11 000 m, and is 216.65 K above that.
  - Pressure follows the gradient-layer barometric formula `P0 (T/T0)^(g/(L R))` up to 11 000 m. Above that it is the isothermal exponential, starting from the tropospheric value at 11 000 m (`P_tropo`).
  - Density is `p / (R t)`.
  - Negative altitudes are evaluated at 0.
  - The constants are the code's own decimals: 101325, 288.15, 9.80665, 287.053, 0.0065, 11000 and 216.65. They are applied to the altitude as given, the way the code does it.
  - `std::pow` and `std::exp` have no counterpart in Dafny. They are the two fields of a `CMath` value, which is passed to every pressure and density query. Some pressure facts hold for any `pow` and `exp`: how negative altitudes are clamped, how the two branches meet at 11 000 m, and how the branches relate to the temperature profile. Positivity and monotonicity of pressure are proved only for `pow`/`exp` that have the properties each lemma names in its `requires`, stated separately as `PowPositive`, `PowIncreasing`, `ExpPositive`, `ExpIncreasing` and `ExpBelowOneOnNegatives`. Positivity needs only the two positivity properties. No value of `pow` or `exp` is ever assumed.
  - `ISA_atmosphere` has no fields and only `const` queries. So it is modelled as the field-less datatype `IsaAtmosphere`, and its queries are member functions of altitude.
- **`AtmosphereFactory`** (`atmosphere_factory.dfy`) models `createAtmosphere` as a total function over the closed enum `AtmosphereType = Isa | IsaTable`:
  - `Isa` yields the ISA model, wrapped in `Atmosphere`, which is the interface with one implementation.
  - Every other kind yields `Failure(UnknownAtmosphereType("Unknown AtmosphereType!"))` in place of the thrown `std::runtime_error`. `IsaTable` is one of those kinds.
- **`Body`** (`body.dfy`) models `Object` as a class with mutable fields. `position` and `velocity` (the source's `std::vector<float>`) are `seq<real>` fields that the methods reassign element by element. `radius` and `mass` are `real` fields.
  - `accelerate` and `updatePos` are in-place additions.
  - `checkCollisionWithScreen` is specified axis by axis through the pure function `Bounce`. `Bounce` carries the bounds, "inside is untouched" and idempotence facts.
  - Each method requires two components in the vectors it indexes: `Accelerate` in `velocity`, `UpdatePos` and `CheckCollisionWithScreen` in both. The source indexes `[0]` and `[1]` without bounds checks, so callers must supply that much. Every construction in the source meets this (main.cpp:36-37, Object.cpp:8-9).

The code has one gradient layer and one isothermal layer. There is no layer table, no tabulated or interpolated model, no negligible-density warning and no three-argument factory.

11 000 m itself takes the tropospheric branch (`altitude <= 11000.0`, ISA_atmosphere.cpp:25, :34): see `TemperatureAtTropopause` and `PressureAnchoredAtTropopause`.

The factory is deterministic because it is modelled as a Dafny function: the same kind always gives the same outcome.

## Model

| member | source | states |
|---|---|---|
| `StandardAtmosphere.ClampAltitude` | src/atmospheric_models/ISA_atmosphere.cpp:24 | the altitude evaluated is never negative, and it equals the given altitude when that is non-negative |
| `StandardAtmosphere.IsaAtmosphere.DirectTemperature` | src/atmospheric_models/ISA_atmosphere.cpp:21-30 | temperature always lies in [216.65 K, 288.15 K] |
| `StandardAtmosphere.IsothermalArgument` | src/atmospheric_models/ISA_atmosphere.cpp:42 | the exponent of the isothermal branch is zero at 11000 m and negative above it |
| `StandardAtmosphere.IsaAtmosphere.TropopausePressure` | src/atmospheric_models/ISA_atmosphere.cpp:40-41 | P_tropo is the gradient-layer formula P0·pow(T/T0, g/(L·R)) at the temperature the profile reaches at 11000 m |
| `StandardAtmosphere.IsaAtmosphere.DirectPressure` | src/atmospheric_models/ISA_atmosphere.cpp:32-43 | up to and including 11000 m (after clamping), pressure is P0·pow(T(h)/T0, g/(L·R)) with the temperature profile's own T(h); above 11000 m it is P_tropo·exp(−g(h−11000)/(R·T(h))) |
| `StandardAtmosphere.IsaAtmosphere.GetPressure` | src/atmospheric_models/ISA_atmosphere.cpp:49-51 | the public pressure query is consistent with the public temperature query at the same altitude, by the same two formulas |
| `StandardAtmosphere.IsaAtmosphere.GetTemperature` | src/atmospheric_models/ISA_atmosphere.cpp:45-47 | the public temperature query lies in [216.65 K, 288.15 K]; in particular it is never zero |
| `StandardAtmosphere.IsaAtmosphere.GetDensity` | src/atmospheric_models/ISA_atmosphere.cpp:53-57 | the division is always defined (temperature is positive), and density times R·T gives back the pressure (ideal-gas law) |
| `StandardAtmosphere.TemperatureClampsNegative` | src/atmospheric_models/ISA_atmosphere.cpp:24-26 | any negative altitude gives the temperature of altitude 0, which is exactly T0 = 288.15 K |
| `StandardAtmosphere.TemperatureProfile` | src/atmospheric_models/ISA_atmosphere.cpp:25-29 | on [0, 11000] temperature is 288.15 − 0.0065·a; above 11000 it is 216.65 |
| `StandardAtmosphere.TemperatureStrictlyDecreasingInTroposphere` | src/atmospheric_models/ISA_atmosphere.cpp:25-27 | for 0 ≤ a1 < a2 ≤ 11000, T(a2) < T(a1) |
| `StandardAtmosphere.TemperatureNonIncreasing` | src/atmospheric_models/ISA_atmosphere.cpp:21-30 | for all a1 ≤ a2, negative altitudes included, T(a2) ≤ T(a1) |
| `StandardAtmosphere.TemperatureAtTropopause` | src/atmospheric_models/ISA_atmosphere.cpp:25-29 | T0 − L·11000 equals 216.65 exactly; 11000 m itself takes the gradient branch, and that branch reaches the isothermal value there |
| `StandardAtmosphere.TemperatureLipschitz` | src/atmospheric_models/ISA_atmosphere.cpp:21-30 | \|T(a1) − T(a2)\| ≤ 0.0065·\|a1 − a2\| for all altitudes, so temperature is continuous everywhere, including at 0 m and 11000 m |
| `StandardAtmosphere.PressureClampsNegative` | src/atmospheric_models/ISA_atmosphere.cpp:33 | any negative altitude gives the pressure of altitude 0, for every pow and exp |
| `StandardAtmosphere.PressureAtSeaLevel` | src/atmospheric_models/ISA_atmosphere.cpp:33-37 | the pressure at 0 m is P0 · pow(1, g/(L·R)) |
| `StandardAtmosphere.PressureAnchoredAtTropopause` | src/atmospheric_models/ISA_atmosphere.cpp:35-42 | the gradient branch at 11000 m is exactly P_tropo; above 11000 m pressure is the 11000 m pressure times exp(−g(h−11000)/(R·216.65)) |
| `StandardAtmosphere.TropopausePressurePositive` | src/atmospheric_models/ISA_atmosphere.cpp:40-41 | P_tropo > 0 for every pow positive on positive bases (`PowPositive`) |
| `StandardAtmosphere.GradientPressureDecreasing` | src/atmospheric_models/ISA_atmosphere.cpp:34-37 | on [0, 11000] the tropospheric formula strictly decreases with altitude for every pow increasing in its base (`PowIncreasing`) |
| `StandardAtmosphere.GradientPressureAboveTropopause` | src/atmospheric_models/ISA_atmosphere.cpp:34-41 | on [0, 11000] pressure is at least P_tropo, for every pow increasing in its base (`PowIncreasing`) |
| `StandardAtmosphere.IsothermalPressureBelowTropopause` | src/atmospheric_models/ISA_atmosphere.cpp:40-42 | above 11000 m pressure is strictly below P_tropo, for a positive pow and an exp below 1 on negative arguments (`PowPositive`, `ExpBelowOneOnNegatives`) |
| `StandardAtmosphere.IsothermalPressureDecreasing` | src/atmospheric_models/ISA_atmosphere.cpp:40-42 | above 11000 m pressure strictly decreases with altitude, for a positive pow and a strictly increasing exp (`PowPositive`, `ExpIncreasing`) |
| `StandardAtmosphere.PressureStrictlyDecreasing` | src/atmospheric_models/ISA_atmosphere.cpp:32-43 | for 0 ≤ a1 < a2, P(a2) < P(a1), across the branch point included, for a pow positive and increasing in its base and an exp increasing and below 1 on negative arguments |
| `StandardAtmosphere.PressureNonIncreasing` | src/atmospheric_models/ISA_atmosphere.cpp:32-43 | for all a1 ≤ a2, negative altitudes included, P(a2) ≤ P(a1), under the same assumptions as PressureStrictlyDecreasing |
| `StandardAtmosphere.PressurePositive` | src/atmospheric_models/ISA_atmosphere.cpp:32-43 | pressure is positive at every altitude, for a positive pow and a positive exp (`PowPositive`, `ExpPositive`) |
| `StandardAtmosphere.DensityPositive` | src/atmospheric_models/ISA_atmosphere.cpp:53-57 | density is positive at every altitude, for a positive pow and a positive exp (`PowPositive`, `ExpPositive`) |
| `StandardAtmosphere.QueriesUseDirectFormulas` | src/atmospheric_models/ISA_atmosphere.cpp:45-57 | getTemperature and getPressure return exactly directTemperature and directPressure, and getDensity is getPressure / (287.053 · getTemperature) |
| `AtmosphereFactory.Atmosphere.GetTemperature` | include/atmosphere.h:12 | temperature through the interface lies in [216.65 K, 288.15 K] |
| `AtmosphereFactory.Atmosphere.GetPressure` | include/atmosphere.h:13 | pressure through the interface is consistent with temperature through the interface, by the gradient formula up to 11000 m and the isothermal exponential from P_tropo above |
| `AtmosphereFactory.Atmosphere.GetDensity` | include/atmosphere.h:14 | density through the interface satisfies density · R·T = pressure |
| `AtmosphereFactory.CreateAtmosphere` | src/atmospheric_models/AtmosphereFactory.cpp:6-15 | succeeds if and only if the kind is ISA, and then yields the ISA model; otherwise it fails with the "Unknown AtmosphereType!" error and no model |
| `AtmosphereFactory.TableKindUnsupported` | src/atmospheric_models/AtmosphereFactory.cpp:11-12 | ISA_TABLE (include/constants.h:22) is declared but fails with the unknown-kind error |
| `AtmosphereFactory.CreatedModelAnswersAsFresh` | src/atmospheric_models/AtmosphereFactory.cpp:10 | the model from the factory answers temperature, pressure and density exactly as a newly constructed ISA_atmosphere does |
| `Body.Bounce` | Object.cpp:52-64 | one axis of the collision check: when pos − r < 0 the result is exactly (r, −0.95·v), even if the upper test would also hold, so at most one branch runs; when pos ≥ r and pos + r > limit it is exactly (limit − r, −0.95·v); a position inside [r, limit − r] is left as it is; when limit ≥ 2r the result is inside |
| `Body.BounceIdempotent` | Object.cpp:49-80 | when limit ≥ 2r, bouncing a second time changes nothing |
| `Body.BounceNarrowAxisNeverSettles` | Object.cpp:52-64 | when limit < 2r, the result is never inside, and a second bounce moves it again, so the operation is not idempotent there |
| `Body.Object.constructor` | Object.cpp:6-12 | the default object is at (0,0) with velocity (0,0) and radius 10 |
| `Body.Object.FromState` | Object.cpp:14-19 | position, velocity, mass and radius are the arguments, unchanged |
| `Body.Object.Accelerate` | Object.cpp:21-24 | velocity components 0 and 1 gain ax and ay; position, mass, radius and the other velocity components are unchanged |
| `Body.Object.UpdatePos` | Object.cpp:27-30 | position components 0 and 1 gain the velocity components; velocity, mass and radius are unchanged |
| `Body.Object.CheckCollisionWithScreen` | Object.cpp:49-80 | the y axis is `Bounce` against the height and the x axis is `Bounce` against the width, each from its own old values alone; radius and mass are unchanged; an object inside the screen is unchanged; on a screen at least 2r wide and high the object ends inside |

## Left out

- All of main.cpp is left out: the GLFW window, the render and event loop, the global screen sizes, and the pairwise gravity force. The force uses float `sqrt` and depends on float rounding.
- `Object::DrawCircle` is left out. It consists only of OpenGL immediate-mode calls with `cos`/`sin`.
- The default constructor's `std::cout` message is left out (I/O).
- Float and double rounding are not modelled. All arithmetic is over `real`, including the `float` fields of `Object` and the double product hidden in `*= -0.95`. Two consequences are known:
  - In binary64, `288.15 - 0.0065 * 11000.0` is 216.64999999999998. So the program's temperature rises by one ulp just above 11 000 m. TemperatureNonIncreasing, TemperatureAtTropopause and TemperatureLipschitz hold over the reals only.
  - `std::exp` underflows to 0 for arguments below about −745. So above roughly 4.74·10⁶ m the program's pressure and density are 0. PressurePositive, DensityPositive and PressureStrictlyDecreasing hold only for a real-valued `exp`.
  - C++ has a NaN altitude, and `real` has no counterpart for it. NaN fails both `altitude < 0.0` and `altitude <= 11000.0` (ISA_atmosphere.cpp:24-25, :33-34). So the program returns 216.65 K and a NaN pressure for it.
- The default `Object()` never sets `mass`. In C++ the field is indeterminate. In the model `mass` is an arbitrary value, and the constructor promises nothing about it.
- Pressure is never given a numeric value, because `std::pow` and `std::exp` stay uninterpreted.
- PressureStrictlyDecreasing: holds only for `pow`/`exp` with the properties in its `requires`. The same restriction applies to PressureNonIncreasing, PressurePositive, DensityPositive, GradientPressureDecreasing, GradientPressureAboveTropopause, IsothermalPressureBelowTropopause, IsothermalPressureDecreasing and TropopausePressurePositive. The C library functions themselves are not modelled.
- `getProperties` and `computeISAProperties` are left out. They are declared in include/ISA_atmosphere.h:19-27 but defined nowhere, so they have no behaviour to model.
- The unused constants `Tropo_grad` and `L0` are left out. So is the header's include of `Atmosphere.h` rather than `atmosphere.h`. These are build details only.
- `InterpolationType` (include/constants.h:25-27) is left out. No code in the modelled files uses it.
- Vectors shorter than two components are excluded by `requires`. In the C++ they would be indexed out of range, which is undefined behaviour.
- Concurrency is not modelled. The code is single-threaded.
