/** AtmosphereFactory.cpp: selects an atmosphere model by kind, or fails. */
module AtmosphereFactory {
  import opened StandardAtmosphere

  /** The kinds of atmosphere a caller may ask for (AtmosphereType). */
  datatype AtmosphereType = Isa | IsaTable

  /** The error the factory raises for a kind it does not build. */
  datatype FactoryError = UnknownAtmosphereType(message: string)

  datatype Result<T, E> = Success(value: T) | Failure(error: E)

  /** The Atmosphere interface. ISA_atmosphere is its only implementation, so
      a model is the ISA model it wraps, and each query dispatches to it. */
  datatype Atmosphere = IsaModel(isa: IsaAtmosphere)
  {
    function GetTemperature(altitude: real): (t: real)
      ensures TropopauseTemperature <= t <= T0
    {
      match this
      case IsaModel(isa) => isa.GetTemperature(altitude)
    }

    /** Pressure through the interface is consistent with temperature through
        the interface at the same altitude. */
    function GetPressure(m: CMath, altitude: real): (p: real)
      ensures ClampAltitude(altitude) <= TropopauseAltitude ==>
        p == P0 * m.pow(GetTemperature(altitude) / T0, PressureExponent)
      ensures ClampAltitude(altitude) > TropopauseAltitude ==>
        p == isa.TropopausePressure(m)
             * m.exp(-G * (ClampAltitude(altitude) - TropopauseAltitude) / (R * GetTemperature(altitude)))
    {
      match this
      case IsaModel(isa) => isa.GetPressure(m, altitude)
    }

    function GetDensity(m: CMath, altitude: real): (rho: real)
      ensures rho * (R * GetTemperature(altitude)) == GetPressure(m, altitude)
    {
      match this
      case IsaModel(isa) => isa.GetDensity(m, altitude)
    }
  }

  const UnknownKindMessage: string := "Unknown AtmosphereType!"

  /** createAtmosphere: only ISA is built; every other kind, ISA_TABLE
      included, fails and yields no model. */
  function CreateAtmosphere(kind: AtmosphereType): (r: Result<Atmosphere, FactoryError>)
    ensures r.Success? <==> kind == Isa
    ensures r.Success? ==> r.value == IsaModel(IsaAtmosphere)
    ensures r.Failure? ==> r.error == UnknownAtmosphereType(UnknownKindMessage)
  {
    match kind
    case Isa => Success(IsaModel(IsaAtmosphere))
    case _ => Failure(UnknownAtmosphereType(UnknownKindMessage))
  }

  /** ISA_TABLE is a declared kind that the factory does not build. */
  lemma TableKindUnsupported()
    ensures CreateAtmosphere(IsaTable) == Failure(UnknownAtmosphereType("Unknown AtmosphereType!"))
  {
  }

  /** The model the factory returns answers every query exactly as a freshly
      constructed ISA_atmosphere does. */
  lemma CreatedModelAnswersAsFresh(m: CMath, altitude: real)
    ensures CreateAtmosphere(Isa).Success?
    ensures var atm := CreateAtmosphere(Isa).value; var constructed := IsaAtmosphere;
      && atm.GetTemperature(altitude) == constructed.GetTemperature(altitude)
      && atm.GetPressure(m, altitude) == constructed.GetPressure(m, altitude)
      && atm.GetDensity(m, altitude) == constructed.GetDensity(m, altitude)
  {
  }
}
