/** The isothermal, isobaric plug-flow reactor for dry reforming of methane
    (simulation/pfr_drm_cantera.py): input validation, the kinetics parameters,
    the power-law forward rates, the equilibrium constants, the tanh-damped net
    rates and the explicit Euler march of the six species flows along the reactor.

    Floating-point numbers are modelled as reals. The mathematical library (exp,
    tanh, log, **) and the thermodynamic library (molar density, standard enthalpy
    and entropy) are parameters of the model; the only facts assumed about them are
    the sign and range facts collected in `Lawful`. */
module PfrDrmCantera {
  import opened Results

  // ------------------------------------------------------------------
  // Errors
  // ------------------------------------------------------------------

  /** Why an operation failed (the message of the raised exception). */
  datatype Reason =
    | BelowAbsoluteZero
    | NonPositivePressure
    | NegativeFlow(species: string)
    | NonPositiveTotalFlow
    | NonPositiveGhsv
    | NonPositiveSegments
    | NonPositivePreExponential
    | NegativeActivationEnergy
    | NegativeVolumetricFlow
    | InvalidMolarDensity
    | NonPositiveMoleFractionTotal
    | NegativeMoleFraction
    | InvalidTemperature
    | ZeroPressureNegativeOrder(species: string)
    | UnknownSpecies(species: string)
    | MathDomain
    | InvalidEquilibriumConstant

  /** The exception hierarchy: three kinds of model error, and the error every
      failed run is re-raised as. */
  datatype PfrError =
    | InputValidationError(reason: Reason)
    | KineticsError(reason: Reason)
    | ThermodynamicsError(reason: Reason)
    | PfrModelError(cause: PfrError)

  // ------------------------------------------------------------------
  // Constants
  // ------------------------------------------------------------------

  /** The gas constant as the thermodynamic library defines it, in J/(kmol K). */
  const GasConstant: real := 8314.46261815324
  /** One standard atmosphere, in Pa. */
  const OneAtm: real := 101325.0
  /** Exponent below which the rate constant is taken to be zero. */
  const ExpFloor: real := -700.0
  /** Bound on |ln Kp|. */
  const LnKpBound: real := 700.0
  /** Total flow at or below which the march stops, and the guard added to the
      final total. */
  const TinyFlow: real := 1.0e-30
  /** Floor on partial pressures inside a reaction quotient. */
  const PressureFloor: real := 1.0e-30
  /** Range a reaction quotient is clipped to, and the floor on Kp in a ratio. */
  const QuotientMin: real := 1.0e-300
  const QuotientMax: real := 1.0e300
  /** Smallest reactor volume, in m^3. */
  const MinVolume: real := 1.0e-15

  // ------------------------------------------------------------------
  // Species and flow vectors
  // ------------------------------------------------------------------

  /** The tracked species, in the order of the flow vector. */
  const SpeciesNames: seq<string> := ["CH4", "CO2", "CO", "H2", "H2O", "N2"]
  const ICH4: nat := 0
  const ICO2: nat := 1
  const ICO: nat := 2
  const IH2: nat := 3
  const IH2O: nat := 4
  const IN2: nat := 5

  /** A value per tracked species: flows in mol/s, mole fractions or pressures. */
  type Vec6 = s: seq<real> | |s| == 6 witness [0.0, 0.0, 0.0, 0.0, 0.0, 0.0]

  /** `F.sum()`. */
  function Sum6(v: Vec6): real {
    v[0] + v[1] + v[2] + v[3] + v[4] + v[5]
  }

  predicate NonNegative(v: Vec6) {
    forall k :: 0 <= k < 6 ==> v[k] >= 0.0
  }

  function Max(a: real, b: real): real {
    if a >= b then a else b
  }

  /** `np.clip(x, lo, hi)`. */
  function Clip(x: real, lo: real, hi: real): (r: real)
    requires lo <= hi
    ensures lo <= r <= hi
    ensures lo <= x <= hi ==> r == x
  {
    if x < lo then lo else if x > hi then hi else x
  }

  // ------------------------------------------------------------------
  // The external libraries
  // ------------------------------------------------------------------

  /** The floating-point library functions the engine calls. */
  datatype MathLib = MathLib(
    exp: real -> real,
    tanh: real -> real,
    log: real -> real,
    pow: (real, real) -> real)

  /** The facts about them the model relies on: exp is positive, tanh lies in
      (-1, 1) and is non-negative on non-negative arguments, a positive base raised
      to any power is positive, and zero raised to a positive power is zero. */
  ghost predicate Lawful(m: MathLib) {
    && (forall x :: m.exp(x) > 0.0)
    && (forall x :: -1.0 < m.tanh(x) < 1.0)
    && (forall x :: x >= 0.0 ==> m.tanh(x) >= 0.0)
    && (forall b, e :: b > 0.0 ==> m.pow(b, e) > 0.0)
    && (forall e :: e > 0.0 ==> m.pow(0.0, e) == 0.0)
  }

  /** The thermodynamic library: the species of the mechanism, the molar density
      in kmol/m^3 at (T, P, mole fractions), and the dimensionless standard
      enthalpy H/(RT) and entropy S/R of the species at an index, at T. */
  datatype Thermo = Thermo(
    speciesNames: seq<string>,
    densityMole: (real, real, Vec6) -> real,
    enthalpyRT: (nat, real) -> real,
    entropyR: (nat, real) -> real)

  /** A gas state: temperature in K, pressure in Pa, normalised mole fractions. */
  datatype Gas = Gas(T: real, P: real, X: Vec6)

  // ------------------------------------------------------------------
  // Kinetics parameters
  // ------------------------------------------------------------------

  /** Reaction orders, in the order of the source's dictionary. */
  type Orders = seq<(string, real)>

  /** Global power-law parameters for DRM and RWGS. */
  datatype KineticsParams = KineticsParams(
    aDrm: real, eDrm: real, ordersDrm: Orders,
    aRwgs: real, eRwgs: real, ordersRwgs: Orders)

  const DefaultOrdersDrm: Orders := [("CH4", 1.0), ("CO2", 1.0)]
  const DefaultOrdersRwgs: Orders := [("CO2", 1.0), ("H2", 1.0)]

  /** The placeholder parameters used when a run is given none. */
  const DefaultKinetics: KineticsParams :=
    KineticsParams(1.0e-3, 1.2e5, DefaultOrdersDrm, 5.0e-4, 9.0e4, DefaultOrdersRwgs)

  predicate ValidKinetics(k: KineticsParams) {
    k.aDrm > 0.0 && k.aRwgs > 0.0 && k.eDrm >= 0.0 && k.eRwgs >= 0.0
  }

  /** Constructing KineticsParams: missing orders get their defaults, then the
      pre-exponential factors must be positive and the activation energies
      non-negative, the factors being checked first. */
  function NewKineticsParams(
    aDrm: real := 1.0e-3, eDrm: real := 1.2e5, ordersDrm: Option<Orders> := None,
    aRwgs: real := 5.0e-4, eRwgs: real := 9.0e4, ordersRwgs: Option<Orders> := None)
    : (r: Result<KineticsParams, PfrError>)
    ensures r.Ok? <==> aDrm > 0.0 && aRwgs > 0.0 && eDrm >= 0.0 && eRwgs >= 0.0
    ensures r.Ok? ==> ValidKinetics(r.value)
    ensures r.Ok? ==> r.value.ordersDrm == (if ordersDrm.None? then DefaultOrdersDrm else ordersDrm.value)
    ensures r.Ok? ==> r.value.ordersRwgs == (if ordersRwgs.None? then DefaultOrdersRwgs else ordersRwgs.value)
    ensures r.Err? && (aDrm <= 0.0 || aRwgs <= 0.0) ==> r.error == InputValidationError(NonPositivePreExponential)
    ensures r.Err? && aDrm > 0.0 && aRwgs > 0.0 ==> r.error == InputValidationError(NegativeActivationEnergy)
  {
    var od := ordersDrm.GetOr(DefaultOrdersDrm);
    var orw := ordersRwgs.GetOr(DefaultOrdersRwgs);
    if aDrm <= 0.0 || aRwgs <= 0.0 then Err(InputValidationError(NonPositivePreExponential))
    else if eDrm < 0.0 || eRwgs < 0.0 then Err(InputValidationError(NegativeActivationEnergy))
    else Ok(KineticsParams(aDrm, eDrm, od, aRwgs, eRwgs, orw))
  }

  /** `KineticsParams()` with no arguments gives the placeholder parameters. */
  lemma DefaultKineticsValid()
    ensures NewKineticsParams() == Ok(DefaultKinetics)
    ensures ValidKinetics(DefaultKinetics)
  {
  }

  // ------------------------------------------------------------------
  // Input validation
  // ------------------------------------------------------------------

  /** What `validate_inputs` logs without failing. */
  datatype Warning = VeryHighTemperature | VeryHighPressure

  /** The species of the first negative flow, in dictionary order. */
  function FirstNegativeFlow(flows: seq<(string, real)>): (r: Option<string>)
    ensures r.None? <==> forall i :: 0 <= i < |flows| ==> flows[i].1 >= 0.0
    ensures r.Some? ==> exists i :: 0 <= i < |flows| && flows[i].1 < 0.0 && flows[i].0 == r.value
  {
    if flows == [] then None
    else if flows[0].1 < 0.0 then Some(flows[0].0)
    else
      var r := FirstNegativeFlow(flows[1..]);
      assert forall i :: 1 <= i < |flows| ==> flows[i] == flows[1..][i - 1];
      r
  }

  function FlowTotal(flows: seq<(string, real)>): real {
    if flows == [] then 0.0 else flows[0].1 + FlowTotal(flows[1..])
  }

  /** `validate_inputs`: every failure is an InputValidationError, raised exactly
      when the temperature is below absolute zero, the pressure is not positive,
      a flow is negative, the total flow is not positive or the GHSV is not
      positive; a very high temperature or pressure is only a warning. */
  function ValidateInputs(tC: real, pBar: real, flows: seq<(string, real)>, ghsv: real)
    : (r: Result<seq<Warning>, PfrError>)
    ensures r.Err? <==>
      || tC < -273.15 || pBar <= 0.0
      || (exists i :: 0 <= i < |flows| && flows[i].1 < 0.0)
      || FlowTotal(flows) <= 0.0 || ghsv <= 0.0
    ensures r.Err? ==> r.error.InputValidationError?
    ensures r.Ok? ==> (VeryHighTemperature in r.value <==> tC > 2000.0)
    ensures r.Ok? ==> (VeryHighPressure in r.value <==> pBar > 100.0)
  {
    if tC < -273.15 then Err(InputValidationError(BelowAbsoluteZero))
    else
      var warnT := if tC > 2000.0 then [VeryHighTemperature] else [];
      if pBar <= 0.0 then Err(InputValidationError(NonPositivePressure))
      else
        var warnP := if pBar > 100.0 then [VeryHighPressure] else [];
        match FirstNegativeFlow(flows)
        case Some(sp) => Err(InputValidationError(NegativeFlow(sp)))
        case None =>
          if FlowTotal(flows) <= 0.0 then Err(InputValidationError(NonPositiveTotalFlow))
          else if ghsv <= 0.0 then Err(InputValidationError(NonPositiveGhsv))
          else Ok(warnT + warnP)
  }

  // ------------------------------------------------------------------
  // Gas states and unit conversion
  // ------------------------------------------------------------------

  function Scale(v: Vec6, t: real): Vec6
    requires t != 0.0
  {
    [v[0] / t, v[1] / t, v[2] / t, v[3] / t, v[4] / t, v[5] / t]
  }

  lemma ScaleSum(v: Vec6, t: real)
    requires t != 0.0
    ensures Sum6(Scale(v, t)) == Sum6(v) / t
  {
    calc {
      Sum6(Scale(v, t));
      v[0] / t + v[1] / t + v[2] / t + v[3] / t + v[4] / t + v[5] / t;
      (v[0] + v[1] + v[2] + v[3] + v[4] + v[5]) / t;
    }
  }

  /** `build_gas`: the mole fractions must have a positive total and are then
      normalised; a negative normalised fraction is refused. A state the
      thermodynamic library itself rejects is not modelled. */
  function BuildGas(T: real, P: real, X: Vec6): (r: Result<Gas, PfrError>)
    ensures r.Ok? <==> Sum6(X) > 0.0 && NonNegative(X)
    ensures r.Err? ==> r.error.ThermodynamicsError?
    ensures r.Ok? ==> r.value.T == T && r.value.P == P
    ensures r.Ok? ==> NonNegative(r.value.X) && Sum6(r.value.X) == 1.0
  {
    var total := Sum6(X);
    if total <= 0.0 then Err(ThermodynamicsError(NonPositiveMoleFractionTotal))
    else
      var xn := Scale(X, total);
      ScaleSum(X, total);
      assert Sum6(xn) == 1.0 by {
        assert total / total == 1.0;
      }
      if exists k :: 0 <= k < 6 && xn[k] < 0.0 then Err(ThermodynamicsError(NegativeMoleFraction))
      else Ok(Gas(T, P, xn))
  }

  /** `mlpm_to_molps`: ml/min at the state of `gas` to mol/s, through the molar
      density. Fails for a negative volume flow and for a non-positive density;
      otherwise the molar flow is non-negative and zero exactly for a zero input. */
  function MlpmToMolps(mlPerMin: real, gas: Gas, th: Thermo): (r: Result<real, PfrError>)
    ensures r.Ok? <==> mlPerMin >= 0.0 && th.densityMole(gas.T, gas.P, gas.X) * 1.0e3 > 0.0
    ensures mlPerMin < 0.0 ==> r == Err(InputValidationError(NegativeVolumetricFlow))
    ensures r.Ok? ==> r.value >= 0.0 && (r.value == 0.0 <==> mlPerMin == 0.0)
  {
    if mlPerMin < 0.0 then Err(InputValidationError(NegativeVolumetricFlow))
    else
      var vdot := mlPerMin * 1.0e-6 / 60.0;
      var c := th.densityMole(gas.T, gas.P, gas.X) * 1.0e3;
      if c <= 0.0 then Err(ThermodynamicsError(InvalidMolarDensity))
      else Ok(vdot * c)
  }

  // ------------------------------------------------------------------
  // Power-law forward rates
  // ------------------------------------------------------------------

  /** `p_i.get(sp, 0.0)`. */
  function PressureOf(p: map<string, real>, sp: string): real {
    if sp in p then p[sp] else 0.0
  }

  /** The pressure a reaction order applies to: never negative. */
  function OrderPressure(p: map<string, real>, sp: string): real {
    Max(PressureOf(p, sp), 0.0)
  }

  /** One step of the product: a zero order is skipped, a zero pressure under a
      negative order raises, any other order multiplies in `pv ** alpha`. */
  function ApplyOrder(m: MathLib, acc: Result<real, PfrError>, entry: (string, real), p: map<string, real>)
    : Result<real, PfrError>
  {
    match acc
    case Err(e) => Err(e)
    case Ok(q) =>
      var pv := OrderPressure(p, entry.0);
      if entry.1 == 0.0 then Ok(q)
      else if pv == 0.0 && entry.1 < 0.0 then Err(KineticsError(ZeroPressureNegativeOrder(entry.0)))
      else Ok(q * m.pow(pv, entry.1))
  }

  /** The product of the partial pressures raised to their orders, accumulated over
      the orders in dictionary order. */
  function PressureProduct(m: MathLib, orders: Orders, p: map<string, real>): Result<real, PfrError>
    decreases |orders|
  {
    if orders == [] then Ok(1.0)
    else ApplyOrder(m, PressureProduct(m, orders[..|orders| - 1], p), orders[|orders| - 1], p)
  }

  /** `A exp(-E/(RT))`, taken to be zero when the exponent is below -700. */
  function RateConstant(m: MathLib, A: real, E: real, T: real): real
    requires T > 0.0
  {
    var arg := -E / (GasConstant * T);
    if arg < ExpFloor then 0.0 else A * m.exp(arg)
  }

  /** The forward power-law rate of `power_law_rate`, clamped at zero. */
  function ForwardRate(m: MathLib, A: real, E: real, orders: Orders, T: real, p: map<string, real>)
    : Result<real, PfrError>
  {
    if T <= 0.0 then Err(KineticsError(InvalidTemperature))
    else
      var k := RateConstant(m, A, E, T);
      match PressureProduct(m, orders, p)
      case Err(e) => Err(e)
      case Ok(q) => Ok(Max(k * q, 0.0))
  }

  /** Once a prefix of the orders raises, the whole product raises the same error. */
  lemma {:induction false} PressureProductPrefixErr(m: MathLib, orders: Orders, p: map<string, real>, i: nat)
    requires i <= |orders|
    requires PressureProduct(m, orders[..i], p).Err?
    ensures PressureProduct(m, orders, p) == PressureProduct(m, orders[..i], p)
    decreases |orders|
  {
    if i < |orders| {
      var init := orders[..|orders| - 1];
      assert init[..i] == orders[..i];
      PressureProductPrefixErr(m, init, p, i);
    } else {
      assert orders[..i] == orders;
    }
  }

  /** `power_law_rate`: the loop accumulates `prod_p` over the orders. */
  method PowerLawRate(m: MathLib, A: real, E: real, orders: Orders, T: real, p: map<string, real>)
    returns (r: Result<real, PfrError>)
    ensures r == ForwardRate(m, A, E, orders, T, p)
  {
    if T <= 0.0 {
      return Err(KineticsError(InvalidTemperature));
    }
    var k := RateConstant(m, A, E, T);
    var prod := 1.0;
    var i := 0;
    while i < |orders|
      invariant 0 <= i <= |orders|
      invariant PressureProduct(m, orders[..i], p) == Ok(prod)
    {
      var sp := orders[i].0;
      var alpha := orders[i].1;
      var pv := OrderPressure(p, sp);
      var pre := orders[..i + 1];
      assert pre[..|pre| - 1] == orders[..i];
      assert pre[|pre| - 1] == orders[i];
      if alpha != 0.0 {
        if pv == 0.0 && alpha < 0.0 {
          assert PressureProduct(m, pre, p).error == KineticsError(ZeroPressureNegativeOrder(sp));
          PressureProductPrefixErr(m, orders, p, i + 1);
          return Err(KineticsError(ZeroPressureNegativeOrder(sp)));
        }
        assert PressureProduct(m, pre, p).Ok?;
        assert PressureProduct(m, pre, p).value == prod * m.pow(pv, alpha);
        prod := prod * m.pow(pv, alpha);
      }
      i := i + 1;
    }
    assert orders[..i] == orders;
    assert ForwardRate(m, A, E, orders, T, p).Ok?;
    assert ForwardRate(m, A, E, orders, T, p).value == Max(k * prod, 0.0);
    r := Ok(Max(k * prod, 0.0));
  }

  /** The pressure product raises exactly when some order is negative and its
      species has zero (or no) partial pressure. */
  lemma {:induction false} PressureProductErrIff(m: MathLib, orders: Orders, p: map<string, real>)
    ensures PressureProduct(m, orders, p).Err? <==>
      exists i :: 0 <= i < |orders| && orders[i].1 < 0.0 && OrderPressure(p, orders[i].0) == 0.0
    decreases |orders|
  {
    if orders != [] {
      var init := orders[..|orders| - 1];
      PressureProductErrIff(m, init, p);
      assert forall i :: 0 <= i < |init| ==> init[i] == orders[i];
    }
  }

  /** With a lawful library the pressure product is never negative. */
  lemma {:induction false} PressureProductNonNegative(m: MathLib, orders: Orders, p: map<string, real>)
    requires Lawful(m)
    ensures PressureProduct(m, orders, p).Ok? ==> PressureProduct(m, orders, p).value >= 0.0
    decreases |orders|
  {
    if orders != [] {
      var init := orders[..|orders| - 1];
      PressureProductNonNegative(m, init, p);
      var sp := orders[|orders| - 1].0;
      var alpha := orders[|orders| - 1].1;
      var pv := OrderPressure(p, sp);
      if PressureProduct(m, init, p).Ok? && alpha != 0.0 && !(pv == 0.0 && alpha < 0.0) {
        var q := PressureProduct(m, init, p).value;
        assert m.pow(pv, alpha) >= 0.0;
        assert q * m.pow(pv, alpha) >= 0.0;
      }
    }
  }

  /** The orders with non-zero exponent, in their original order. */
  function NonZeroOrders(orders: Orders): (r: Orders)
    ensures forall i :: 0 <= i < |r| ==> r[i].1 != 0.0
    decreases |orders|
  {
    if orders == [] then []
    else
      NonZeroOrders(orders[..|orders| - 1])
        + (if orders[|orders| - 1].1 != 0.0 then [orders[|orders| - 1]] else [])
  }

  /** Species of order zero play no part in the rate. */
  lemma {:induction false} ZeroOrdersIgnored(m: MathLib, orders: Orders, p: map<string, real>)
    ensures PressureProduct(m, NonZeroOrders(orders), p) == PressureProduct(m, orders, p)
    decreases |orders|
  {
    if orders != [] {
      var init := orders[..|orders| - 1];
      var last := orders[|orders| - 1];
      ZeroOrdersIgnored(m, init, p);
      if last.1 != 0.0 {
        var nz := NonZeroOrders(orders);
        assert nz == NonZeroOrders(init) + [last];
        assert nz[..|nz| - 1] == NonZeroOrders(init);
        assert nz[|nz| - 1] == last;
      } else {
        assert NonZeroOrders(orders) == NonZeroOrders(init);
      }
    }
  }

  /** The forward rate is never negative, and at a positive temperature it fails
      exactly when a negative order meets a zero partial pressure. */
  lemma ForwardRateFacts(m: MathLib, A: real, E: real, orders: Orders, T: real, p: map<string, real>)
    ensures ForwardRate(m, A, E, orders, T, p).Ok? ==> ForwardRate(m, A, E, orders, T, p).value >= 0.0
    ensures T > 0.0 ==> (ForwardRate(m, A, E, orders, T, p).Err? <==>
      exists i :: 0 <= i < |orders| && orders[i].1 < 0.0 && OrderPressure(p, orders[i].0) == 0.0)
  {
    PressureProductErrIff(m, orders, p);
  }

  /** Below the exponent floor the rate constant, and with it the rate, is zero. */
  lemma ForwardRateUnderflow(m: MathLib, A: real, E: real, orders: Orders, T: real, p: map<string, real>)
    requires T > 0.0 && -E / (GasConstant * T) < ExpFloor
    ensures ForwardRate(m, A, E, orders, T, p).Ok? ==> ForwardRate(m, A, E, orders, T, p).value == 0.0
  {
    assert RateConstant(m, A, E, T) == 0.0;
  }

  /** With a non-negative pre-exponential factor and a lawful library the rate
      constant is non-negative. */
  lemma RateConstantNonNegative(m: MathLib, A: real, E: real, T: real)
    requires Lawful(m)
    requires T > 0.0 && A >= 0.0
    ensures RateConstant(m, A, E, T) >= 0.0
  {
    var arg := -E / (GasConstant * T);
    if arg >= ExpFloor {
      assert m.exp(arg) > 0.0;
      assert A * m.exp(arg) >= 0.0;
    }
  }

  /** With a non-negative pre-exponential factor and a lawful library, the clamp at
      zero never changes the product `k * prod_p`. */
  lemma ForwardRateUnclamped(m: MathLib, A: real, E: real, orders: Orders, T: real, p: map<string, real>)
    requires Lawful(m)
    requires T > 0.0 && A >= 0.0
    requires ForwardRate(m, A, E, orders, T, p).Ok?
    ensures ForwardRate(m, A, E, orders, T, p).value
      == RateConstant(m, A, E, T) * PressureProduct(m, orders, p).value
  {
    PressureProductNonNegative(m, orders, p);
    RateConstantNonNegative(m, A, E, T);
    var k := RateConstant(m, A, E, T);
    var q := PressureProduct(m, orders, p).value;
    assert k * q >= 0.0;
  }

  // ------------------------------------------------------------------
  // Equilibrium constants
  // ------------------------------------------------------------------

  /** A reaction as (species, stoichiometric coefficient) pairs. */
  type Reaction = seq<(string, int)>

  /** CH4 + CO2 <-> 2 CO + 2 H2. */
  const RxnDrm: Reaction := [("CO", 2), ("H2", 2), ("CH4", -1), ("CO2", -1)]
  /** CO2 + H2 <-> CO + H2O. */
  const RxnRwgs: Reaction := [("CO", 1), ("H2O", 1), ("CO2", -1), ("H2", -1)]

  /** The index the mechanism's name map gives a species: the last position of the
      name, as a dictionary built from an enumeration keeps the last one. */
  function SpeciesIndex(names: seq<string>, sp: string): (r: Option<nat>)
    ensures r.None? <==> sp !in names
    ensures r.Some? ==> r.value < |names| && names[r.value] == sp
    ensures r.Some? ==> forall j :: r.value < j < |names| ==> names[j] != sp
    decreases |names|
  {
    if names == [] then None
    else if names[|names| - 1] == sp then Some(|names| - 1)
    else
      var r := SpeciesIndex(names[..|names| - 1], sp);
      assert names == names[..|names| - 1] + [names[|names| - 1]];
      r
  }

  /** The standard Gibbs energy of the species at an index, in J/kmol:
      `h0 - T s0` with `h0 = (H/RT) R T` and `s0 = (S/R) R`. */
  function StandardGibbs(th: Thermo, i: nat, T: real): real {
    var h0 := th.enthalpyRT(i, T) * GasConstant * T;
    var s0 := th.entropyR(i, T) * GasConstant;
    h0 - T * s0
  }

  /** One step of the accumulation of `(dnu, dG0)`: an unknown species raises. */
  function AddSpecies(th: Thermo, T: real, acc: Result<(real, real), PfrError>, entry: (string, int))
    : Result<(real, real), PfrError>
  {
    match acc
    case Err(e) => Err(e)
    case Ok(sums) =>
      match SpeciesIndex(th.speciesNames, entry.0)
      case None => Err(ThermodynamicsError(UnknownSpecies(entry.0)))
      case Some(i) => Ok((sums.0 + entry.1 as real, sums.1 + entry.1 as real * StandardGibbs(th, i, T)))
  }

  /** The net mole change and the standard Gibbs energy change of a reaction,
      accumulated over its species in order. */
  function GibbsChange(th: Thermo, T: real, rxn: Reaction): Result<(real, real), PfrError>
    decreases |rxn|
  {
    if rxn == [] then Ok((0.0, 0.0))
    else AddSpecies(th, T, GibbsChange(th, T, rxn[..|rxn| - 1]), rxn[|rxn| - 1])
  }

  /** `ln Kp = -dG0/(R T) - dnu ln(P0/P)`. */
  function LnKp(m: MathLib, dnu: real, dG0: real, T: real, P: real): real
    requires T != 0.0 && P > 0.0
  {
    -dG0 / (GasConstant * T) - dnu * m.log(OneAtm / P)
  }

  /** `Kp = exp(clip(ln Kp, -700, 700))`. A zero temperature or a non-positive
      pressure raises inside the arithmetic, which the source reports as a
      ThermodynamicsError. */
  function EquilibriumKp(m: MathLib, th: Thermo, gas: Gas, rxn: Reaction): Result<real, PfrError> {
    match GibbsChange(th, gas.T, rxn)
    case Err(e) => Err(e)
    case Ok(sums) =>
      if gas.T == 0.0 || gas.P <= 0.0 then Err(ThermodynamicsError(MathDomain))
      else
        var kp := m.exp(Clip(LnKp(m, sums.0, sums.1, gas.T, gas.P), -LnKpBound, LnKpBound));
        if kp <= 0.0 then Err(ThermodynamicsError(InvalidEquilibriumConstant)) else Ok(kp)
  }

  lemma {:induction false} GibbsChangePrefixErr(th: Thermo, T: real, rxn: Reaction, i: nat)
    requires i <= |rxn|
    requires GibbsChange(th, T, rxn[..i]).Err?
    ensures GibbsChange(th, T, rxn) == GibbsChange(th, T, rxn[..i])
    decreases |rxn|
  {
    if i < |rxn| {
      var init := rxn[..|rxn| - 1];
      assert init[..i] == rxn[..i];
      GibbsChangePrefixErr(th, T, init, i);
    } else {
      assert rxn[..i] == rxn;
    }
  }

  /** `equilibrium_constant`: the loop accumulates `dnu` and `dG0`. */
  method EquilibriumConstant(m: MathLib, th: Thermo, gas: Gas, rxn: Reaction)
    returns (r: Result<real, PfrError>)
    ensures r == EquilibriumKp(m, th, gas, rxn)
  {
    var dnu := 0.0;
    var dG0 := 0.0;
    var i := 0;
    while i < |rxn|
      invariant 0 <= i <= |rxn|
      invariant GibbsChange(th, gas.T, rxn[..i]) == Ok((dnu, dG0))
    {
      var sp := rxn[i].0;
      var nu := rxn[i].1 as real;
      var pre := rxn[..i + 1];
      assert pre[..|pre| - 1] == rxn[..i];
      assert pre[|pre| - 1] == rxn[i];
      var idx := SpeciesIndex(th.speciesNames, sp);
      if idx.None? {
        GibbsChangePrefixErr(th, gas.T, rxn, i + 1);
        return Err(ThermodynamicsError(UnknownSpecies(sp)));
      }
      assert GibbsChange(th, gas.T, pre)
        == AddSpecies(th, gas.T, Ok((dnu, dG0)), rxn[i]);
      dnu := dnu + nu;
      dG0 := dG0 + nu * StandardGibbs(th, idx.value, gas.T);
      assert GibbsChange(th, gas.T, pre).Ok?;
      assert GibbsChange(th, gas.T, pre).value.0 == dnu;
      assert GibbsChange(th, gas.T, pre).value.1 == dG0;
      i := i + 1;
    }
    assert rxn[..i] == rxn;
    if gas.T == 0.0 || gas.P <= 0.0 {
      return Err(ThermodynamicsError(MathDomain));
    }
    var lnKp := Clip(LnKp(m, dnu, dG0, gas.T, gas.P), -LnKpBound, LnKpBound);
    var kp := m.exp(lnKp);
    if kp <= 0.0 {
      return Err(ThermodynamicsError(InvalidEquilibriumConstant));
    }
    return Ok(kp);
  }

  /** Every species of the reaction is in the mechanism. */
  predicate KnownSpecies(th: Thermo, rxn: Reaction) {
    forall i :: 0 <= i < |rxn| ==> rxn[i].0 in th.speciesNames
  }

  lemma {:induction false} GibbsChangeErrIff(th: Thermo, T: real, rxn: Reaction)
    ensures GibbsChange(th, T, rxn).Err? <==> !KnownSpecies(th, rxn)
    decreases |rxn|
  {
    if rxn != [] {
      var init := rxn[..|rxn| - 1];
      GibbsChangeErrIff(th, T, init);
      assert forall i :: 0 <= i < |init| ==> init[i] == rxn[i];
    }
  }

  /** With a lawful library, Kp is the exponential of a value clipped to
      [-700, 700], hence strictly positive; it fails exactly when a species is
      missing from the mechanism, the temperature is zero or the pressure is not
      positive, and always as a ThermodynamicsError. */
  lemma EquilibriumKpFacts(m: MathLib, th: Thermo, gas: Gas, rxn: Reaction)
    requires Lawful(m)
    ensures EquilibriumKp(m, th, gas, rxn).Ok? ==> EquilibriumKp(m, th, gas, rxn).value > 0.0
    ensures EquilibriumKp(m, th, gas, rxn).Ok? ==>
      exists c :: -LnKpBound <= c <= LnKpBound && EquilibriumKp(m, th, gas, rxn).value == m.exp(c)
    ensures EquilibriumKp(m, th, gas, rxn).Err? <==>
      !KnownSpecies(th, rxn) || gas.T == 0.0 || gas.P <= 0.0
    ensures EquilibriumKp(m, th, gas, rxn).Err? ==> EquilibriumKp(m, th, gas, rxn).error.ThermodynamicsError?
  {
    GibbsChangeErrIff(th, gas.T, rxn);
    GibbsChangeErrorKind(th, gas.T, rxn);
    if GibbsChange(th, gas.T, rxn).Ok? && gas.T != 0.0 && gas.P > 0.0 {
      var acc := GibbsChange(th, gas.T, rxn).value;
      var c := Clip(LnKp(m, acc.0, acc.1, gas.T, gas.P), -LnKpBound, LnKpBound);
      assert m.exp(c) > 0.0;
    }
  }

  lemma {:induction false} GibbsChangeErrorKind(th: Thermo, T: real, rxn: Reaction)
    ensures GibbsChange(th, T, rxn).Err? ==> GibbsChange(th, T, rxn).error.ThermodynamicsError?
    decreases |rxn|
  {
    if rxn != [] {
      GibbsChangeErrorKind(th, T, rxn[..|rxn| - 1]);
    }
  }

  // ------------------------------------------------------------------
  // Stoichiometry, reaction quotients and net rates
  // ------------------------------------------------------------------

  /** Stoichiometric vectors over [CH4, CO2, CO, H2, H2O, N2]. */
  const NuDrm: seq<int> := [-1, -1, 2, 2, 0, 0]
  const NuRwgs: seq<int> := [0, -1, 1, -1, 1, 0]

  /** The coefficient a reaction gives a species (zero when absent). */
  function CoefficientOf(rxn: Reaction, sp: string): int
    decreases |rxn|
  {
    if rxn == [] then 0
    else (if rxn[0].0 == sp then rxn[0].1 else 0) + CoefficientOf(rxn[1..], sp)
  }

  /** The stoichiometric vectors agree with the reaction tuples used for Kp. */
  lemma StoichiometryMatchesReactions()
    ensures forall k :: 0 <= k < 6 ==> NuDrm[k] == CoefficientOf(RxnDrm, SpeciesNames[k])
    ensures forall k :: 0 <= k < 6 ==> NuRwgs[k] == CoefficientOf(RxnRwgs, SpeciesNames[k])
  {
  }

  /** The product `prod max(p_k, 1e-30) ** nu_k` over the first `n` species with a
      non-zero coefficient. */
  function QuotientProduct(m: MathLib, nu: seq<int>, p: Vec6, n: nat): real
    requires n <= |nu| == 6
  {
    if n == 0 then 1.0
    else
      var q := QuotientProduct(m, nu, p, n - 1);
      if nu[n - 1] != 0 then q * m.pow(Max(p[n - 1], PressureFloor), nu[n - 1] as real) else q
  }

  /** The reaction quotient Qp, clipped to [1e-300, 1e300]. */
  function Quotient(m: MathLib, nu: seq<int>, p: Vec6): (q: real)
    requires |nu| == 6
    ensures QuotientMin <= q <= QuotientMax
  {
    Clip(QuotientProduct(m, nu, p, 6), QuotientMin, QuotientMax)
  }

  /** `Qp(nu_vec)`: the loop multiplies in the floored partial pressures. */
  method ReactionQuotient(m: MathLib, nu: seq<int>, p: Vec6) returns (q: real)
    requires |nu| == 6
    ensures q == Quotient(m, nu, p)
  {
    q := 1.0;
    var k := 0;
    while k < 6
      invariant 0 <= k <= 6
      invariant q == QuotientProduct(m, nu, p, k)
    {
      if nu[k] != 0 {
        var pVal := Max(p[k], PressureFloor);
        q := q * m.pow(pVal, nu[k] as real);
      }
      k := k + 1;
    }
    q := Clip(q, QuotientMin, QuotientMax);
  }

  /** With a lawful library the unclipped quotient is strictly positive, since every
      partial pressure is floored at 1e-30 before it is raised to a power. */
  lemma {:induction false} QuotientProductPositive(m: MathLib, nu: seq<int>, p: Vec6, n: nat)
    requires Lawful(m)
    requires n <= |nu| == 6
    ensures QuotientProduct(m, nu, p, n) > 0.0
  {
    if n > 0 {
      QuotientProductPositive(m, nu, p, n - 1);
      if nu[n - 1] != 0 {
        var q := QuotientProduct(m, nu, p, n - 1);
        var f := m.pow(Max(p[n - 1], PressureFloor), nu[n - 1] as real);
        assert f > 0.0;
        assert q * f > 0.0;
      }
    }
  }

  /** `r_net = r_f (1 - tanh(Qp / max(Kp, 1e-300)))`. */
  function NetRate(m: MathLib, rf: real, qp: real, kp: real): real {
    rf * (1.0 - m.tanh(qp / Max(kp, QuotientMin)))
  }

  /** The tanh damping never reverses a reaction: for a non-negative forward rate
      and quotient, the net rate lies between zero and the forward rate, and it is
      positive whenever the forward rate is. */
  lemma NetRateBounds(m: MathLib, rf: real, qp: real, kp: real)
    requires Lawful(m)
    requires rf >= 0.0 && qp >= 0.0
    ensures 0.0 <= NetRate(m, rf, qp, kp) <= rf
    ensures rf > 0.0 ==> NetRate(m, rf, qp, kp) > 0.0
  {
    var ratio := qp / Max(kp, QuotientMin);
    assert ratio >= 0.0;
    var damp := 1.0 - m.tanh(ratio);
    assert 0.0 < damp <= 1.0;
    assert rf * damp <= rf * 1.0;
  }

  // ------------------------------------------------------------------
  // Species balances
  // ------------------------------------------------------------------

  /** Atoms of carbon, hydrogen and oxygen per molecule of each tracked species. */
  const CarbonAtoms: seq<int> := [1, 1, 1, 0, 0, 0]
  const HydrogenAtoms: seq<int> := [4, 0, 0, 2, 2, 0]
  const OxygenAtoms: seq<int> := [0, 2, 1, 0, 1, 0]

  /** The flow of an element carried by a flow vector. */
  function ElementFlow(atoms: seq<int>, F: Vec6): real
    requires |atoms| == 6
  {
    atoms[0] as real * F[0] + atoms[1] as real * F[1] + atoms[2] as real * F[2]
      + atoms[3] as real * F[3] + atoms[4] as real * F[4] + atoms[5] as real * F[5]
  }

  /** `R = nu_drm r_drm + nu_rwgs r_rwgs`. */
  function SourceTerms(nD: real, nR: real): Vec6 {
    seq(6, k requires 0 <= k < 6 => NuDrm[k] as real * nD + NuRwgs[k] as real * nR)
  }

  /** `F + R dV`. */
  function Advance(F: Vec6, R: Vec6, dV: real): Vec6 {
    seq(6, k requires 0 <= k < 6 => F[k] + R[k] * dV)
  }

  /** `np.clip(F, 0.0, None)`. */
  function ClipNonNegative(F: Vec6): (G: Vec6)
    ensures NonNegative(G)
    ensures forall k :: 0 <= k < 6 ==> (F[k] >= 0.0 ==> G[k] == F[k]) && (F[k] < 0.0 ==> G[k] == 0.0)
  {
    seq(6, k requires 0 <= k < 6 => Max(F[k], 0.0))
  }

  /** One explicit Euler step of `dF/dV = R`, followed by the clip at zero. */
  function EulerStep(F: Vec6, nD: real, nR: real, dV: real): (G: Vec6)
    ensures NonNegative(G)
  {
    ClipNonNegative(Advance(F, SourceTerms(nD, nR), dV))
  }

  lemma SourceTermsBalanced(nD: real, nR: real)
    ensures ElementFlow(CarbonAtoms, SourceTerms(nD, nR)) == 0.0
    ensures ElementFlow(HydrogenAtoms, SourceTerms(nD, nR)) == 0.0
    ensures ElementFlow(OxygenAtoms, SourceTerms(nD, nR)) == 0.0
  {
    var R := SourceTerms(nD, nR);
    assert R[0] == -nD && R[1] == -nD - nR && R[2] == 2.0 * nD + nR;
    assert R[3] == 2.0 * nD - nR && R[4] == nR && R[5] == 0.0;
  }

  lemma ElementFlowAdvance(atoms: seq<int>, F: Vec6, R: Vec6, dV: real)
    requires |atoms| == 6
    ensures ElementFlow(atoms, Advance(F, R, dV)) == ElementFlow(atoms, F) + ElementFlow(atoms, R) * dV
  {
    var G := Advance(F, R, dV);
    assert forall k :: 0 <= k < 6 ==> G[k] == F[k] + R[k] * dV;
  }

  /** Both reactions are atom-balanced, so before the clip at zero an Euler step
      conserves the flows of carbon, hydrogen and oxygen exactly, whatever the
      rates and the volume step. */
  lemma EulerStepConservesAtoms(F: Vec6, nD: real, nR: real, dV: real)
    ensures ElementFlow(CarbonAtoms, Advance(F, SourceTerms(nD, nR), dV)) == ElementFlow(CarbonAtoms, F)
    ensures ElementFlow(HydrogenAtoms, Advance(F, SourceTerms(nD, nR), dV)) == ElementFlow(HydrogenAtoms, F)
    ensures ElementFlow(OxygenAtoms, Advance(F, SourceTerms(nD, nR), dV)) == ElementFlow(OxygenAtoms, F)
  {
    SourceTermsBalanced(nD, nR);
    ElementFlowAdvance(CarbonAtoms, F, SourceTerms(nD, nR), dV);
    ElementFlowAdvance(HydrogenAtoms, F, SourceTerms(nD, nR), dV);
    ElementFlowAdvance(OxygenAtoms, F, SourceTerms(nD, nR), dV);
  }

  // ------------------------------------------------------------------
  // One reactor segment
  // ------------------------------------------------------------------

  /** What stays fixed along the reactor: libraries, kinetics, temperature in K,
      pressure in Pa and the volume of one segment in m^3. */
  datatype Reactor = Reactor(m: MathLib, th: Thermo, kin: KineticsParams, T: real, P: real, dV: real)

  /** `X = F / Ft`. */
  function Composition(F: Vec6): Vec6
    requires Sum6(F) != 0.0
  {
    Scale(F, Sum6(F))
  }

  /** `p_k = X_k P`. */
  function PartialPressures(X: Vec6, P: real): Vec6 {
    [X[0] * P, X[1] * P, X[2] * P, X[3] * P, X[4] * P, X[5] * P]
  }

  /** The partial pressures keyed by species name. */
  function PressureMap(p: Vec6): (pm: map<string, real>)
    ensures forall k :: 0 <= k < 6 ==> SpeciesNames[k] in pm && pm[SpeciesNames[k]] == p[k]
  {
    map["CH4" := p[0], "CO2" := p[1], "CO" := p[2], "H2" := p[3], "H2O" := p[4], "N2" := p[5]]
  }

  /** The body of one iteration of the segment loop: the flows after the segment,
      or the error that makes the loop keep the flows and go on. */
  function SegmentStep(r: Reactor, F: Vec6): (res: Result<Vec6, PfrError>)
    requires Sum6(F) > TinyFlow
    ensures res.Ok? ==> NonNegative(res.value)
  {
    var X := Composition(F);
    match BuildGas(r.T, r.P, X)
    case Err(e) => Err(e)
    case Ok(gas) =>
      var p := PartialPressures(X, r.P);
      var pm := PressureMap(p);
      match ForwardRate(r.m, r.kin.aDrm, r.kin.eDrm, r.kin.ordersDrm, gas.T, pm)
      case Err(e) => Err(e)
      case Ok(rfD) =>
        match ForwardRate(r.m, r.kin.aRwgs, r.kin.eRwgs, r.kin.ordersRwgs, gas.T, pm)
        case Err(e) => Err(e)
        case Ok(rfR) =>
          match EquilibriumKp(r.m, r.th, gas, RxnDrm)
          case Err(e) => Err(e)
          case Ok(kD) =>
            match EquilibriumKp(r.m, r.th, gas, RxnRwgs)
            case Err(e) => Err(e)
            case Ok(kR) =>
              var nD := NetRate(r.m, rfD, Quotient(r.m, NuDrm, p), kD);
              var nR := NetRate(r.m, rfR, Quotient(r.m, NuRwgs, p), kR);
              Ok(EulerStep(F, nD, nR, r.dV))
  }

  /** One iteration of the segment loop, calling the rate, equilibrium and
      quotient routines in the order the source does. */
  method Segment(r: Reactor, F: Vec6) returns (res: Result<Vec6, PfrError>)
    requires Sum6(F) > TinyFlow
    ensures res == SegmentStep(r, F)
  {
    var X := Composition(F);
    var g := BuildGas(r.T, r.P, X);
    if g.Err? {
      return Err(g.error);
    }
    var gas := g.value;
    var p := PartialPressures(X, r.P);
    var pm := PressureMap(p);
    var rfD := PowerLawRate(r.m, r.kin.aDrm, r.kin.eDrm, r.kin.ordersDrm, gas.T, pm);
    if rfD.Err? {
      return Err(rfD.error);
    }
    var rfR := PowerLawRate(r.m, r.kin.aRwgs, r.kin.eRwgs, r.kin.ordersRwgs, gas.T, pm);
    if rfR.Err? {
      return Err(rfR.error);
    }
    var kD := EquilibriumConstant(r.m, r.th, gas, RxnDrm);
    if kD.Err? {
      return Err(kD.error);
    }
    var kR := EquilibriumConstant(r.m, r.th, gas, RxnRwgs);
    if kR.Err? {
      return Err(kR.error);
    }
    var qD := ReactionQuotient(r.m, NuDrm, p);
    var qR := ReactionQuotient(r.m, NuRwgs, p);
    var nD := NetRate(r.m, rfD.value, qD, kD.value);
    var nR := NetRate(r.m, rfR.value, qR, kR.value);
    res := Ok(EulerStep(F, nD, nR, r.dV));
  }

  /** An Euler step with a non-negative DRM rate and volume step never raises the
      methane flow, and leaves the nitrogen flow as it is. */
  lemma EulerStepMethaneAndNitrogen(F: Vec6, nD: real, nR: real, dV: real)
    requires NonNegative(F)
    requires nD >= 0.0 && dV >= 0.0
    ensures EulerStep(F, nD, nR, dV)[ICH4] <= F[ICH4]
    ensures EulerStep(F, nD, nR, dV)[IN2] == F[IN2]
  {
    var A := Advance(F, SourceTerms(nD, nR), dV);
    assert A[ICH4] == F[ICH4] + (-1.0 * nD + 0.0 * nR) * dV;
    assert nD * dV >= 0.0;
    assert A[IN2] == F[IN2] + (0.0 * nD + 0.0 * nR) * dV;
  }

  /** With a lawful library and a non-negative segment volume, a segment never
      produces methane and never changes the nitrogen flow: DRM only consumes CH4,
      RWGS does not touch it, and N2 takes part in neither. */
  lemma SegmentMethaneAndNitrogen(r: Reactor, F: Vec6)
    requires Lawful(r.m)
    requires r.dV >= 0.0
    requires NonNegative(F)
    requires Sum6(F) > TinyFlow
    requires SegmentStep(r, F).Ok?
    ensures SegmentStep(r, F).value[ICH4] <= F[ICH4]
    ensures SegmentStep(r, F).value[IN2] == F[IN2]
  {
    var X := Composition(F);
    var gas := BuildGas(r.T, r.P, X).value;
    var p := PartialPressures(X, r.P);
    var pm := PressureMap(p);
    var rfD := ForwardRate(r.m, r.kin.aDrm, r.kin.eDrm, r.kin.ordersDrm, gas.T, pm).value;
    var rfR := ForwardRate(r.m, r.kin.aRwgs, r.kin.eRwgs, r.kin.ordersRwgs, gas.T, pm).value;
    var kD := EquilibriumKp(r.m, r.th, gas, RxnDrm).value;
    var kR := EquilibriumKp(r.m, r.th, gas, RxnRwgs).value;
    var nD := NetRate(r.m, rfD, Quotient(r.m, NuDrm, p), kD);
    var nR := NetRate(r.m, rfR, Quotient(r.m, NuRwgs, p), kR);
    assert SegmentStep(r, F).value == EulerStep(F, nD, nR, r.dV);
    ForwardRateFacts(r.m, r.kin.aDrm, r.kin.eDrm, r.kin.ordersDrm, gas.T, pm);
    NetRateBounds(r.m, rfD, Quotient(r.m, NuDrm, p), kD);
    EulerStepMethaneAndNitrogen(F, nD, nR, r.dV);
  }

  // ------------------------------------------------------------------
  // The march along the reactor
  // ------------------------------------------------------------------

  /** The flows after one iteration of the loop body when the loop does not stop:
      a segment that raises leaves the flows as they are. */
  function NextFlows(r: Reactor, F: Vec6): Vec6
    requires Sum6(F) > TinyFlow
  {
    match SegmentStep(r, F)
    case Err(_) => F
    case Ok(G) => G
  }

  /** The loop body as a function on flow vectors (it is only ever applied to a
      total flow above 1e-30). */
  function Stepper(r: Reactor): Vec6 -> Vec6 {
    F => if Sum6(F) > TinyFlow then NextFlows(r, F) else F
  }

  /** The flows after `n` more iterations of a segment loop whose body is `step`
      and which stops once the total flow is at most 1e-30. */
  function March(step: Vec6 -> Vec6, F: Vec6, n: nat): Vec6
    decreases n
  {
    if n == 0 || Sum6(F) <= TinyFlow then F else March(step, step(F), n - 1)
  }

  /** One iteration of the march. */
  lemma MarchUnfold(step: Vec6 -> Vec6, F: Vec6, n: nat)
    requires n > 0 && Sum6(F) > TinyFlow
    ensures March(step, F, n) == March(step, step(F), n - 1)
  {
  }

  /** A step that keeps flows non-negative keeps them so along the march. */
  lemma {:induction false} MarchNonNegative(step: Vec6 -> Vec6, F: Vec6, n: nat)
    requires forall G: Vec6 :: NonNegative(G) ==> NonNegative(step(G))
    requires NonNegative(F)
    ensures NonNegative(March(step, F, n))
    decreases n
  {
    if n > 0 && Sum6(F) > TinyFlow {
      MarchNonNegative(step, step(F), n - 1);
    }
  }

  /** Marching `a` segments and then `b` more is marching `a + b` segments. */
  lemma {:induction false} MarchCompose(step: Vec6 -> Vec6, F: Vec6, a: nat, b: nat)
    ensures March(step, F, a + b) == March(step, March(step, F, a), b)
    decreases a
  {
    if a > 0 && Sum6(F) > TinyFlow {
      MarchCompose(step, step(F), a - 1, b);
    }
  }

  /** A flow vector the step leaves unchanged is the outlet of every march from it. */
  lemma {:induction false} MarchFixedPoint(step: Vec6 -> Vec6, F: Vec6, n: nat)
    requires step(F) == F
    ensures March(step, F, n) == F
    decreases n
  {
    if n > 0 && Sum6(F) > TinyFlow {
      MarchFixedPoint(step, F, n - 1);
    }
  }

  /** A step that never raises the methane flow and keeps the nitrogen flow keeps
      both properties along the march. */
  lemma {:induction false} MarchMethaneAndNitrogen(step: Vec6 -> Vec6, F: Vec6, n: nat)
    requires forall G: Vec6 :: NonNegative(G) ==>
      NonNegative(step(G)) && step(G)[ICH4] <= G[ICH4] && step(G)[IN2] == G[IN2]
    requires NonNegative(F)
    ensures March(step, F, n)[ICH4] <= F[ICH4]
    ensures March(step, F, n)[IN2] == F[IN2]
    decreases n
  {
    if n > 0 && Sum6(F) > TinyFlow {
      MarchMethaneAndNitrogen(step, step(F), n - 1);
    }
  }

  /** The loop body keeps the flows non-negative. */
  lemma StepperNonNegative(r: Reactor)
    ensures forall G: Vec6 :: NonNegative(G) ==> NonNegative(Stepper(r)(G))
  {
  }

  /** With a lawful library and a non-negative segment volume, the loop body never
      raises the methane flow and keeps the nitrogen flow. */
  lemma StepperMethaneAndNitrogen(r: Reactor)
    requires Lawful(r.m)
    requires r.dV >= 0.0
    ensures forall G: Vec6 :: NonNegative(G) ==>
      NonNegative(Stepper(r)(G)) && Stepper(r)(G)[ICH4] <= G[ICH4] && Stepper(r)(G)[IN2] == G[IN2]
  {
    forall G: Vec6 | NonNegative(G)
      ensures NonNegative(Stepper(r)(G)) && Stepper(r)(G)[ICH4] <= G[ICH4] && Stepper(r)(G)[IN2] == G[IN2]
    {
      if Sum6(G) > TinyFlow && SegmentStep(r, G).Ok? {
        SegmentMethaneAndNitrogen(r, G);
      }
    }
  }

  /** A segment that raises raises again in every later segment, since the state
      does not change: the outlet is the flow vector at that point. */
  lemma StuckOnFailure(r: Reactor, F: Vec6, n: nat)
    requires Sum6(F) > TinyFlow
    requires SegmentStep(r, F).Err?
    ensures March(Stepper(r), F, n) == F
  {
    assert Stepper(r)(F) == F;
    MarchFixedPoint(Stepper(r), F, n);
  }

  // ------------------------------------------------------------------
  // The whole run
  // ------------------------------------------------------------------

  /** The outlet summary: mole fractions of five species and the total flow. */
  datatype Outlet = Outlet(yH2: real, yCH4: real, yCO: real, yCO2: real, yH2O: real, ftotMolPerS: real)

  /** `Ft = F.sum() + 1e-30`, and each fraction is its flow over `Ft`. */
  function OutletOf(F: Vec6): (o: Outlet)
    requires NonNegative(F)
    ensures o.ftotMolPerS == Sum6(F) + TinyFlow
  {
    var ft := Sum6(F) + TinyFlow;
    Outlet(F[IH2] / ft, F[ICH4] / ft, F[ICO] / ft, F[ICO2] / ft, F[IH2O] / ft, ft)
  }

  /** The fractions are non-negative and, because of the 1e-30 guard and the
      unreported nitrogen, sum to strictly less than one. */
  lemma OutletFractions(F: Vec6)
    requires NonNegative(F)
    ensures var o := OutletOf(F);
      && o.ftotMolPerS > 0.0
      && o.yH2 >= 0.0 && o.yCH4 >= 0.0 && o.yCO >= 0.0 && o.yCO2 >= 0.0 && o.yH2O >= 0.0
      && o.yH2 + o.yCH4 + o.yCO + o.yCO2 + o.yH2O < 1.0
  {
    var ft := Sum6(F) + TinyFlow;
    var five := F[IH2] + F[ICH4] + F[ICO] + F[ICO2] + F[IH2O];
    assert five < ft;
    calc {
      F[IH2] / ft + F[ICH4] / ft + F[ICO] / ft + F[ICO2] / ft + F[IH2O] / ft;
      five / ft;
    }
    assert five / ft < 1.0;
  }

  /** The validation flows, in the order the source builds them. */
  function InletFlows(fCH4: real, fCO2: real, fN2: real): seq<(string, real)> {
    [("CH4", fCH4), ("CO2", fCO2), ("N2", fN2)]
  }

  /** Validation of a run's inputs, spelled out for the three inlet flows. */
  lemma ValidateRunInputs(tC: real, pBar: real, fCH4: real, fCO2: real, fN2: real, ghsv: real)
    ensures ValidateInputs(tC, pBar, InletFlows(fCH4, fCO2, fN2), ghsv).Ok? <==>
      && tC >= -273.15 && pBar > 0.0 && ghsv > 0.0
      && fCH4 >= 0.0 && fCO2 >= 0.0 && fN2 >= 0.0 && fCH4 + fCO2 + fN2 > 0.0
  {
    var flows := InletFlows(fCH4, fCO2, fN2);
    assert flows[0].1 == fCH4 && flows[1].1 == fCO2 && flows[2].1 == fN2;
    assert FlowTotal(flows) == fCH4 + FlowTotal(flows[1..]);
    assert FlowTotal(flows[1..]) == fCO2 + FlowTotal(flows[2..]);
    assert FlowTotal(flows[2..]) == fN2 + FlowTotal(flows[3..]);
  }

  /** The equimolar CH4/CO2 composition the inlet flows are converted at. */
  const ConversionComposition: Vec6 := [0.5, 0.5, 0.0, 0.0, 0.0, 0.0]

  /** The gas at the conversion composition has exactly that composition. */
  lemma ConversionGas(T: real, P: real)
    ensures BuildGas(T, P, ConversionComposition) == Ok(Gas(T, P, ConversionComposition))
  {
    assert Scale(ConversionComposition, 1.0) == ConversionComposition;
  }

  /** The inlet molar flows [CH4, CO2, 0, 0, 0, N2]; nitrogen is converted only
      when its volume flow is positive. */
  function InletMolarFlows(fCH4: real, fCO2: real, fN2: real, gas: Gas, th: Thermo)
    : (res: Result<Vec6, PfrError>)
    ensures res.Ok? <==> fCH4 >= 0.0 && fCO2 >= 0.0 && th.densityMole(gas.T, gas.P, gas.X) * 1.0e3 > 0.0
    ensures res.Ok? ==> NonNegative(res.value)
    ensures res.Ok? ==> res.value[ICO] == 0.0 && res.value[IH2] == 0.0 && res.value[IH2O] == 0.0
    ensures res.Ok? ==> (Sum6(res.value) > 0.0 <==> fCH4 > 0.0 || fCO2 > 0.0 || fN2 > 0.0)
  {
    match MlpmToMolps(fCH4, gas, th)
    case Err(e) => Err(e)
    case Ok(fch4) =>
      match MlpmToMolps(fCO2, gas, th)
      case Err(e) => Err(e)
      case Ok(fco2) =>
        match (if fN2 > 0.0 then MlpmToMolps(fN2, gas, th) else Ok(0.0))
        case Err(e) => var failed: Result<Vec6, PfrError> := Err(e); failed
        case Ok(fn2) => Ok([fch4, fco2, 0.0, 0.0, 0.0, fn2])
  }

  /** `X0`: the inlet CH4, CO2 and N2 flows over their sum plus 1e-30. */
  function InletComposition(F0: Vec6): Vec6
    requires NonNegative(F0)
  {
    var s := F0[ICH4] + F0[ICO2] + F0[IN2] + TinyFlow;
    [F0[ICH4] / s, F0[ICO2] / s, 0.0, 0.0, 0.0, F0[IN2] / s]
  }

  /** Non-negative inlet flows with a positive total always give a valid second gas
      state. */
  lemma InletCompositionValid(T: real, P: real, F0: Vec6)
    requires NonNegative(F0) && F0[ICO] == 0.0 && F0[IH2] == 0.0 && F0[IH2O] == 0.0
    requires Sum6(F0) > 0.0
    ensures BuildGas(T, P, InletComposition(F0)).Ok?
  {
    var s := F0[ICH4] + F0[ICO2] + F0[IN2] + TinyFlow;
    var X := InletComposition(F0);
    assert s > 0.0;
    assert X[0] >= 0.0 && X[1] >= 0.0 && X[5] >= 0.0;
    assert Sum6(X) == (F0[ICH4] + F0[ICO2] + F0[IN2]) / s;
    assert Sum6(X) > 0.0;
  }

  /** `V_reactor / nseg` with `V_reactor = max(Vdot_in / GHSV, 1e-15)` and the ideal
      gas inlet volume flow `Vdot_in = F.sum() R T / P`. */
  function SegmentVolume(F0: Vec6, T: real, P: real, ghsv: real, nseg: int): (dV: real)
    requires P != 0.0 && ghsv != 0.0 && nseg > 0
    ensures dV > 0.0
  {
    var vdot := Sum6(F0) * (GasConstant * T / P);
    var volume := Max(vdot / ghsv, MinVolume);
    volume / nseg as real
  }

  /** Everything `pfr_drm` does before the segment loop: validation, default
      kinetics, the segment count check, unit conversion of the inlet flows, the
      second gas state and the segment volume. */
  function Prepare(m: MathLib, th: Thermo, tC: real, pBar: real, fCH4: real, fCO2: real, fN2: real,
                   ghsv: real, nseg: int, kin: Option<KineticsParams>)
    : Result<(Reactor, Vec6), PfrError>
  {
    match ValidateInputs(tC, pBar, InletFlows(fCH4, fCO2, fN2), ghsv)
    case Err(e) => Err(e)
    case Ok(_) =>
      var k := kin.GetOr(DefaultKinetics);
      if nseg <= 0 then Err(InputValidationError(NonPositiveSegments))
      else
        var T := tC + 273.15;
        var P := pBar * 1.0e5;
        match BuildGas(T, P, ConversionComposition)
        case Err(e) => Err(e)
        case Ok(gas) =>
          match InletMolarFlows(fCH4, fCO2, fN2, gas, th)
          case Err(e) => Err(e)
          case Ok(F0) =>
            match BuildGas(T, P, InletComposition(F0))
            case Err(e) => Err(e)
            case Ok(_) => Ok((Reactor(m, th, k, T, P, SegmentVolume(F0, T, P, ghsv, nseg)), F0))
  }

  /** What a successful preparation guarantees the loop. */
  ghost predicate PreparedWell(m: MathLib, tC: real, pBar: real, kin: Option<KineticsParams>, r: Reactor, F0: Vec6) {
    && (Lawful(m) ==> Lawful(r.m)) && r.T == tC + 273.15 && r.P == pBar * 1.0e5 && r.kin == kin.GetOr(DefaultKinetics)
    && r.dV > 0.0
    && NonNegative(F0) && F0[ICO] == 0.0 && F0[IH2] == 0.0 && F0[IH2O] == 0.0
  }

  /** Preparation fails exactly when validation fails, the segment count is not
      positive or the molar density at the conversion state is not positive; on
      success the reactor has a positive segment volume and the inlet flows are
      non-negative with no products. */
  lemma PrepareFacts(m: MathLib, th: Thermo, tC: real, pBar: real, fCH4: real, fCO2: real, fN2: real,
                     ghsv: real, nseg: int, kin: Option<KineticsParams>)
    ensures Prepare(m, th, tC, pBar, fCH4, fCO2, fN2, ghsv, nseg, kin).Err? <==>
      || ValidateInputs(tC, pBar, InletFlows(fCH4, fCO2, fN2), ghsv).Err?
      || nseg <= 0
      || th.densityMole(tC + 273.15, pBar * 1.0e5, ConversionComposition) * 1.0e3 <= 0.0
    ensures Prepare(m, th, tC, pBar, fCH4, fCO2, fN2, ghsv, nseg, kin).Ok? ==>
      var prep := Prepare(m, th, tC, pBar, fCH4, fCO2, fN2, ghsv, nseg, kin).value;
      PreparedWell(m, tC, pBar, kin, prep.0, prep.1)
  {
    ValidateRunInputs(tC, pBar, fCH4, fCO2, fN2, ghsv);
    if ValidateInputs(tC, pBar, InletFlows(fCH4, fCO2, fN2), ghsv).Ok? && nseg > 0 {
      var T := tC + 273.15;
      var P := pBar * 1.0e5;
      ConversionGas(T, P);
      var gas := Gas(T, P, ConversionComposition);
      var flows := InletMolarFlows(fCH4, fCO2, fN2, gas, th);
      if flows.Ok? {
        InletCompositionValid(T, P, flows.value);
      }
    }
  }

  /** The specification of `pfr_drm`: the outlet after `nseg` segments from the
      prepared inlet flows; every failure is re-raised as a PFRModelError. */
  function PfrOutlet(m: MathLib, th: Thermo, tC: real, pBar: real, fCH4: real, fCO2: real, fN2: real,
                     ghsv: real, nseg: int, kin: Option<KineticsParams>)
    : (res: Result<Outlet, PfrError>)
    ensures res.Err? ==> res.error.PfrModelError?
  {
    match Prepare(m, th, tC, pBar, fCH4, fCO2, fN2, ghsv, nseg, kin)
    case Err(e) => Err(PfrModelError(e))
    case Ok(prep) =>
      PrepareFacts(m, th, tC, pBar, fCH4, fCO2, fN2, ghsv, nseg, kin);
      StepperNonNegative(prep.0);
      MarchNonNegative(Stepper(prep.0), prep.1, nseg);
      Ok(OutletOf(March(Stepper(prep.0), prep.1, nseg)))
  }

  /** What the loop body does to the flows, in terms of the outcome of the segment. */
  lemma StepperOutcome(r: Reactor, F: Vec6, outcome: Result<Vec6, PfrError>)
    requires Sum6(F) > TinyFlow
    requires outcome == SegmentStep(r, F)
    ensures Stepper(r)(F) == if outcome.Ok? then outcome.value else F
  {
  }

  /** Overwrites the flow array with the flows after a segment. */
  method Store(F: array<real>, G: Vec6)
    requires F.Length == 6
    modifies F
    ensures F[..] == G
  {
    F[0], F[1], F[2], F[3], F[4], F[5] := G[0], G[1], G[2], G[3], G[4], G[5];
  }

  /** The segment loop of `pfr_drm`: at most `nseg` segments, stopping early once
      the total flow is at most 1e-30, skipping the update of a segment that
      raises. */
  method MarchSegments(reactor: Reactor, F: array<real>, nseg: nat)
    requires F.Length == 6
    requires NonNegative(F[..])
    modifies F
    ensures F[..] == March(Stepper(reactor), old(F[..]), nseg)
    ensures NonNegative(F[..])
  {
    ghost var step := Stepper(reactor);
    ghost var F0: Vec6 := F[..];
    var segment := 0;
    while segment < nseg
      invariant 0 <= segment <= nseg
      invariant NonNegative(F[..])
      invariant March(step, F[..], nseg - segment) == March(step, F0, nseg)
    {
      var ft := F[0] + F[1] + F[2] + F[3] + F[4] + F[5];
      if ft <= TinyFlow {
        break;
      }
      ghost var before: Vec6 := F[..];
      RunSegment(reactor, F);
      MarchUnfold(step, before, nseg - segment);
      segment := segment + 1;
    }
    assert March(step, F[..], nseg - segment) == F[..];
  }

  /** One turn of the segment loop: the flows after the segment, or unchanged when
      the segment raises. */
  method RunSegment(reactor: Reactor, F: array<real>)
    requires F.Length == 6
    requires NonNegative(F[..]) && Sum6(F[..]) > TinyFlow
    modifies F
    ensures F[..] == Stepper(reactor)(old(F[..]))
    ensures NonNegative(F[..])
  {
    ghost var before: Vec6 := F[..];
    var outcome := Segment(reactor, F[..]);
    StepperOutcome(reactor, before, outcome);
    if outcome.Ok? {
      Store(F, outcome.value);
    }
  }

  /** `pfr_drm`: preparation, then the segment loop over a six-entry flow array,
      then the outlet summary; every failure is re-raised as a PFRModelError. */
  method PfrDrm(m: MathLib, th: Thermo, tC: real, pBar: real, fCH4: real, fCO2: real, fN2: real,
                ghsv: real, nseg: int, kin: Option<KineticsParams>)
    returns (res: Result<Outlet, PfrError>)
    ensures res == PfrOutlet(m, th, tC, pBar, fCH4, fCO2, fN2, ghsv, nseg, kin)
  {
    var prep := Prepare(m, th, tC, pBar, fCH4, fCO2, fN2, ghsv, nseg, kin);
    if prep.Err? {
      return Err(PfrModelError(prep.error));
    }
    PrepareFacts(m, th, tC, pBar, fCH4, fCO2, fN2, ghsv, nseg, kin);
    var reactor := prep.value.0;
    var F0 := prep.value.1;
    var F := new real[6][F0[0], F0[1], F0[2], F0[3], F0[4], F0[5]];
    assert F[..] == F0;
    MarchSegments(reactor, F, nseg);
    res := Ok(OutletOf(F[..]));
  }

  /** A run fails exactly when preparation fails; a successful run reports
      non-negative fractions summing to less than one; and, with a lawful library,
      the outlet methane flow is at most the inlet one and the nitrogen flow is the
      inlet one. */
  lemma PfrOutletFacts(m: MathLib, th: Thermo, tC: real, pBar: real, fCH4: real, fCO2: real, fN2: real,
                       ghsv: real, nseg: int, kin: Option<KineticsParams>)
    requires Lawful(m)
    ensures PfrOutlet(m, th, tC, pBar, fCH4, fCO2, fN2, ghsv, nseg, kin).Err? <==>
      || ValidateInputs(tC, pBar, InletFlows(fCH4, fCO2, fN2), ghsv).Err?
      || nseg <= 0
      || th.densityMole(tC + 273.15, pBar * 1.0e5, ConversionComposition) * 1.0e3 <= 0.0
    ensures PfrOutlet(m, th, tC, pBar, fCH4, fCO2, fN2, ghsv, nseg, kin).Ok? ==>
      var o := PfrOutlet(m, th, tC, pBar, fCH4, fCO2, fN2, ghsv, nseg, kin).value;
      && o.yH2 >= 0.0 && o.yCH4 >= 0.0 && o.yCO >= 0.0 && o.yCO2 >= 0.0 && o.yH2O >= 0.0
      && o.yH2 + o.yCH4 + o.yCO + o.yCO2 + o.yH2O < 1.0
    ensures Prepare(m, th, tC, pBar, fCH4, fCO2, fN2, ghsv, nseg, kin).Ok? ==>
      var prep := Prepare(m, th, tC, pBar, fCH4, fCO2, fN2, ghsv, nseg, kin).value;
      && March(Stepper(prep.0), prep.1, nseg)[ICH4] <= prep.1[ICH4]
      && March(Stepper(prep.0), prep.1, nseg)[IN2] == prep.1[IN2]
  {
    PrepareFacts(m, th, tC, pBar, fCH4, fCO2, fN2, ghsv, nseg, kin);
    var prepared := Prepare(m, th, tC, pBar, fCH4, fCO2, fN2, ghsv, nseg, kin);
    if prepared.Ok? {
      var r := prepared.value.0;
      var F0 := prepared.value.1;
      StepperNonNegative(r);
      MarchNonNegative(Stepper(r), F0, nseg);
      OutletFractions(March(Stepper(r), F0, nseg));
      StepperMethaneAndNitrogen(r);
      MarchMethaneAndNitrogen(Stepper(r), F0, nseg);
    }
  }
}
