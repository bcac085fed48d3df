# digital-twin-devops: a Dafny model of the process-simulation and knowledge-base core

The digital-twin backend simulates a dry-methane-reforming (DRM) plant and answers questions about it from a
document knowledge base. This project models, in Dafny, the deterministic logic behind both halves:

- **PFR integrator** (`PfrDrmCantera`, `pfr_drm_cantera.dfy`): kinetics-parameter checks, input validation,
  the unit conversion ml/min → mol/s, the power-law forward rate with its underflow floor and its
  zero-pressure/negative-order error, the equilibrium constant with `ln Kp` clipped to [-700, 700], the
  reaction quotient, the damped net rate, the atom-balanced stoichiometry, and the segment loop that updates a
  six-entry flow array in place, clamps it non-negative, keeps it unchanged when a segment fails and stops
  when the total flow vanishes. Transcendental functions (`exp`, `tanh`, `log`, `**`) and Cantera's molar
  density and standard enthalpies/entropies are parameters (`MathLib`, `Thermo`); the laws the proofs rely on
  (`exp` is positive, `tanh` lies in (-1, 1) and is non-negative on non-negative arguments, a positive base
  raised to any power is positive, zero raised to a positive power is zero) are the predicate `Lawful`.
- **Algebraic flowsheet** (`DtwinDrm`, `dtwin_drm.dfy`): `simulate_drm`, present verbatim in both
  `simu/dtwin_drm.py` and `backend/server.py`: mixing of the mass-flow-controller streams, the fixed-conversion
  reactor CH4 + CO2 → 2 CO + 2 H2, compositions, duties and key performance indicators. Dictionaries are
  association lists in insertion order.
- **Server helpers** (`Server`, `server.dfy`): alert counting, the SQL `WHERE` builder of the stream filter,
  the CSV timestamp remapping, the `key: value` fallback parser of the FOP simulation output, and the
  active-stream filter.
- **Simulation store** (`Database`, `database.dfy`): the part of `save_simulation_result` that turns an API
  response into rows: status, stream names, density normalisation, modification-string parsing. The SQLite
  store is a class whose table fields are sequences the method appends to.
- **DWSIM client helpers** (`DwsimApiClient`, `dwsim_api_client.dfy`): base-URL normalisation (a class
  holding the module-level `BASE_URL`) and the dashboard summary of `frontend_data_format_example`.
- **Document pipeline**: recursive text chunking (`TextChunker`), JSON flattening and extension dispatch
  (`DocumentProcessor`), the vector-store manager with its filtering, metadata defaults, batching and result
  formatting (`ChromaManager`, a class over the client's collections), and the retrieval-augmented answer
  service (`RagService`).
- Shared: `Results` (Option/Result), `PyStr` (the Python string operations used: `strip`, `split`, `find`,
  `lower`, `int()`, `str()` of integers), `PyValues` (JSON-like values and dictionaries).

External collaborators become parameters: the embedding search (`Search`), the LLM (`llm`), uuid generation
(`freshId`), the clock (`nowHour`), the file system (the document list handed to the processor) and the
database connection (the store's sequences).

## Model

| member | source | states |
|---|---|---|
| PyStr.TrimStartFacts | backend/text_chunker.py:60 | `lstrip` removes exactly a leading run of whitespace: the result is a suffix of the text that does not start with whitespace, and what was removed is all whitespace |
| PyStr.TrimEndFacts | backend/text_chunker.py:60 | `rstrip` removes exactly a trailing run of whitespace |
| PyStr.StripEnds | backend/text_chunker.py:62 | a stripped string is empty or starts and ends with a non-space |
| PyStr.BlankIffAllSpace | backend/text_chunker.py:60 | `s.strip()` is empty iff every character of `s` is whitespace |
| PyStr.StripIdempotent | backend/text_chunker.py:62 | stripping twice is stripping once |
| PyStr.StripUnspaced | backend/chroma_manager.py:117 | a string that starts and ends with a non-space is its own strip |
| PyStr.JoinSplit | backend/database.py:188-192 | joining `s.split(sep)` with `sep` gives back `s`, for a non-empty separator |
| PyStr.SplitPiecesFree | backend/text_chunker.py:25 | no piece of `s.split(sep)` contains `sep` |
| PyStr.SplitJoinChar | backend/database.py:188-192 | splitting a join on a one-character separator absent from the parts gives back the parts |
| PyStr.WordsOfTwo | backend/database.py:198 | `split()` of two non-blank words separated by a space is the two words |
| PyStr.DigitsOfNat | backend/database.py:198 | the decimal digits of `str(n)` read back as `n` |
| PyStr.ParseIntToString | backend/database.py:198 | `int(str(i)) == i` for every integer |
| PyStr.Lower | backend/document_processor.py:166 | `lower()` keeps the length and lowercases each character |
| PyStr.RStripChar | backend/dwsim_api_client.py:29 | `rstrip('/')` removes exactly the trailing run of '/': the result is a prefix not ending in '/', and what was removed is all '/' |
| PyStr.Find | backend/server.py:1288 | the index found is the first occurrence of the separator; none is found iff it does not occur |
| PyValues.Get | backend/chroma_manager.py:117 | `dict.get` finds a value iff the key is present, and the value found is stored under that key |
| PyValues.IntKey | backend/database.py:146 | hashing a value as a dictionary key fails exactly for lists and dictionaries; integers key as themselves |
| PfrDrmCantera.Clip | simulation/pfr_drm_cantera.py:225 | the clipped value lies in [lo, hi] and equals the input when the input already does |
| PfrDrmCantera.NewKineticsParams | simulation/pfr_drm_cantera.py:59-73 | construction succeeds iff both pre-exponential factors are positive and both activation energies non-negative; the positive-factor check comes first; missing orders default to {CH4: 1, CO2: 1} and {CO2: 1, H2: 1} |
| PfrDrmCantera.DefaultKineticsValid | simulation/pfr_drm_cantera.py:45-66 | the default parameters construct without error and are valid |
| PfrDrmCantera.FirstNegativeFlow | simulation/pfr_drm_cantera.py:91-93 | no flow is reported iff every flow is non-negative; a reported species has a negative flow |
| PfrDrmCantera.ValidateInputs | simulation/pfr_drm_cantera.py:79-100 | an InputValidationError exactly when T < -273.15 °C, P ≤ 0, some flow < 0, total flow ≤ 0 or GHSV ≤ 0; otherwise only warnings, the temperature warning iff T > 2000 °C and the pressure warning iff P > 100 bar |
| PfrDrmCantera.BuildGas | simulation/pfr_drm_cantera.py:103-133 | succeeds iff the mole fractions have a positive total and none is negative; failures are ThermodynamicsErrors; the stored fractions are non-negative and sum to 1 |
| PfrDrmCantera.ScaleSum | simulation/pfr_drm_cantera.py:117 | dividing every fraction by the total divides their sum by it |
| PfrDrmCantera.MlpmToMolps | simulation/pfr_drm_cantera.py:136-154 | a negative flow is an InputValidationError; success iff the flow is non-negative and the molar density positive; the result is non-negative and zero iff the flow is zero |
| PfrDrmCantera.PowerLawRate | simulation/pfr_drm_cantera.py:157-191 | the loop over the orders computes the forward-rate function `ForwardRate` |
| PfrDrmCantera.PressureProductPrefixErr | simulation/pfr_drm_cantera.py:176-181 | once a species raises, the rest of the orders do not change the outcome (the loop's early exit) |
| PfrDrmCantera.PressureProductErrIff | simulation/pfr_drm_cantera.py:176-181 | the pressure product fails iff some species has a negative order and zero clamped pressure |
| PfrDrmCantera.PressureProductNonNegative | simulation/pfr_drm_cantera.py:175-181 | the pressure product of clamped pressures is non-negative |
| PfrDrmCantera.NonZeroOrders | simulation/pfr_drm_cantera.py:178 | the filtered orders are all non-zero |
| PfrDrmCantera.ZeroOrdersIgnored | simulation/pfr_drm_cantera.py:178-181 | species of order 0 do not affect the pressure product |
| PfrDrmCantera.ForwardRateFacts | simulation/pfr_drm_cantera.py:157-188 | a returned rate is never negative; for T > 0 the rate fails iff some negative-order species has zero pressure |
| PfrDrmCantera.ForwardRateUnderflow | simulation/pfr_drm_cantera.py:168-171 | when -E/(RT) < -700 the rate constant is 0, so any returned rate is 0 |
| PfrDrmCantera.RateConstantNonNegative | simulation/pfr_drm_cantera.py:168-173 | with A ≥ 0 the rate constant is non-negative |
| PfrDrmCantera.ForwardRateUnclamped | simulation/pfr_drm_cantera.py:183-188 | the final `max(rate, 0)` never changes a rate: the rate is exactly k · Π p^α |
| PfrDrmCantera.SpeciesIndex | simulation/pfr_drm_cantera.py:204 | the index is found iff the species is in the mechanism, points at it, and is its last occurrence (the dictionary comprehension keeps the last) |
| PfrDrmCantera.EquilibriumConstant | simulation/pfr_drm_cantera.py:194-236 | the loop over the reaction computes the equilibrium-constant function `EquilibriumKp` |
| PfrDrmCantera.GibbsChangePrefixErr | simulation/pfr_drm_cantera.py:209-211 | once a species is missing, the rest of the reaction does not change the outcome |
| PfrDrmCantera.GibbsChangeErrIff | simulation/pfr_drm_cantera.py:209-211 | the Gibbs sum fails iff some species of the reaction is not in the mechanism |
| PfrDrmCantera.EquilibriumKpFacts | simulation/pfr_drm_cantera.py:194-236 | every returned Kp is positive and equals exp(c) for some c in [-700, 700]; it fails iff a species is missing or T = 0 or P ≤ 0, and every failure is a ThermodynamicsError |
| PfrDrmCantera.GibbsChangeErrorKind | simulation/pfr_drm_cantera.py:210-211 | a missing species is a ThermodynamicsError |
| PfrDrmCantera.StoichiometryMatchesReactions | simulation/pfr_drm_cantera.py:294-299 | `nu_drm` and `nu_rwgs` agree, species by species, with the (species, nu) tuples used for Kp |
| PfrDrmCantera.Quotient | simulation/pfr_drm_cantera.py:323-329 | the reaction quotient lies in [1e-300, 1e300] |
| PfrDrmCantera.ReactionQuotient | simulation/pfr_drm_cantera.py:323-329 | the loop over the species computes the quotient function `Quotient` |
| PfrDrmCantera.QuotientProductPositive | simulation/pfr_drm_cantera.py:324-328 | the unclipped product of pressures floored at 1e-30 is positive |
| PfrDrmCantera.NetRateBounds | simulation/pfr_drm_cantera.py:331-336 | with r_f ≥ 0 the damped net rate r_f·(1 − tanh(ratio)) lies in [0, r_f], and is positive when r_f is |
| PfrDrmCantera.ClipNonNegative | simulation/pfr_drm_cantera.py:348 | the clipped flows are non-negative, keep every non-negative entry and zero every negative one |
| PfrDrmCantera.EulerStep | simulation/pfr_drm_cantera.py:347-348 | the flows after a step are non-negative |
| PfrDrmCantera.SourceTermsBalanced | simulation/pfr_drm_cantera.py:295-339 | the source terms carry no net C, H or O atoms |
| PfrDrmCantera.ElementFlowAdvance | simulation/pfr_drm_cantera.py:347 | the atom flow after F + R·dV is the atom flow of F plus that of R times dV |
| PfrDrmCantera.EulerStepConservesAtoms | simulation/pfr_drm_cantera.py:339-347 | one Euler step before clipping conserves the C, H and O atom flows |
| PfrDrmCantera.SegmentStep | simulation/pfr_drm_cantera.py:303-348 | a completed segment leaves non-negative flows |
| PfrDrmCantera.Segment | simulation/pfr_drm_cantera.py:302-353 | the body of one segment computes `SegmentStep` |
| PfrDrmCantera.EulerStepMethaneAndNitrogen | simulation/pfr_drm_cantera.py:295-348 | with a non-negative DRM rate a step never increases CH4 and leaves N2 unchanged |
| PfrDrmCantera.SegmentMethaneAndNitrogen | simulation/pfr_drm_cantera.py:303-348 | a completed segment never increases CH4 and leaves N2 unchanged |
| PfrDrmCantera.MarchUnfold | simulation/pfr_drm_cantera.py:301-306 | while the total flow exceeds 1e-30, n segments are one segment followed by n − 1 |
| PfrDrmCantera.MarchNonNegative | simulation/pfr_drm_cantera.py:301-353 | a step that keeps flows non-negative keeps them non-negative over any number of segments |
| PfrDrmCantera.MarchCompose | simulation/pfr_drm_cantera.py:301 | a + b segments are a segments followed by b |
| PfrDrmCantera.MarchFixedPoint | simulation/pfr_drm_cantera.py:350-353 | flows a segment leaves unchanged stay unchanged for all remaining segments |
| PfrDrmCantera.MarchMethaneAndNitrogen | simulation/pfr_drm_cantera.py:301-353 | over the whole march CH4 never increases and N2 is unchanged |
| PfrDrmCantera.StepperNonNegative | simulation/pfr_drm_cantera.py:302-353 | one iteration of the loop (segment or skip) keeps non-negative flows non-negative |
| PfrDrmCantera.StepperMethaneAndNitrogen | simulation/pfr_drm_cantera.py:302-353 | one iteration never increases CH4 and leaves N2 unchanged |
| PfrDrmCantera.StuckOnFailure | simulation/pfr_drm_cantera.py:350-353 | a segment that raises leaves F unchanged, so every later segment sees the same F |
| PfrDrmCantera.OutletFractions | simulation/pfr_drm_cantera.py:356-368 | the reported total is positive, every reported fraction is non-negative and they sum to less than 1 |
| PfrDrmCantera.ValidateRunInputs | simulation/pfr_drm_cantera.py:259-260 | validation of the three inlet flows passes iff T ≥ -273.15 °C, P > 0, GHSV > 0, each flow ≥ 0 and their sum > 0 |
| PfrDrmCantera.ConversionGas | simulation/pfr_drm_cantera.py:274 | the 50/50 CH4/CO2 gas used for the density always builds |
| PfrDrmCantera.InletMolarFlows | simulation/pfr_drm_cantera.py:276-281 | the inlet flows succeed iff the CH4 and CO2 flows are non-negative and the density is positive; they are non-negative, CO, H2 and H2O are zero, and the total is positive iff some inlet flow is |
| PfrDrmCantera.InletCompositionValid | simulation/pfr_drm_cantera.py:284-287 | the normalised inlet composition always builds a gas |
| PfrDrmCantera.SegmentVolume | simulation/pfr_drm_cantera.py:290-292 | the segment volume is positive (the reactor volume is floored at 1e-15) |
| PfrDrmCantera.PrepareFacts | simulation/pfr_drm_cantera.py:257-299 | set-up fails iff validation fails, nseg ≤ 0 or the molar density is not positive; on success the reactor has the given T and P, the given or default kinetics, a positive segment volume and non-negative inlet flows with no CO, H2 or H2O |
| PfrDrmCantera.PfrOutlet | simulation/pfr_drm_cantera.py:370-372 | every failure surfaces as PFRModelError |
| PfrDrmCantera.StepperOutcome | simulation/pfr_drm_cantera.py:302-353 | one iteration yields the segment's flows when it succeeds and the unchanged flows when it raises |
| PfrDrmCantera.Store | simulation/pfr_drm_cantera.py:347-348 | the array holds the new flows |
| PfrDrmCantera.MarchSegments | simulation/pfr_drm_cantera.py:301-353 | the in-place loop leaves the array equal to `March` of its old contents over nseg segments, and non-negative |
| PfrDrmCantera.RunSegment | simulation/pfr_drm_cantera.py:302-353 | one iteration updates the array to the loop step of its old contents, keeping it non-negative |
| PfrDrmCantera.PfrDrm | simulation/pfr_drm_cantera.py:242-372 | the procedure returns the outlet function `PfrOutlet` |
| PfrDrmCantera.PfrOutletFacts | simulation/pfr_drm_cantera.py:242-372 | the run fails iff validation fails, nseg ≤ 0 or the density is not positive; otherwise the fractions are non-negative and sum to less than 1; over the march CH4 never increases and N2 is conserved |
| DtwinDrm.Put | simu/dtwin_drm.py:46 | after `d[k] = v`, looking up k gives v |
| DtwinDrm.PutFacts | simu/dtwin_drm.py:46 | assignment leaves every other key's value alone, appends a new key at the end (insertion order) and keeps keys distinct |
| DtwinDrm.GetAbsent | simu/dtwin_drm.py:46-51 | `get` of a missing key gives the default 0 |
| DtwinDrm.TotalPut | simu/dtwin_drm.py:46 | assignment changes the sum of the values by the new value minus the old one |
| DtwinDrm.Scale | simu/dtwin_drm.py:45-46 | the contributions `F * frac` of one controller keep its components, in order |
| DtwinDrm.ScaleFrom | simu/dtwin_drm.py:45-46 | the contributions of a suffix are its first contribution followed by the rest |
| DtwinDrm.AddController | simu/dtwin_drm.py:45-46 | the inner loop over one controller's composition adds its contributions to the mix (`MixComponents`) |
| DtwinDrm.MixStreams | simu/dtwin_drm.py:39-46 | the mixing loops compute the mix and total flow of `Mix` |
| DtwinDrm.AddAllGet | simu/dtwin_drm.py:45-46 | adding distinct contributions raises each component by its contribution |
| DtwinDrm.ScaleGet | simu/dtwin_drm.py:46 | a controller contributes `F * z_c` of component c |
| DtwinDrm.AddAllTotal | simu/dtwin_drm.py:45-46 | adding contributions keeps keys distinct and raises the total by the sum of the contributions |
| DtwinDrm.ScaleTotal | simu/dtwin_drm.py:45-46 | a controller contributes `F * sum(z)` in total |
| DtwinDrm.MixComponentsGet | simu/dtwin_drm.py:45-46 | one controller adds `F * z_c` to component c |
| DtwinDrm.MixComponentsTotal | simu/dtwin_drm.py:45-46 | one controller keeps keys distinct and adds `F * sum(z)` to the total |
| DtwinDrm.MixFromTotalFlow | simu/dtwin_drm.py:42-44 | the outer loop adds the controller flows to `total_flow` |
| DtwinDrm.MixFromGet | simu/dtwin_drm.py:42-46 | the outer loop adds Σ F·z_c to component c |
| DtwinDrm.MixFromDistinct | simu/dtwin_drm.py:42-46 | the outer loop keeps the mix's keys distinct |
| DtwinDrm.MixFromTotal | simu/dtwin_drm.py:42-46 | the outer loop adds Σ F·sum(z) to the total of the mix |
| DtwinDrm.MixFacts | simu/dtwin_drm.py:39-46 | `total_flow` is the sum of the controller flows, `mix[c]` is Σ F·z_c, keys are distinct and the mix sums to Σ F·sum(z) |
| DtwinDrm.WeightedTotalOfUnitCompositions | simu/dtwin_drm.py:42-46 | when every composition sums to 1, the mix sums to the total flow |
| DtwinDrm.Fractions | simu/dtwin_drm.py:47 | each fraction is the flow divided by the total, component by component |
| DtwinDrm.FractionsTotal | simu/dtwin_drm.py:47 | the fractions sum to the flows' sum divided by the total |
| DtwinDrm.FeedCompositionSumsToOne | simu/dtwin_drm.py:47 | for compositions summing to 1 and a non-zero total, `z_feed` exists and sums to 1 |
| DtwinDrm.MinTimes | simu/dtwin_drm.py:52 | for non-negative feeds and conv in [0, 1], `min(a, b) * conv` lies in [0, min(a, b)] and below each feed times conv |
| DtwinDrm.ReactorConservesAtoms | simu/dtwin_drm.py:50-57 | carbon (CH4 + CO2 + CO), hydrogen and oxygen atoms are conserved across the reactor |
| DtwinDrm.OthersGet | simu/dtwin_drm.py:57 | species other than CH4, CO2, CO and H2 keep their flows |
| DtwinDrm.ReactorProducts | simu/dtwin_drm.py:55-57 | CO_out = CO_in + 2·reacted, H2_out = H2_in + 2·reacted, other species pass through |
| DtwinDrm.OthersTotalNonNegative | simu/dtwin_drm.py:57-58 | the other species of a non-negative mix sum to a non-negative flow |
| DtwinDrm.ReactorExtent | simu/dtwin_drm.py:50-54 | with conv in [0, 1] and a non-negative mix, 0 ≤ reacted ≤ min(F_CH4_in, F_CO2_in), and reacted is at most each feed times conv |
| DtwinDrm.ExtentBounds | simu/dtwin_drm.py:52 | the extent `min(a, b) * conv` lies in [0, min(a, b)] |
| DtwinDrm.ReactorNonNegative | simu/dtwin_drm.py:52-58 | with conv in [0, 1] and a non-negative mix, every outlet flow and the total are non-negative |
| DtwinDrm.TotalSplit | simu/dtwin_drm.py:50-58 | the mix total is CH4 + CO2 + CO + H2 + the other species |
| DtwinDrm.ReactorTotal | simu/dtwin_drm.py:58 | F_total_out is the mix total plus 2·reacted |
| DtwinDrm.ReactorCompositionSumsToOne | simu/dtwin_drm.py:59-66 | when F_total_out ≠ 0, `z_reactor` exists and sums to 1 |
| DtwinDrm.OutletFractionsSumToOne | simu/dtwin_drm.py:59-66 | fractions of outlet flows whose sum is the total sum to 1 |
| DtwinDrm.DutiesTotal | simu/dtwin_drm.py:52-73 | for a conversion in [0, 1] and non-negative flows: the total duty is the preheater plus reactor plus cooler duty, each duty is non-negative, the cooler duty is at most 120.5 times the smaller of the CH4 and CO2 feeds, the cooler duty is zero iff nothing reacted, and then the total is the preheater duty alone |
| DtwinDrm.ConversionBounds | simu/dtwin_drm.py:75-77 | with conv in [0, 1] and a non-negative mix, both conversions lie in [0, conv], and each is 0 when its feed is at most 1e-8 |
| DtwinDrm.IndicatorBounds | simu/dtwin_drm.py:75-77 | the same bounds stated on a reactor outlet |
| DtwinDrm.ConversionOfFeed | simu/dtwin_drm.py:76 | a conversion reacted/feed with feed > 1e-8 lies in [0, conv] |
| DtwinDrm.PurityBounds | simu/dtwin_drm.py:78-79 | syngas purity is present iff F_total_out > 1e-8 and then lies in [0, 1]; H2/CO is present iff F_CO_out > 1e-8 |
| DtwinDrm.SyngasRatioOne | simu/dtwin_drm.py:55-78 | with no CO or H2 in the feed and a positive extent, H2/CO is exactly 1 |
| DtwinDrm.SimulateDrm | backend/server.py:1621-1679 | the procedure returns the flowsheet function `Simulation` |
| DtwinDrm.SimulationFacts | simu/dtwin_drm.py:33-90 | the simulation fails (ZeroDivisionError) iff the mix is non-empty with zero total flow, or F_total_out is 0; on success the feed block's flow is the sum of the controller flows and the reactor block's flow is the mix total plus 2·reacted |
| Server.Fetched | backend/server.py:1575 | at most 1000 alerts are fetched, a prefix of the stored ones, and all of them when there are at most 1000 |
| Server.CountWhereMonotone | backend/server.py:1579-1585 | a stricter filter counts no more alerts |
| Server.CountWhereDisjoint | backend/server.py:1580-1585 | three mutually exclusive filters implied by a fourth count together at most what the fourth counts |
| Server.AlertCountsBounded | backend/server.py:1575-1586 | `total` is at most 1000 and is the number stored when that is at most 1000; `new_total` ≤ `total`; each `new_<class>` ≤ its class count; the three class counts sum to at most `total` and the three new ones to at most `new_total` |
| Server.MissingFlagCountsAsNew | backend/server.py:1579 | alerts without `is_new` (or with it true) all count as new, so `new_total` equals `total` |
| Server.JoinPlaceholders | backend/server.py:743 | joining with a separator free of '?' keeps exactly the conditions' placeholders |
| Server.BoundCondition | backend/server.py:727-741 | each bound condition carries exactly one placeholder |
| Server.AddBoundFacts | backend/server.py:727-741 | adding an optional bound keeps placeholders and params balanced, only appends, and adds no condition but its own |
| Server.SimulationQueryFacts | backend/server.py:712-722 | the simulation condition is balanced and is not `active = 1` |
| Server.AddActiveFacts | backend/server.py:724-725 | `active = 1` adds no param, only appends, and is present iff `active_only` |
| Server.BuildQueryFacts | backend/server.py:709-741 | the conditions are balanced, start with `simulation_id = ?`, and contain `active = 1` iff `active_only` |
| Server.PlaceholdersMatchParams | backend/server.py:709-765 | the filter fails iff no simulation id is given and there is no latest simulation, and then with a 500 whose detail is "404: No simulations found" (the 404 is caught by the endpoint's own handler); otherwise the `?` in the WHERE clause equal the params in number, the clause is the conditions joined with " AND ", it starts with the simulation condition, and `active = 1` is present iff `active_only` |
| Server.StrLessIrreflexive | backend/server.py:1430 | Python's string order is irreflexive |
| Server.StrLessTransitive | backend/server.py:1430 | Python's string order is transitive |
| Server.StrLessTotal | backend/server.py:1430 | Python's string order is total on distinct strings |
| Server.Insert | backend/server.py:1430 | inserting into a strictly sorted list keeps it strictly sorted with exactly the old elements and the new one |
| Server.SortedUnique | backend/server.py:1430 | `sorted(set(...))` is strictly sorted with exactly the input's elements |
| Server.SortedDeterminedByElements | backend/server.py:1430 | two strictly sorted lists with the same elements are equal, so `sorted(set(...))` is unique |
| Server.IndexOf | backend/server.py:1438 | `enumerate` gives the first position of a timestamp |
| Server.TimestampMappingAt | backend/server.py:1436-1442 | every old timestamp, and nothing else, is mapped; the one at position i goes to the hour `len - 1 - i` hours before the current hour |
| Server.HourMappingFacts | backend/server.py:1430-1442 | distinct old timestamps map, in sorted order, to strictly increasing hours one hour apart within the last `len` hours; the newest maps to the current truncated hour; the order of old and new agree |
| Server.RowTimestamps | backend/server.py:1430 | one timestamp per row, in row order |
| Server.RemapRows | backend/server.py:1447-1451 | one updated row per row, in order |
| Server.CollectTimestamps | backend/server.py:1430 | fails iff some row lacks a `timestamp`, and then with the KeyError caught as a 500 whose detail is "'timestamp'"; otherwise returns the rows' timestamps |
| Server.BuildTimestampMapping | backend/server.py:1436-1442 | the loop builds the mapping function `TimestampMapping` |
| Server.RewriteRows | backend/server.py:1447-1451 | the loop computes `RemapRows` |
| Server.UpdateCsvTimestamps | backend/server.py:1414-1451 | the procedure returns `UpdatedRows` |
| Server.UpdatedRowsFacts | backend/server.py:1423-1451 | fails iff some row lacks a timestamp; otherwise the row count is kept, every row's timestamp is replaced by its mapped hour (other columns unchanged), hours lie within the last `len(rows)` hours, the order of old timestamps is the order of new hours, and some row gets the current hour |
| Server.DistinctAtMost | backend/server.py:1430 | there are no more distinct timestamps than rows |
| Server.ReplaceChar | backend/server.py:1294 | `replace(' ', '_')` keeps the length and replaces exactly the spaces |
| Server.SplitAtColonFacts | backend/server.py:1287-1288 | a line splits iff it contains ':'; the key is the text before the first ':' |
| Server.ParseLineFacts | backend/server.py:1287-1296 | a line yields an entry iff it contains ':'; the key is the text before the first ':', stripped, lowercased, with spaces turned into '_'; the value is the stripped rest, as a number when it parses |
| Server.ParseFopOutput | backend/server.py:1283-1298 | the loop over the stripped stdout's lines computes `ParseLines` |
| Server.WithColon | backend/server.py:1287 | the kept lines all contain ':' |
| Server.ColonlessLinesIgnored | backend/server.py:1287 | lines without ':' do not affect the result |
| Server.LastLineFor | backend/server.py:1286-1296 | finds the last line with a given key, and none when no line has it |
| Server.LastDuplicateWins | backend/server.py:1286-1296 | a key is in the result iff some line has it, and its value is that of the last such line |
| Server.GetActiveStreams | backend/server.py:662-689 | fails exactly as the simulation lookup does, with a 500 whose detail is the caught 404 ("404: ..."); otherwise returns the cleaned active streams and their count |
| Server.SelectedStreamsFails | backend/server.py:664-689 | the active-streams lookup fails iff no simulation id is given and there is no latest simulation (detail "404: No simulations found") or an id is given that no simulation has (detail "404: Simulation <id> not found"), both reaching the caller as a 500 |
| Server.ActiveOfFacts | backend/server.py:676-685 | the result holds exactly the cleaned active streams, its length is the number of active streams, and a density becomes 'infinite' exactly when it was missing |
| Database.SimulationStatus | backend/database.py:114 | the status is 'success' iff the input has a truthy `success`, and 'failure' otherwise |
| Database.DefaultName | backend/database.py:128-146 | stream numbers 1..7 take their fixed names, other integers 'Stream {n}'; an unhashable number (list or dict) raises |
| Database.DefaultNamesDistinct | backend/database.py:128-146 | distinct integer stream numbers get distinct default names |
| Database.MappedNotStream | backend/database.py:128-136 | no fixed name has the form 'Stream …' |
| Database.StreamRowFacts | backend/database.py:141-181 | a dict entry fails iff its stream number is unhashable or its naming is not a dict; otherwise the row belongs to the simulation, the API custom name overrides the default unless missing, falsy or 'Unknown', display name and graphic tag default to the custom name, "infinite" density becomes None, and every measurement column is stored |
| Database.StreamRowsFacts | backend/database.py:139-181 | on success there is one row per dict entry (non-dict entries are skipped), all belonging to the simulation |
| Database.StreamRowsFail | backend/database.py:139-181 | saving the streams fails iff some dict entry fails |
| Database.StreamRowsErrPrefix | backend/database.py:140-181 | once an entry fails, later entries do not change the outcome |
| Database.InsertStreams | backend/database.py:139-181 | the insertion loop computes the rows function `StreamRows` |
| Database.StreamNumberOfName | backend/database.py:195-200 | a first part 'Stream n' yields the stream number n |
| Database.ParseModificationRoundTrip | backend/database.py:186-200 | a string 'head: parameter: value' whose head and parameter contain no ':' parses back to its parameter and its whole value, colons in the value included, with the head's stream number |
| Database.SplitTwoHeads | backend/database.py:188 | splitting such a string on ': ' gives the head, the parameter and the pieces of the value |
| Database.ParseModificationIgnoresShort | backend/database.py:189 | strings with fewer than three ': '-separated parts are ignored |
| Database.ModificationRowsFacts | backend/database.py:184-208 | at most one row per item; every row belongs to the simulation, has status 'applied' and comes from a string item that parses; with no parsing string item there are no rows |
| Database.InsertModifications | backend/database.py:185-208 | the insertion loop computes the rows function `ModificationRows` |
| Database.SimulationStore.constructor | backend/database.py:20-22 | a new store has empty metadata, stream and modification tables |
| Database.SimulationStore.SaveSimulationResult | backend/database.py:102-220 | on success the id is returned and the metadata, stream and modification tables grow by exactly the computed rows; on failure the error is raised and no table changes (the transaction is not committed) |
| DwsimApiClient.NormalizedBaseUrl | backend/dwsim_api_client.py:23-29 | the URL ends in '/api'; one already ending in '/api' is kept verbatim; otherwise trailing '/' are stripped and '/api' appended |
| DwsimApiClient.NormalizedBaseUrlIdempotent | backend/dwsim_api_client.py:26-29 | normalising a normalised URL changes nothing |
| DwsimApiClient.ApiClient.constructor | backend/dwsim_api_client.py:21 | the base URL starts as 'http://localhost:5000/api' |
| DwsimApiClient.ApiClient.SetBaseUrl | backend/dwsim_api_client.py:23-30 | the client's base URL becomes the normalised URL, which ends in '/api' |
| DwsimApiClient.StreamNumber | backend/dwsim_api_client.py:392 | the stream number fails (IndexError) exactly when the name has no '_', even when `stream_number` is present, because the default is evaluated first |
| DwsimApiClient.NameWithoutUnderscoreFails | backend/dwsim_api_client.py:392 | a stream named 'feed' fails although it carries a `stream_number` |
| DwsimApiClient.Put | backend/dwsim_api_client.py:424 | `process_streams[key] = s` keeps the existing keys in place, holds the new entry, and changes no other entry |
| DwsimApiClient.PutKeys | backend/dwsim_api_client.py:424 | the keys afterwards are the old keys plus the new one |
| DwsimApiClient.PutDistinct | backend/dwsim_api_client.py:424 | assignment keeps keys distinct |
| DwsimApiClient.GatherStreamsFacts | backend/dwsim_api_client.py:390-430 | `active_streams` and the number of collected temperatures equal the number of included entries with a truthy active flag; the formatted streams have distinct keys and are no more than the entries |
| DwsimApiClient.GatherStepSums | backend/dwsim_api_client.py:391-430 | one turn adds the temperature and mass flow of an included active stream and nothing otherwise |
| DwsimApiClient.GatherStreamsSums | backend/dwsim_api_client.py:387-430 | the collected temperatures are those of the included active streams in order, and `total_flow` is the sum of their mass flows |
| DwsimApiClient.GatherErrPrefix | backend/dwsim_api_client.py:390-392 | once an entry raises, later entries do not change the outcome |
| DwsimApiClient.GatherLoop | backend/dwsim_api_client.py:390-430 | the loop over `output_streams` computes `GatherStreams` |
| DwsimApiClient.GatherOne | backend/dwsim_api_client.py:391-430 | one turn of the loop computes `GatherStep` |
| DwsimApiClient.LowestHighestBound | backend/dwsim_api_client.py:434 | every temperature lies between the lowest and the highest |
| DwsimApiClient.MeanBetween | backend/dwsim_api_client.py:434 | the mean of temperatures within [lo, hi] lies within [lo, hi] |
| DwsimApiClient.SumBounds | backend/dwsim_api_client.py:434 | a sum of n values within [lo, hi] lies within [n·lo, n·hi] |
| DwsimApiClient.DashboardAbsent | backend/dwsim_api_client.py:369-371 | a missing or falsy response, or one whose `success` is falsy, gives None; a truthy response that is not a dictionary raises |
| DwsimApiClient.DashboardSummary | backend/dwsim_api_client.py:369-434 | for a successful response, `active_streams` counts the included active streams, `total_flow_mg_s` sums their mass flows, streams are filed under distinct keys, and the average temperature is 0 without active streams and otherwise lies between their lowest and highest temperature |
| DwsimApiClient.FrontendDataFormat | backend/dwsim_api_client.py:361-439 | the procedure returns the dashboard function `DashboardOf` |
| TextChunker.Pack | backend/text_chunker.py:26-39 | the greedy packing loop computes `Packed` |
| TextChunker.PackFromChunks | backend/text_chunker.py:26-39 | every emitted chunk is non-empty and either fits the chunk size or is a single part; so is the pending chunk |
| TextChunker.PackedChunks | backend/text_chunker.py:26-39 | every packed chunk is non-empty and either fits or is a single over-long part (the one that is re-split) |
| TextChunker.SlicesFacts | backend/text_chunker.py:54 | the forced slices concatenate to the text; all but the last have exactly chunk_size characters, the last between 1 and chunk_size; there are none iff the text is empty |
| TextChunker.FirstPresent | backend/text_chunker.py:23-24 | the chosen separator is the first one contained in the text; none is chosen when the text contains none |
| TextChunker.SplitRecursiveBounded | backend/text_chunker.py:19-54 | every piece `split_text_recursive` returns has at most chunk_size characters |
| TextChunker.SplitRecursiveInOrder | backend/text_chunker.py:19-54 | every piece `split_text_recursive` returns is a slice of the text, and the pieces follow each other in the text without overlapping |
| TextChunker.PackedInOrder | backend/text_chunker.py:24-38 | the chunks the packing loop builds from `text.split(separator)` are slices, in order and without overlap, of the parts joined back with the separator |
| TextChunker.ResplitAllInOrder | backend/text_chunker.py:40-49 | re-splitting chunks that lie in order in a text, and keeping the small ones, gives pieces that still lie in order in that text |
| TextChunker.ResplitAllBounded | backend/text_chunker.py:41-51 | re-splitting over-long chunks with the remaining separators leaves only pieces of at most chunk_size |
| TextChunker.SlicesBounded | backend/text_chunker.py:54 | every forced slice has at most chunk_size characters |
| TextChunker.ShortTextOnePiece | backend/text_chunker.py:20-21 | a text of at most chunk_size characters yields one piece if it is non-blank and none otherwise |
| TextChunker.DefaultSeparatorsFail | backend/text_chunker.py:17-25 | a long text without "\n\n", "\n", ". " or " " reaches the "" separator and fails as `text.split("")` does, instead of being force-split |
| TextChunker.LongWordFails | backend/text_chunker.py:17-25 | concretely, "aaa" with chunk size 2 fails |
| TextChunker.SplitTextRecursive | backend/text_chunker.py:19-54 | the recursive splitter computes `SplitRecursive` |
| TextChunker.ResplitChunks | backend/text_chunker.py:42-51 | the re-splitting loop computes `ResplitAll` |
| TextChunker.ForceSlices | backend/text_chunker.py:54 | the slicing comprehension computes `Slices` |
| TextChunker.FirstPresentUnique | backend/text_chunker.py:23-24 | the separator found is the first contained one |
| TextChunker.ResplitAllStep | backend/text_chunker.py:43-49 | re-splitting is the first chunk's pieces followed by the rest's, in order |
| TextChunker.BuildChunkRecords | backend/text_chunker.py:58-68 | the record loop computes `ChunkRecordsFrom` |
| TextChunker.ChunkRecordFields | backend/text_chunker.py:58-68 | every record's content is the stripped, non-empty raw piece at its `chunk_id`, with `chunk_size` its length and type 'recursive'; there are at most as many records as raw pieces |
| TextChunker.ChunkRecordOrder | backend/text_chunker.py:59 | records come in increasing `chunk_id` order |
| TextChunker.ChunkRecordCoverage | backend/text_chunker.py:59-60 | a raw piece gets a record iff it is not blank |
| TextChunker.ChunkContentStripped | backend/text_chunker.py:62 | record contents are already stripped |
| TextChunker.Annotated | backend/text_chunker.py:85-92 | one annotated chunk per chunk, each with its document information at its index |
| TextChunker.ChunkDocument | backend/text_chunker.py:70-94 | the procedure computes `DocumentChunks` |
| TextChunker.AddDocumentInfo | backend/text_chunker.py:85-92 | the annotation loop computes `Annotated` |
| TextChunker.ChunkDocumentFacts | backend/text_chunker.py:70-94 | blank content gives []; a non-'recursive' strategy on non-blank content raises ValueError; on success chunk i has `chunk_index` i, `total_chunks` n, `document_id` and `source_file` the filename or 'unknown', non-empty content and `chunk_size` its length; any other failure comes from the splitter |
| DocumentProcessor.FlattenIsLeafLines | backend/document_processor.py:123-142 | `flatten_json` emits exactly one line per scalar leaf, in dict and list order, each line the leaf's rendered path, ': ' and its text; empty dicts and lists contribute nothing |
| DocumentProcessor.EntriesAreLeafLines | backend/document_processor.py:126-132 | the dict loop emits the lines of the entries' leaves, each key extended with '.key' (or the bare key at top level) |
| DocumentProcessor.ItemsAreLeafLines | backend/document_processor.py:133-139 | the list loop emits the lines of the items' leaves, each key extended with '[i]' |
| DocumentProcessor.LinesAppend | backend/document_processor.py:130-137 | the lines of concatenated leaves are the concatenated lines (`items.extend`) |
| DocumentProcessor.LinesUnder | backend/document_processor.py:128-137 | the lines of a child's leaves below a step are its lines below the extended key |
| DocumentProcessor.FlattenTopLevel | backend/document_processor.py:128-141 | at top level a dict key appears alone, a list index as '[i]', and a bare scalar as ': v' |
| DocumentProcessor.JsonContentLines | backend/document_processor.py:144-145 | the JSON content is the header line followed by the flattened lines, one per line |
| DocumentProcessor.ExtensionOf | backend/document_processor.py:177-184 | every kind of file has a supported extension |
| DocumentProcessor.KindOfExtension | backend/document_processor.py:168-184 | an extension has a kind iff it is supported, and each supported extension names exactly one kind |
| DocumentProcessor.LastIndexOf | backend/document_processor.py:166 | finds the last occurrence of a character, or reports none |
| DocumentProcessor.BaseName | backend/document_processor.py:170 | `Path(p).name` holds no '/' |
| DocumentProcessor.Suffix | backend/document_processor.py:166 | `Path(p).suffix` is empty or a '.' followed by a dot-free tail that ends the name and is shorter than it |
| DocumentProcessor.ExtractTxt | backend/document_processor.py:52-72 | a txt document succeeds iff the file reads, with the stripped text as content; otherwise its content is empty and its error the read error; its type is 'txt' and its name the base name |
| DocumentProcessor.ExtractJson | backend/document_processor.py:117-162 | a JSON document succeeds iff the file parses, with the header-plus-flattened content; otherwise its content is empty and its error the parse error |
| DocumentProcessor.ProcessDocumentDispatch | backend/document_processor.py:164-184 | an unsupported extension gives success False with the 'Unsupported file type' error, without reading any file; each supported extension dispatches to its one extractor |
| DocumentProcessor.ProcessDirectory | backend/document_processor.py:186-204 | the loop over the directory computes `ProcessedDirectory` |
| DocumentProcessor.KeptFacts | backend/document_processor.py:195-200 | the kept documents are exactly the successful results of the selected entries, no more than the entries |
| DocumentProcessor.ProcessedDirectoryFacts | backend/document_processor.py:186-204 | a missing directory gives []; every returned document is successful; there are no more documents than entries |
| ChromaManager.MetadataDefaults | backend/chroma_manager.py:117-132 | a chunk without `content` has empty content; the metadata is built whenever the integer fields present are integers; each missing text field then defaults to 'unknown' and each missing integer field to 0, and a present chunk_index is kept |
| ChromaManager.PrepareFacts | backend/chroma_manager.py:112-135 | documents, metadatas and ids have equal length, the number of chunks with non-blank stripped content, and are index-aligned: entry k is the stripped content, metadata and id of one such chunk |
| ChromaManager.PrepareLists | backend/chroma_manager.py:108-135 | the preparation loop computes `Prepare` |
| ChromaManager.PrepareErrPrefix | backend/chroma_manager.py:112-132 | once a chunk raises, later chunks do not change the outcome |
| ChromaManager.BatchesCover | backend/chroma_manager.py:142-150 | every batch is a non-empty range [i, min(i+100, n)) of at most 100 documents, and the batches together are the documents exactly once, in order |
| ChromaManager.FormatHitsFacts | backend/chroma_manager.py:198-207 | one formatted result per returned document, in order, with its content; relevance is 1 − distance, or 1 with distance None when no distances are returned |
| ChromaManager.FormatHitsError | backend/chroma_manager.py:199-207 | a failure while formatting is an IndexError ('list index out of range') |
| ChromaManager.FormatResults | backend/chroma_manager.py:197-215 | the formatting loop computes `Formatted`, and `total_results` is the number of formatted results |
| ChromaManager.QueryResultFacts | backend/chroma_manager.py:199-215 | `total_results` is the number of formatted results, one per returned document when formatting succeeds |
| ChromaManager.QueryOutcomeFacts | backend/chroma_manager.py:181-215 | the answer keeps the query and counts its results; the collection is empty iff the answer is the 'No documents found in the collection' error with no results, whatever the search would return |
| ChromaManager.QueryRequest | backend/chroma_manager.py:190-195 | a non-empty collection is searched for min(n_results, count) results and the answer formats what the search returns |
| ChromaManager.FormattedNeverEmptyCollection | backend/chroma_manager.py:197-224 | formatting never reports the empty-collection error |
| ChromaManager.ChromaDBManager.constructor | backend/chroma_manager.py:37-61 | the manager starts with the client's existing collections and an empty cache |
| ChromaManager.ChromaDBManager.CreateCollection | backend/chroma_manager.py:63-92 | an existing collection is reused and a missing one created empty; either way it is cached |
| ChromaManager.ChromaDBManager.AddDocuments | backend/chroma_manager.py:94-158 | no chunks changes nothing; otherwise the collection is created if needed and cached; a malformed chunk raises and adds nothing; otherwise exactly the prepared records are appended to the collection, in order (none when every content is blank) |
| ChromaManager.ChromaDBManager.AddInBatches | backend/chroma_manager.py:141-152 | the batch loop appends all prepared records to the collection, in order; the `collection.add` calls are the batches [i, min(i + 100, n)) for i in range(0, n, 100), each non-empty and of at most 100 records, and together they hand over exactly the prepared records |
| ChromaManager.ChromaDBManager.AddBatch | backend/chroma_manager.py:146-150 | one `collection.add` of at most 100 records appends the records [lo, hi) |
| ChromaManager.ChromaDBManager.QueryCollection | backend/chroma_manager.py:160-224 | the collection is created if needed and cached, and the answer is `QueryOutcome` over its records |
| RagService.GoodChunksFacts | backend/rag_service.py:180 | the filter succeeds iff every hit has a distance; a hit without one raises the `None < 0.7` TypeError; on success the kept hits are exactly the hits with distance below 0.7 |
| RagService.GoodChunksAppend | backend/rag_service.py:180 | filtering a concatenation is the concatenation of the filtered parts (the comprehension keeps order) |
| RagService.SourcesFacts | backend/rag_service.py:196-201 | source i carries the relevance of used chunk i, its `source_file` when present and 'Unknown' otherwise, and chunk 0 when `chunk_index` is missing |
| RagService.AnswerFallbacks | backend/rag_service.py:162-236 | a retrieval error or no hits gives the not-found answer without sources or context; a hit without a distance gives the error answer with the TypeError message |
| RagService.AnswerContext | backend/rag_service.py:179-227 | context is used iff some hit lies under the 0.7 cutoff; without context there are no sources and the answer is the not-relevant one; with context, 1 ≤ chunks_used ≤ chunks_retrieved = number of hits, and one source per used chunk |
| RagService.BuildContext | backend/rag_service.py:189-203 | the context loop joins "Context i:" parts with blank lines and collects one source per used chunk, as `ContextParts` and `SourcesOf` |
| RagService.AnswerFrom | backend/rag_service.py:205-227 | the prompt is sent to the model and the answer carries the sources and counts |
| RagService.AllChunksFacts | backend/rag_service.py:83-88 | every chunk gathered comes from a successful document, names it as its source, and has stripped, non-empty content; when no document succeeded there are no chunks |
| RagService.AllChunksErrPrefix | backend/rag_service.py:84-87 | a chunking error stops the loop: later documents do not change the outcome |
| RagService.GatherChunks | backend/rag_service.py:83-88 | the chunking loop computes `AllChunks` |
| RagService.DocumentChunksStripped | backend/text_chunker.py:62-92 | the chunker's output contents are stripped |
| RagService.EntriesOf | backend/text_chunker.py:61-92 | one chunk dictionary per chunk |
| RagService.ChunkEntriesAccepted | backend/chroma_manager.py:117-132 | the chunk dictionaries the chunker builds are accepted by `add_documents`: content is the stripped text and every integer field converts |
| RagService.IntFieldAccepted | backend/chroma_manager.py:127-129 | `int()` of an integer field, or of a missing one, succeeds |
| RagService.PrepareKeepsChunks | backend/chroma_manager.py:112-135 | non-blank stripped chunks all survive preparation: one document per chunk |
| RagService.InitOutcomeFacts | backend/rag_service.py:57-110 | no documents iff `no_documents`; anything but success leaves the collection as it was; a failure comes only from chunking; on success documents_processed is the number of documents, at least one chunk was created, and the collection grows by exactly chunks_created with its old records kept in front; when no document succeeded the status is `no_chunks` |
| RagService.Rag.constructor | backend/rag_service.py:21-28 | the service works over the given vector-store manager |
| RagService.Rag.QueryRag | backend/rag_service.py:150-236 | the collection is created or reused, and the answer is `Answer` over `query_collection`'s result for max_context_chunks hits |
| RagService.Rag.InitializeKnowledgeBase | backend/rag_service.py:57-110 | no documents changes nothing; otherwise the collection exists, the status is `InitOutcome`'s and the collection then holds exactly `InitOutcome`'s records |

## Left out

- RagService.AddErrorText: quotes the offending text the way Python's `repr` does only for text holding no quote or backslash; `repr`'s escaping is not modelled.
- Floating point: every quantity is an exact `real`, so IEEE-754 rounding, overflow, `nan` and `inf` do not arise. `np.isfinite` checks and `nan_to_num` reduce to the identity on finite reals. Python `round` in the dashboard and the displayed stream measurements are not modelled.
- The thermodynamics: `exp`, `tanh`, `log`, `**`, Cantera's molar density and its standard enthalpies and entropies are parameters. The proofs assume only the sign and range laws of `Lawful`. A gas state that Cantera itself rejects is not modelled.
- PfrDrmCantera.BuildGas: a species missing from the mechanism is not a failure mode here. The six species are fixed, so the ThermodynamicsError Cantera would raise for an unknown name does not arise.
- The outside world as parameters: the clock (`nowHour`), uuid generation (`freshId`), the embedding search (`Search`), the LLM answer (`llm`), file reading and `json.load` (`Files`), and the directory listing. Each is a function the caller supplies.
- RagService.Rag.QueryRag: failure of the LLM call is not modelled; `llm` always answers.
- The MongoDB, SQLite and ChromaDB clients: the tables and collections are sequences held in class fields. The client never fails, so the failure paths of `create_collection` and `clear_collection` in `initialize_knowledge_base` are not modelled.
- The remaining vector-store operations are not part of this model: `get_collection_info`, `list_collections` and `clear_collection`. In `initialize_knowledge_base`, `collection_count` is taken as the number of records the collection holds.
- Not part of this model:
  - in the RAG service: `process_uploaded_file` and `get_knowledge_base_info`;
  - in `document_processor.py`: PDF extraction (PyMuPDF), CSV summarisation (pandas) and text-file decoding, which become `Files` parameters.
- RagService.GoodChunksFacts: the default of `chunk.get('distance', 1.0)` is never used. Every result `query_collection` formats carries a `distance` key, None when no distances come back. A None distance makes `None < 0.7` raise, and the model returns the error answer.
- TextChunker: `chunk_overlap` is stored by the constructor but never read by the splitter, so it does not appear.
- `str()` of a list or dictionary renders as the empty text. Python's printed form of containers is not modelled.
- `int()` of text accepts an optional sign, decimal digits and surrounding white space. Underscore separators and non-ASCII digits are not accepted.
- `lower()` folds ASCII letters only. Unicode case mapping is not modelled.
- Everything around `simulate_drm` in `backend/server.py` is not part of this model: FastAPI routing, pydantic validation, the database calls of the endpoints, subprocess execution of the FOP script, temporary files, e-mail and file serving. Only the pure helpers are modelled.
- Logging and `print` output are not modelled.
- Concurrency is not modelled. The `async` methods of the RAG service are sequential here.
