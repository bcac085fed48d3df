/** The algebraic dry-reforming flowsheet `simulate_drm` (simu/dtwin_drm.py, and the
    identical copy in backend/server.py): the mass-flow-controller streams are mixed,
    a fixed fraction of the limiting reactant is converted by CH4 + CO2 -> 2 CO + 2 H2,
    and the block compositions, heat duties and key performance indicators follow. */
module DtwinDrm {
  import opened Results

  // ------------------------------------------------------------------
  // Component dictionaries
  // ------------------------------------------------------------------

  /** A dictionary from component names to flows or fractions, in insertion order. */
  type Flows = seq<(string, real)>

  /** The keys of a dictionary, in order. */
  function Keys(d: Flows): seq<string> {
    if d == [] then [] else [d[0].0] + Keys(d[1..])
  }

  /** No key occurs twice, as in a Python dictionary. */
  predicate DistinctKeys(d: Flows) {
    d == [] || (d[0].0 !in Keys(d[1..]) && DistinctKeys(d[1..]))
  }

  /** `d.get(k, 0.0)`. */
  function Get(d: Flows, k: string): real {
    if d == [] then 0.0 else if d[0].0 == k then d[0].1 else Get(d[1..], k)
  }

  /** `d[k] = v`: an existing key keeps its place, a new key goes last. */
  function Put(d: Flows, k: string, v: real): (r: Flows)
    ensures Get(r, k) == v
  {
    if d == [] then [(k, v)]
    else if d[0].0 == k then [(k, v)] + d[1..]
    else
      var r := [d[0]] + Put(d[1..], k, v);
      assert r[1..] == Put(d[1..], k, v);
      r
  }

  /** Writing a key leaves every other key's value alone, appends the key when it
      is new, and keeps the keys distinct. */
  lemma {:induction false} PutFacts(d: Flows, k: string, v: real)
    ensures forall c :: c != k ==> Get(Put(d, k, v), c) == Get(d, c)
    ensures Keys(Put(d, k, v)) == if k in Keys(d) then Keys(d) else Keys(d) + [k]
    ensures DistinctKeys(d) ==> DistinctKeys(Put(d, k, v))
  {
    if d != [] && d[0].0 != k {
      PutFacts(d[1..], k, v);
      assert Put(d, k, v)[1..] == Put(d[1..], k, v);
    }
  }

  /** `sum(d.values())`. */
  function Total(d: Flows): real {
    if d == [] then 0.0 else d[0].1 + Total(d[1..])
  }

  lemma {:induction false} GetAbsent(d: Flows, k: string)
    requires k !in Keys(d)
    ensures Get(d, k) == 0.0
  {
    if d != [] {
      GetAbsent(d[1..], k);
    }
  }

  /** Writing a key changes the sum of the values by the change at that key. */
  lemma {:induction false} TotalPut(d: Flows, k: string, v: real)
    requires DistinctKeys(d)
    ensures Total(Put(d, k, v)) == Total(d) - Get(d, k) + v
  {
    if d == [] {
    } else if d[0].0 == k {
      assert Put(d, k, v)[1..] == d[1..];
    } else {
      TotalPut(d[1..], k, v);
      assert Put(d, k, v)[1..] == Put(d[1..], k, v);
    }
  }

  // ------------------------------------------------------------------
  // Mixing the MFC streams
  // ------------------------------------------------------------------

  /** One mass flow controller: a molar flow and its composition. */
  datatype MfcSpec = MfcSpec(flowMolS: real, z: Flows)

  /** The flow `F * frac` a controller of flow `F` adds to a component of mole
      fraction `frac`. */
  function Contribution(F: real, frac: real): real {
    F * frac
  }

  /** The contributions of one controller to each of its components. */
  function Scale(z: Flows, F: real): (r: Flows)
    ensures |r| == |z| && Keys(r) == Keys(z)
    ensures DistinctKeys(z) ==> DistinctKeys(r)
  {
    if z == [] then [] else [(z[0].0, Contribution(F, z[0].1))] + Scale(z[1..], F)
  }

  lemma ScaleFrom(z: Flows, j: nat, F: real)
    requires j < |z|
    ensures Scale(z[j..], F) == [(z[j].0, Contribution(F, z[j].1))] + Scale(z[j + 1..], F)
  {
    assert z[j..][0] == z[j] && z[j..][1..] == z[j + 1..];
  }

  /** `mix[comp] = mix.get(comp, 0) + w` for each remaining entry of `ws`. */
  function AddAll(mix: Flows, ws: Flows): Flows
    decreases |ws|
  {
    if ws == [] then mix
    else AddAll(Put(mix, ws[0].0, Get(mix, ws[0].0) + ws[0].1), ws[1..])
  }

  /** The inner mixing loop over one controller's composition. */
  function MixComponents(mix: Flows, F: real, z: Flows): Flows {
    AddAll(mix, Scale(z, F))
  }

  /** The outer mixing loop from a partial mix and total over the remaining
      controllers. */
  function MixFrom(mix: Flows, totalFlow: real, mfcs: seq<MfcSpec>): (Flows, real)
    decreases |mfcs|
  {
    if mfcs == [] then (mix, totalFlow)
    else MixFrom(MixComponents(mix, mfcs[0].flowMolS, mfcs[0].z), totalFlow + mfcs[0].flowMolS, mfcs[1..])
  }

  /** The mixed component flows and the total flow of all controllers. */
  function Mix(mfcs: seq<MfcSpec>): (Flows, real) {
    MixFrom([], 0.0, mfcs)
  }

  /** The inner mixing loop: one controller's contribution to the mix. */
  method AddController(mix0: Flows, F: real, z: Flows) returns (mix: Flows)
    ensures mix == MixComponents(mix0, F, z)
  {
    mix := mix0;
    var j := 0;
    while j < |z|
      invariant 0 <= j <= |z|
      invariant AddAll(mix, Scale(z[j..], F)) == MixComponents(mix0, F, z)
    {
      ScaleFrom(z, j, F);
      var comp := z[j].0;
      var frac := z[j].1;
      ghost var ws := Scale(z[j..], F);
      assert ws[0] == (comp, Contribution(F, frac)) && ws[1..] == Scale(z[j + 1..], F);
      assert AddAll(mix, ws) == AddAll(Put(mix, comp, Get(mix, comp) + Contribution(F, frac)), ws[1..]);
      mix := Put(mix, comp, Get(mix, comp) + Contribution(F, frac));
      j := j + 1;
    }
    assert z[j..] == [];
  }

  /** The mixing loops of `simulate_drm`. */
  method MixStreams(mfcs: seq<MfcSpec>) returns (mix: Flows, totalFlow: real)
    ensures (mix, totalFlow) == Mix(mfcs)
  {
    totalFlow := 0.0;
    mix := [];
    var i := 0;
    while i < |mfcs|
      invariant 0 <= i <= |mfcs|
      invariant MixFrom(mix, totalFlow, mfcs[i..]) == Mix(mfcs)
    {
      var F := mfcs[i].flowMolS;
      assert mfcs[i..][0] == mfcs[i] && mfcs[i..][1..] == mfcs[i + 1..];
      totalFlow := totalFlow + F;
      mix := AddController(mix, F, mfcs[i].z);
      i := i + 1;
    }
    assert mfcs[i..] == [];
  }

  /** The reference definition of a mixed flow: `sum_i F_i z_i[c]`. */
  function MixedAmount(mfcs: seq<MfcSpec>, c: string): real {
    if mfcs == [] then 0.0 else mfcs[0].flowMolS * Get(mfcs[0].z, c) + MixedAmount(mfcs[1..], c)
  }

  /** `sum_i F_i`. */
  function SumFlows(mfcs: seq<MfcSpec>): real {
    if mfcs == [] then 0.0 else mfcs[0].flowMolS + SumFlows(mfcs[1..])
  }

  /** Every controller composition is a dictionary (no repeated component). */
  predicate WellFormed(mfcs: seq<MfcSpec>) {
    forall i :: 0 <= i < |mfcs| ==> DistinctKeys(mfcs[i].z)
  }

  lemma WellFormedTail(mfcs: seq<MfcSpec>)
    requires mfcs != [] && WellFormed(mfcs)
    ensures WellFormed(mfcs[1..])
  {
    forall i | 0 <= i < |mfcs[1..]| ensures DistinctKeys(mfcs[1..][i].z) {
      assert mfcs[1..][i] == mfcs[i + 1];
    }
  }

  lemma {:induction false} AddAllGet(mix: Flows, ws: Flows, c: string)
    requires DistinctKeys(ws)
    ensures Get(AddAll(mix, ws), c) == Get(mix, c) + Get(ws, c)
    decreases |ws|
  {
    if ws != [] {
      var next := Put(mix, ws[0].0, Get(mix, ws[0].0) + ws[0].1);
      PutFacts(mix, ws[0].0, Get(mix, ws[0].0) + ws[0].1);
      AddAllGet(next, ws[1..], c);
      if c == ws[0].0 {
        GetAbsent(ws[1..], c);
      }
    }
  }

  lemma {:induction false} ScaleGet(z: Flows, F: real, c: string)
    ensures Get(Scale(z, F), c) == F * Get(z, c)
  {
    if z != [] {
      ScaleGet(z[1..], F, c);
      assert Scale(z, F)[1..] == Scale(z[1..], F);
    }
  }

  lemma {:induction false} AddAllTotal(mix: Flows, ws: Flows)
    requires DistinctKeys(mix)
    ensures DistinctKeys(AddAll(mix, ws))
    ensures Total(AddAll(mix, ws)) == Total(mix) + Total(ws)
    decreases |ws|
  {
    if ws != [] {
      var next := Put(mix, ws[0].0, Get(mix, ws[0].0) + ws[0].1);
      TotalPut(mix, ws[0].0, Get(mix, ws[0].0) + ws[0].1);
      PutFacts(mix, ws[0].0, Get(mix, ws[0].0) + ws[0].1);
      AddAllTotal(next, ws[1..]);
    }
  }

  lemma {:induction false} ScaleTotal(z: Flows, F: real)
    ensures Total(Scale(z, F)) == F * Total(z)
  {
    if z != [] {
      var s := Scale(z, F);
      var rest := Scale(z[1..], F);
      ScaleTotal(z[1..], F);
      assert s == [(z[0].0, Contribution(F, z[0].1))] + rest;
      assert s[0].1 == Contribution(F, z[0].1) && s[1..] == rest;
      assert Total(s) == Contribution(F, z[0].1) + Total(rest);
      Distribute(F, z[0].1, Total(z[1..]));
    }
  }

  lemma Distribute(F: real, a: real, b: real)
    ensures Contribution(F, a) + F * b == F * (a + b)
  {
  }

  lemma MixComponentsGet(mix: Flows, F: real, z: Flows, c: string)
    requires DistinctKeys(z)
    ensures Get(MixComponents(mix, F, z), c) == Get(mix, c) + F * Get(z, c)
  {
    AddAllGet(mix, Scale(z, F), c);
    ScaleGet(z, F, c);
  }

  lemma MixComponentsTotal(mix: Flows, F: real, z: Flows)
    requires DistinctKeys(mix)
    ensures DistinctKeys(MixComponents(mix, F, z))
    ensures Total(MixComponents(mix, F, z)) == Total(mix) + F * Total(z)
  {
    AddAllTotal(mix, Scale(z, F));
    ScaleTotal(z, F);
  }

  lemma {:induction false} MixFromTotalFlow(mix: Flows, totalFlow: real, mfcs: seq<MfcSpec>)
    ensures MixFrom(mix, totalFlow, mfcs).1 == totalFlow + SumFlows(mfcs)
    decreases |mfcs|
  {
    if mfcs != [] {
      MixFromTotalFlow(MixComponents(mix, mfcs[0].flowMolS, mfcs[0].z), totalFlow + mfcs[0].flowMolS, mfcs[1..]);
    }
  }

  lemma {:induction false} MixFromGet(mix: Flows, totalFlow: real, mfcs: seq<MfcSpec>, c: string)
    requires WellFormed(mfcs)
    ensures Get(MixFrom(mix, totalFlow, mfcs).0, c) == Get(mix, c) + MixedAmount(mfcs, c)
    decreases |mfcs|
  {
    if mfcs != [] {
      WellFormedTail(mfcs);
      var F, z := mfcs[0].flowMolS, mfcs[0].z;
      var next := MixComponents(mix, F, z);
      assert MixFrom(mix, totalFlow, mfcs) == MixFrom(next, totalFlow + F, mfcs[1..]);
      MixComponentsGet(mix, F, z, c);
      MixFromGet(next, totalFlow + F, mfcs[1..], c);
      assert MixedAmount(mfcs, c) == F * Get(z, c) + MixedAmount(mfcs[1..], c);
    }
  }

  lemma {:induction false} MixFromDistinct(mix: Flows, totalFlow: real, mfcs: seq<MfcSpec>)
    requires DistinctKeys(mix)
    ensures DistinctKeys(MixFrom(mix, totalFlow, mfcs).0)
    decreases |mfcs|
  {
    if mfcs != [] {
      var F, z := mfcs[0].flowMolS, mfcs[0].z;
      var next := MixComponents(mix, F, z);
      assert MixFrom(mix, totalFlow, mfcs) == MixFrom(next, totalFlow + F, mfcs[1..]);
      AddAllTotal(mix, Scale(z, F));
      MixFromDistinct(next, totalFlow + F, mfcs[1..]);
    }
  }

  lemma {:induction false} MixFromTotal(mix: Flows, totalFlow: real, mfcs: seq<MfcSpec>)
    requires WellFormed(mfcs) && DistinctKeys(mix)
    ensures Total(MixFrom(mix, totalFlow, mfcs).0) == Total(mix) + WeightedTotal(mfcs)
    decreases |mfcs|
  {
    if mfcs != [] {
      WellFormedTail(mfcs);
      var F, z := mfcs[0].flowMolS, mfcs[0].z;
      var next := MixComponents(mix, F, z);
      assert MixFrom(mix, totalFlow, mfcs) == MixFrom(next, totalFlow + F, mfcs[1..]);
      MixComponentsTotal(mix, F, z);
      var head := F * Total(z);
      assert Total(next) == Total(mix) + head;
      MixFromTotal(next, totalFlow + F, mfcs[1..]);
      assert WeightedTotal(mfcs) == head + WeightedTotal(mfcs[1..]);
    }
  }

  /** Mixing accumulates `total_flow` as the sum of the controller flows and each
      `mix[c]` as the sum of `F z_c` over the controllers; the mix is a dictionary
      whose values sum to `sum_i F_i sum(z_i)`. */
  lemma MixFacts(mfcs: seq<MfcSpec>, c: string)
    requires WellFormed(mfcs)
    ensures Mix(mfcs).1 == SumFlows(mfcs)
    ensures Get(Mix(mfcs).0, c) == MixedAmount(mfcs, c)
    ensures DistinctKeys(Mix(mfcs).0)
    ensures Total(Mix(mfcs).0) == WeightedTotal(mfcs)
  {
    MixFromTotalFlow([], 0.0, mfcs);
    MixFromGet([], 0.0, mfcs, c);
    MixFromDistinct([], 0.0, mfcs);
    MixFromTotal([], 0.0, mfcs);
  }

  /** `sum_i F_i sum(z_i)`. */
  function WeightedTotal(mfcs: seq<MfcSpec>): real {
    if mfcs == [] then 0.0 else mfcs[0].flowMolS * Total(mfcs[0].z) + WeightedTotal(mfcs[1..])
  }

  lemma {:induction false} WeightedTotalOfUnitCompositions(mfcs: seq<MfcSpec>)
    requires forall i :: 0 <= i < |mfcs| ==> Total(mfcs[i].z) == 1.0
    ensures WeightedTotal(mfcs) == SumFlows(mfcs)
  {
    if mfcs != [] {
      WeightedTotalOfUnitCompositions(mfcs[1..]);
    }
  }

  // ------------------------------------------------------------------
  // Compositions
  // ------------------------------------------------------------------

  /** Why a run of `simulate_drm` fails. */
  datatype FlowsheetError = ZeroTotalFeed | ZeroReactorOutflow

  /** Every value divided by `t`, keys and order kept. */
  function Fractions(d: Flows, t: real): (r: Flows)
    requires t != 0.0
    ensures |r| == |d|
    ensures forall i :: 0 <= i < |d| ==> r[i] == (d[i].0, d[i].1 / t)
  {
    if d == [] then [] else [(d[0].0, d[0].1 / t)] + Fractions(d[1..], t)
  }

  lemma {:induction false} FractionsTotal(d: Flows, t: real)
    requires t != 0.0
    ensures Total(Fractions(d, t)) == Total(d) / t
  {
    if d != [] {
      FractionsTotal(d[1..], t);
      assert Fractions(d, t)[1..] == Fractions(d[1..], t);
    }
  }

  /** `z_feed`: the mixed flows over the total flow; the division only happens when
      the mix has a component. */
  function FeedComposition(mix: Flows, totalFlow: real): Result<Flows, FlowsheetError> {
    if mix == [] then Ok([])
    else if totalFlow == 0.0 then Err(ZeroTotalFeed)
    else Ok(Fractions(mix, totalFlow))
  }

  /** When every controller composition sums to one, the feed composition sums to
      one. */
  lemma FeedCompositionSumsToOne(mfcs: seq<MfcSpec>)
    requires WellFormed(mfcs)
    requires forall i :: 0 <= i < |mfcs| ==> Total(mfcs[i].z) == 1.0
    requires Mix(mfcs).0 != [] && Mix(mfcs).1 != 0.0
    ensures FeedComposition(Mix(mfcs).0, Mix(mfcs).1).Ok?
    ensures Total(FeedComposition(Mix(mfcs).0, Mix(mfcs).1).value) == 1.0
  {
    MixFacts(mfcs, "");
    WeightedTotalOfUnitCompositions(mfcs);
    var (mix, t) := Mix(mfcs);
    FractionsTotal(mix, t);
    assert Total(mix) == t;
    assert FeedComposition(mix, t) == Ok(Fractions(mix, t));
    assert Total(Fractions(mix, t)) == t / t == 1.0;
  }

  // ------------------------------------------------------------------
  // Reactor
  // ------------------------------------------------------------------

  const MainSpecies: seq<string> := ["CH4", "CO2", "CO", "H2"]

  /** `F_other`: the mixed flows other than CH4, CO2, CO and H2, in order. */
  function Others(mix: Flows): Flows {
    if mix == [] then []
    else if mix[0].0 in MainSpecies then Others(mix[1..])
    else [mix[0]] + Others(mix[1..])
  }

  function Min(a: real, b: real): real {
    if a <= b then a else b
  }

  /** The moles of CH4 and CO2 each that react: `conv` of the scarcer feed. */
  function Extent(ch4In: real, co2In: real, conv: real): real {
    Min(ch4In, co2In) * conv
  }

  lemma MulNonNegative(a: real, b: real)
    requires a >= 0.0 && b >= 0.0
    ensures a * b >= 0.0
  {
  }

  /** A quotient bounded through its numerator. */
  lemma RatioAtMost(x: real, y: real, c: real)
    requires y > 0.0 && 0.0 <= x <= y * c
    ensures 0.0 <= x / y <= c
  {
    var q := x / y;
    assert q * y == x;
    if q > c {
      assert q * y > c * y;
    }
  }

  /** `min(a, b) * conv` lies between zero and `a * conv`, `b * conv` and `min(a, b)`. */
  lemma MinTimes(a: real, b: real, conv: real)
    requires a >= 0.0 && b >= 0.0 && 0.0 <= conv <= 1.0
    ensures 0.0 <= Min(a, b) * conv <= Min(a, b)
    ensures Min(a, b) * conv <= a * conv && Min(a, b) * conv <= b * conv
  {
    var m := Min(a, b);
    MulNonNegative(m, 1.0 - conv);
    MulNonNegative(m, conv);
    MulNonNegative(a - m, conv);
    MulNonNegative(b - m, conv);
  }

  /** The reactor block: feeds, extent of reaction, outlet flows. */
  datatype ReactorOutlet = ReactorOutlet(
    ch4In: real, co2In: real, reacted: real,
    ch4Out: real, co2Out: real, coOut: real, h2Out: real,
    other: Flows, totalOut: real)

  /** The fixed-conversion reactor: `reacted = min(F_CH4_in, F_CO2_in) * conv`. */
  function Reactor(mix: Flows, conv: real): ReactorOutlet {
    var ch4In := Get(mix, "CH4");
    var co2In := Get(mix, "CO2");
    var reacted := Extent(ch4In, co2In, conv);
    var ch4Out := ch4In - reacted;
    var co2Out := co2In - reacted;
    var coOut := Get(mix, "CO") + 2.0 * reacted;
    var h2Out := Get(mix, "H2") + 2.0 * reacted;
    var other := Others(mix);
    ReactorOutlet(ch4In, co2In, reacted, ch4Out, co2Out, coOut, h2Out, other,
                  ch4Out + co2Out + coOut + h2Out + Total(other))
  }

  /** Carbon, hydrogen and oxygen atoms carried by CH4, CO2, CO and H2 are the same
      at the outlet as at the inlet. */
  lemma ReactorConservesAtoms(mix: Flows, conv: real)
    ensures var r := Reactor(mix, conv);
      r.ch4Out + r.co2Out + r.coOut == r.ch4In + r.co2In + Get(mix, "CO")
    ensures var r := Reactor(mix, conv);
      4.0 * r.ch4Out + 2.0 * r.h2Out == 4.0 * r.ch4In + 2.0 * Get(mix, "H2")
    ensures var r := Reactor(mix, conv);
      2.0 * r.co2Out + r.coOut == 2.0 * r.co2In + Get(mix, "CO")
  {
  }

  lemma {:induction false} OthersGet(mix: Flows, c: string)
    requires c !in MainSpecies
    ensures Get(Others(mix), c) == Get(mix, c)
  {
    if mix != [] {
      OthersGet(mix[1..], c);
      if mix[0].0 !in MainSpecies {
        assert Others(mix)[0] == mix[0] && Others(mix)[1..] == Others(mix[1..]);
      }
    }
  }

  /** CO and H2 each gain twice the extent of reaction; every other species passes
      through unchanged. */
  lemma ReactorProducts(mix: Flows, conv: real)
    ensures Reactor(mix, conv).coOut - Get(mix, "CO") == 2.0 * Reactor(mix, conv).reacted
    ensures Reactor(mix, conv).h2Out - Get(mix, "H2") == 2.0 * Reactor(mix, conv).reacted
    ensures forall c :: c !in MainSpecies ==> Get(Reactor(mix, conv).other, c) == Get(mix, c)
  {
    forall c | c !in MainSpecies
      ensures Get(Others(mix), c) == Get(mix, c)
    {
      OthersGet(mix, c);
    }
  }

  /** Every flow of the mix is non-negative. */
  predicate NonNegativeFlows(d: Flows) {
    forall i :: 0 <= i < |d| ==> d[i].1 >= 0.0
  }

  lemma {:induction false} GetNonNegative(d: Flows, k: string)
    requires NonNegativeFlows(d)
    ensures Get(d, k) >= 0.0
  {
    if d != [] {
      assert NonNegativeFlows(d[1..]) by {
        forall i | 0 <= i < |d[1..]| ensures d[1..][i].1 >= 0.0 {
          assert d[1..][i] == d[i + 1];
        }
      }
      GetNonNegative(d[1..], k);
    }
  }

  lemma {:induction false} OthersTotalNonNegative(d: Flows)
    requires NonNegativeFlows(d)
    ensures Total(Others(d)) >= 0.0
  {
    if d != [] {
      assert NonNegativeFlows(d[1..]) by {
        forall i | 0 <= i < |d[1..]| ensures d[1..][i].1 >= 0.0 {
          assert d[1..][i] == d[i + 1];
        }
      }
      OthersTotalNonNegative(d[1..]);
      if d[0].0 !in MainSpecies {
        assert Others(d)[0] == d[0] && Others(d)[1..] == Others(d[1..]);
      }
    }
  }

  /** With a conversion in [0, 1] and non-negative mixed flows, the extent of
      reaction lies between zero and the smaller of the CH4 and CO2 feeds, and
      below each feed times the conversion. */
  lemma ReactorExtent(mix: Flows, conv: real)
    requires 0.0 <= conv <= 1.0
    requires NonNegativeFlows(mix)
    ensures var r := Reactor(mix, conv);
      && 0.0 <= r.ch4In && 0.0 <= r.co2In
      && 0.0 <= r.reacted <= Min(r.ch4In, r.co2In)
      && r.reacted <= r.ch4In * conv && r.reacted <= r.co2In * conv
  {
    GetNonNegative(mix, "CH4");
    GetNonNegative(mix, "CO2");
    var r := Reactor(mix, conv);
    ExtentBounds(r.ch4In, r.co2In, conv);
  }

  lemma ExtentBounds(a: real, b: real, conv: real)
    requires a >= 0.0 && b >= 0.0 && 0.0 <= conv <= 1.0
    ensures 0.0 <= Extent(a, b, conv) <= Min(a, b)
    ensures Extent(a, b, conv) <= a * conv && Extent(a, b, conv) <= b * conv
  {
    MinTimes(a, b, conv);
  }

  /** With a conversion in [0, 1] and non-negative mixed flows no outlet flow is
      negative. */
  lemma ReactorNonNegative(mix: Flows, conv: real)
    requires 0.0 <= conv <= 1.0
    requires NonNegativeFlows(mix)
    ensures var r := Reactor(mix, conv);
      r.ch4Out >= 0.0 && r.co2Out >= 0.0 && r.coOut >= 0.0 && r.h2Out >= 0.0 && r.totalOut >= 0.0
  {
    ReactorExtent(mix, conv);
    GetNonNegative(mix, "CO");
    GetNonNegative(mix, "H2");
    OthersTotalNonNegative(mix);
  }

  /** The total of a dictionary is its CH4, CO2, CO and H2 entries plus the rest. */
  lemma {:induction false} TotalSplit(mix: Flows)
    requires DistinctKeys(mix)
    ensures Total(mix) == Get(mix, "CH4") + Get(mix, "CO2") + Get(mix, "CO") + Get(mix, "H2") + Total(Others(mix))
  {
    if mix != [] {
      var k := mix[0].0;
      var rest := mix[1..];
      TotalSplit(rest);
      if k in MainSpecies {
        GetAbsent(rest, k);
        assert Others(mix) == Others(rest);
      } else {
        assert Others(mix)[0] == mix[0] && Others(mix)[1..] == Others(rest);
        assert Get(mix, "CH4") == Get(rest, "CH4") && Get(mix, "CO2") == Get(rest, "CO2");
        assert Get(mix, "CO") == Get(rest, "CO") && Get(mix, "H2") == Get(rest, "H2");
      }
    }
  }

  /** The reactor outflow is the mixed flow plus twice the extent of reaction (the
      reaction makes four molecules from two). */
  lemma ReactorTotal(mix: Flows, conv: real)
    requires DistinctKeys(mix)
    ensures Reactor(mix, conv).totalOut == Total(mix) + 2.0 * Reactor(mix, conv).reacted
  {
    TotalSplit(mix);
  }

  /** The reactor outlet flows as a dictionary: CH4, CO2, CO, H2, then the others. */
  function OutletFlows(r: ReactorOutlet): Flows {
    [("CH4", r.ch4Out), ("CO2", r.co2Out), ("CO", r.coOut), ("H2", r.h2Out)] + r.other
  }

  /** `z_reactor`: the outlet flows over the outflow. */
  function ReactorComposition(r: ReactorOutlet): Result<Flows, FlowsheetError> {
    if r.totalOut == 0.0 then Err(ZeroReactorOutflow)
    else Ok(Fractions(OutletFlows(r), r.totalOut))
  }

  lemma {:induction false} TotalAppend(a: Flows, b: Flows)
    ensures Total(a + b) == Total(a) + Total(b)
  {
    if a == [] {
      assert a + b == b;
    } else {
      assert (a + b)[0] == a[0];
      assert (a + b)[1..] == a[1..] + b;
      TotalAppend(a[1..], b);
    }
  }

  /** When the outflow is non-zero the reactor fractions sum to one. */
  lemma ReactorCompositionSumsToOne(mix: Flows, conv: real)
    requires Reactor(mix, conv).totalOut != 0.0
    ensures ReactorComposition(Reactor(mix, conv)).Ok?
    ensures Total(ReactorComposition(Reactor(mix, conv)).value) == 1.0
  {
    var r := Reactor(mix, conv);
    assert r.totalOut == r.ch4Out + r.co2Out + r.coOut + r.h2Out + Total(r.other);
    OutletFractionsSumToOne(r);
  }

  lemma OutletFractionsSumToOne(r: ReactorOutlet)
    requires r.totalOut != 0.0
    requires r.totalOut == r.ch4Out + r.co2Out + r.coOut + r.h2Out + Total(r.other)
    ensures ReactorComposition(r).Ok?
    ensures Total(ReactorComposition(r).value) == 1.0
  {
    var head: Flows := [("CH4", r.ch4Out), ("CO2", r.co2Out), ("CO", r.coOut), ("H2", r.h2Out)];
    TotalAppend(head, r.other);
    var h1: Flows := [("CO2", r.co2Out), ("CO", r.coOut), ("H2", r.h2Out)];
    var h2: Flows := [("CO", r.coOut), ("H2", r.h2Out)];
    var h3: Flows := [("H2", r.h2Out)];
    assert h3[1..] == [];
    assert Total(h3) == r.h2Out;
    assert h2[1..] == h3;
    assert Total(h2) == r.coOut + r.h2Out;
    assert h1[1..] == h2;
    assert Total(h1) == r.co2Out + r.coOut + r.h2Out;
    assert head[1..] == h1;
    assert Total(head) == r.ch4Out + r.co2Out + r.coOut + r.h2Out;
    assert Total(OutletFlows(r)) == r.totalOut;
    FractionsTotal(OutletFlows(r), r.totalOut);
    assert Total(Fractions(OutletFlows(r), r.totalOut)) == r.totalOut / r.totalOut == 1.0;
  }

  // ------------------------------------------------------------------
  // Duties and KPIs
  // ------------------------------------------------------------------

  datatype Duties = Duties(preheater: real, reactor: real, cooler: real, total: real)

  function Max(a: real, b: real): real {
    if a >= b then a else b
  }

  /** The heat duties in kW, with the reactor duty per unit of conversion
      (floored at 1e-8). */
  function HeatDuties(totalFlow: real, reacted: real, conv: real): Duties {
    Duties(55.6 * totalFlow, 187.9 * reacted / Max(conv, 1.0e-8), 120.5 * reacted,
           55.6 * totalFlow + 187.9 * reacted / Max(conv, 1.0e-8) + 120.5 * reacted)
  }

  /** The total duty is the sum of the three block duties. For a non-negative mix, a
      non-negative feed flow and a conversion in [0, 1], every duty is non-negative,
      the cooler duty is bounded by the scarcer feed, and without reaction only the
      preheater draws heat. */
  lemma DutiesTotal(mix: Flows, totalFlow: real, conv: real)
    requires 0.0 <= conv <= 1.0 && NonNegativeFlows(mix) && 0.0 <= totalFlow
    ensures var r := Reactor(mix, conv);
      var d := HeatDuties(totalFlow, r.reacted, conv);
      && d.total == d.preheater + d.reactor + d.cooler
      && 0.0 <= d.preheater && 0.0 <= d.reactor && 0.0 <= d.cooler
      && d.cooler <= 120.5 * Min(r.ch4In, r.co2In)
      && (d.cooler == 0.0 <==> r.reacted == 0.0)
      && (r.reacted == 0.0 ==> d.total == d.preheater)
  {
    ReactorExtent(mix, conv);
    var r := Reactor(mix, conv);
    var m := Max(conv, 1.0e-8);
    MulNonNegative(187.9, r.reacted);
    RatioAtMost(187.9 * r.reacted, m, 187.9 * r.reacted / m);
    MulNonNegative(55.6, totalFlow);
  }

  datatype Kpis = Kpis(ch4Conversion: real, co2Conversion: real, h2Co: Option<real>, syngasPurity: Option<real>)

  /** The threshold below which a flow counts as zero for a KPI. */
  const KpiThreshold: real := 1.0e-8

  function KeyIndicators(r: ReactorOutlet): Kpis {
    Kpis(
      if r.ch4In > KpiThreshold then r.reacted / r.ch4In else 0.0,
      if r.co2In > KpiThreshold then r.reacted / r.co2In else 0.0,
      if r.coOut > KpiThreshold then Some(r.h2Out / r.coOut) else None,
      if r.totalOut > KpiThreshold then Some((r.h2Out + r.coOut) / r.totalOut) else None)
  }

  /** With a conversion in [0, 1] and non-negative mixed flows, the CH4 and CO2
      conversions lie in [0, conv], and each is zero when its feed is at most 1e-8. */
  lemma ConversionBounds(mix: Flows, conv: real)
    requires 0.0 <= conv <= 1.0
    requires NonNegativeFlows(mix)
    ensures var k := KeyIndicators(Reactor(mix, conv));
      && 0.0 <= k.ch4Conversion <= conv && 0.0 <= k.co2Conversion <= conv
      && (Get(mix, "CH4") <= KpiThreshold ==> k.ch4Conversion == 0.0)
      && (Get(mix, "CO2") <= KpiThreshold ==> k.co2Conversion == 0.0)
  {
    GetNonNegative(mix, "CH4");
    GetNonNegative(mix, "CO2");
    var r := Reactor(mix, conv);
    IndicatorBounds(r, conv);
  }

  /** The conversions of an outlet in which `conv` of the scarcer feed reacted. */
  lemma IndicatorBounds(r: ReactorOutlet, conv: real)
    requires 0.0 <= conv <= 1.0 && 0.0 <= r.ch4In && 0.0 <= r.co2In
    requires r.reacted == Extent(r.ch4In, r.co2In, conv)
    ensures var k := KeyIndicators(r);
      && 0.0 <= k.ch4Conversion <= conv && 0.0 <= k.co2Conversion <= conv
      && (r.ch4In <= KpiThreshold ==> k.ch4Conversion == 0.0)
      && (r.co2In <= KpiThreshold ==> k.co2Conversion == 0.0)
  {
    MinTimes(r.ch4In, r.co2In, conv);
    ConversionOfFeed(r.reacted, r.ch4In, conv);
    ConversionOfFeed(r.reacted, r.co2In, conv);
  }

  /** A conversion computed as `reacted / feed` (0 for a feed at most 1e-8) lies in
      [0, conv] when at most `conv` of the feed reacted. */
  lemma ConversionOfFeed(reacted: real, feed: real, conv: real)
    requires 0.0 <= reacted <= feed * conv
    ensures feed > KpiThreshold ==> 0.0 <= reacted / feed <= conv
  {
    if feed > KpiThreshold {
      RatioAtMost(reacted, feed, conv);
    }
  }

  /** With a conversion in [0, 1] and non-negative mixed flows, the syngas purity,
      when reported, lies in [0, 1], and it is reported exactly when the outflow
      exceeds 1e-8; H2/CO is reported exactly when the CO outflow exceeds 1e-8. */
  lemma PurityBounds(mix: Flows, conv: real)
    requires 0.0 <= conv <= 1.0
    requires NonNegativeFlows(mix)
    ensures var k := KeyIndicators(Reactor(mix, conv));
      && (k.syngasPurity.Some? <==> Reactor(mix, conv).totalOut > KpiThreshold)
      && (k.syngasPurity.Some? ==> 0.0 <= k.syngasPurity.value <= 1.0)
      && (k.h2Co.Some? <==> Reactor(mix, conv).coOut > KpiThreshold)
  {
    var r := Reactor(mix, conv);
    ReactorNonNegative(mix, conv);
    OthersTotalNonNegative(mix);
    if r.totalOut > KpiThreshold {
      RatioAtMost(r.h2Out + r.coOut, r.totalOut, 1.0);
    }
  }

  /** With no CO or H2 in the feed and a positive extent of reaction, the H2/CO
      ratio is exactly one, as the stoichiometry of dry reforming dictates. */
  lemma SyngasRatioOne(mix: Flows, conv: real)
    requires Get(mix, "CO") == 0.0 && Get(mix, "H2") == 0.0
    requires Reactor(mix, conv).reacted > KpiThreshold
    ensures KeyIndicators(Reactor(mix, conv)).h2Co == Some(1.0)
  {
    var r := Reactor(mix, conv);
    assert r.coOut == r.h2Out == 2.0 * r.reacted;
    assert r.coOut > KpiThreshold;
    RatioOfEqual(r.h2Out, r.coOut);
  }

  lemma RatioOfEqual(x: real, y: real)
    requires x == y && y > 0.0
    ensures x / y == 1.0
  {
    assert x / y * y == x;
  }

  // ------------------------------------------------------------------
  // The whole flowsheet
  // ------------------------------------------------------------------

  datatype SimulationInput = SimulationInput(
    pressureBar: real, preheatTC: real, mfc: seq<MfcSpec>, drmConversion: real, coolerOutletTC: real)

  datatype Block = Block(fMolS: real, tC: real, pBar: real, z: Flows)

  datatype SimulationResult = SimulationResult(
    feed: Block, reactor: Block, cooler: Block, duties: Duties, kpis: Kpis)

  /** Everything after mixing: compositions, duties and KPIs. */
  function Flowsheet(input: SimulationInput, mix: Flows, totalFlow: real): Result<SimulationResult, FlowsheetError> {
    match FeedComposition(mix, totalFlow)
    case Err(e) => Err(e)
    case Ok(zFeed) =>
      var r := Reactor(mix, input.drmConversion);
      match ReactorComposition(r)
      case Err(e) => Err(e)
      case Ok(zReactor) =>
        Ok(SimulationResult(
          Block(totalFlow, input.preheatTC, input.pressureBar, zFeed),
          Block(r.totalOut, input.preheatTC, input.pressureBar, zReactor),
          Block(r.totalOut, input.coolerOutletTC, input.pressureBar, zReactor),
          HeatDuties(totalFlow, r.reacted, input.drmConversion),
          KeyIndicators(r)))
  }

  /** The specification of `simulate_drm`. */
  function Simulation(input: SimulationInput): Result<SimulationResult, FlowsheetError> {
    var (mix, totalFlow) := Mix(input.mfc);
    Flowsheet(input, mix, totalFlow)
  }

  /** `simulate_drm`: the mixing loops, then the block, duty and KPI expressions. */
  method SimulateDrm(input: SimulationInput) returns (res: Result<SimulationResult, FlowsheetError>)
    ensures res == Simulation(input)
  {
    var mix, totalFlow := MixStreams(input.mfc);
    res := Flowsheet(input, mix, totalFlow);
  }

  /** A run fails exactly when the feed has components but a zero total flow, or
      the reactor outflow is zero; a successful run with a conversion in [0, 1] and
      non-negative feeds reports a feed block carrying the total controller flow
      and a reactor outflow of that mix plus twice the extent of reaction. */
  lemma SimulationFacts(input: SimulationInput)
    requires WellFormed(input.mfc)
    ensures var (mix, totalFlow) := Mix(input.mfc);
      Simulation(input).Err? <==>
        (mix != [] && totalFlow == 0.0) || Reactor(mix, input.drmConversion).totalOut == 0.0
    ensures Simulation(input).Ok? ==> Simulation(input).value.feed.fMolS == SumFlows(input.mfc)
    ensures Simulation(input).Ok? ==>
      var r := Reactor(Mix(input.mfc).0, input.drmConversion);
      Simulation(input).value.reactor.fMolS == Total(Mix(input.mfc).0) + 2.0 * r.reacted
  {
    MixFacts(input.mfc, "");
    ReactorTotal(Mix(input.mfc).0, input.drmConversion);
  }
}
