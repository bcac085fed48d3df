/** The DWSIM REST client helpers (backend/dwsim_api_client.py): the normalisation
    of the API base URL kept in the module's global, and the dashboard summary built
    from a simulation response. The HTTP calls themselves are not part of this model. */
module DwsimApiClient {
  import opened Results
  import opened PyStr
  import opened PyValues

  // ------------------------------------------------------------------
  // Base URL
  // ------------------------------------------------------------------

  /** The URL `set_base_url` stores: kept verbatim when it already ends in '/api',
      otherwise stripped of trailing slashes and extended with '/api'. */
  function NormalizedBaseUrl(url: string): (r: string)
    ensures EndsWith(r, "/api")
    ensures EndsWith(url, "/api") ==> r == url
    ensures !EndsWith(url, "/api") ==> r == RStripChar(url, '/') + "/api"
  {
    if EndsWith(url, "/api") then url else RStripChar(url, '/') + "/api"
  }

  /** Setting the base URL twice changes nothing the second time. */
  lemma NormalizedBaseUrlIdempotent(url: string)
    ensures NormalizedBaseUrl(NormalizedBaseUrl(url)) == NormalizedBaseUrl(url)
  {
  }

  /** The module-level `BASE_URL`. */
  class ApiClient {
    var baseUrl: string

    constructor ()
      ensures baseUrl == "http://localhost:5000/api"
    {
      baseUrl := "http://localhost:5000/api";
    }

    /** `set_base_url(url)`. */
    method SetBaseUrl(url: string)
      modifies this
      ensures baseUrl == NormalizedBaseUrl(url)
      ensures EndsWith(baseUrl, "/api")
    {
      if EndsWith(url, "/api") {
        baseUrl := url;
      } else {
        baseUrl := RStripChar(url, '/') + "/api";
      }
    }
  }

  // ------------------------------------------------------------------
  // Dashboard summary
  // ------------------------------------------------------------------

  /** What `frontend_data_format_example` raises on malformed input. */
  datatype FormatError =
    | ResponseWithoutGet   // the response is truthy but not a dictionary
    | StreamsWithoutItems  // `output_streams` is not a dictionary
    | NameWithoutNumber    // IndexError: a stream name without '_'
    | NotANumber           // TypeError from `round` or `+=` on a non-number

  /** The number a value stands for in arithmetic, if it is one. */
  function Number(v: Value): Result<real, FormatError> {
    match v
    case IntV(i) => Ok(i as real)
    case RealV(r, _) => Ok(r)
    case BoolV(b) => Ok(if b then 1.0 else 0.0)
    case _ => Err(NotANumber)
  }

  /** The four displayed measurements of a stream (their rounding is not modelled). */
  datatype Measurements = Measurements(temperatureC: real, pressureBar: real, massFlowMgS: real, enthalpyKJKg: real)

  datatype FormattedStream = FormattedStream(
    id: string, name: string, active: Value, measurements: Measurements, raw: Entries)

  /** The entries of `output_streams` that are formatted: dictionaries without 'error'. */
  predicate Included(v: Value) {
    v.DictV? && !HasKey(v.entries, "error")
  }

  /** The stream number: `stream_number`, or the second '_'-separated token of the name,
      which Python evaluates (and may fail on) even when `stream_number` is present. */
  function StreamNumber(name: string, stream: Entries): (r: Result<Value, FormatError>)
    ensures r.Err? <==> '_' !in name
  {
    var tokens := Split(name, "_");
    SplitHasSeparator(name);
    if |tokens| < 2 then Err(NameWithoutNumber)
    else Ok(GetOr(stream, "stream_number", StrV(tokens[1])))
  }

  /** A name splits into at least two tokens exactly when it holds '_'. */
  lemma SplitHasSeparator(name: string)
    ensures |Split(name, "_")| >= 2 <==> '_' in name
  {
    if '_' in name {
      var j :| 0 <= j < |name| && name[j] == '_';
      assert name[j..j + 1] == "_";
      assert OccursAt(name, "_", j);
      ContainsIff(name, "_");
      assert Find(name, "_").Some?;
    } else {
      AbsentHeadNotContained(name, "_");
      assert Find(name, "_").None?;
    }
  }

  /** The formatted dictionary of one stream. */
  function FormatStream(name: string, stream: Entries): Result<FormattedStream, FormatError> {
    var number :- StreamNumber(name, stream);
    var t :- Number(GetOr(stream, "temperature_C", IntV(0)));
    var p :- Number(GetOr(stream, "pressure_bar", IntV(0)));
    var f :- Number(GetOr(stream, "mass_flow_mg_s", IntV(0)));
    var h :- Number(GetOr(stream, "enthalpy_kJ_kg", IntV(0)));
    Ok(FormattedStream("stream_" + Str(number), "Stream " + Str(number),
                       GetOr(stream, "active", BoolV(false)), Measurements(t, p, f, h), stream))
  }

  /** `d[key] = value` on an insertion-ordered dictionary: an existing key keeps its
      place and takes the new value; a new key goes last. */
  function Put<V(==)>(d: seq<(string, V)>, key: string, value: V): (r: seq<(string, V)>)
    ensures |r| == |d| || |r| == |d| + 1
    ensures forall j :: 0 <= j < |d| ==> r[j].0 == d[j].0
    ensures exists j :: 0 <= j < |r| && r[j] == (key, value)
    ensures forall j :: 0 <= j < |r| && r[j].0 != key ==> j < |d| && r[j] == d[j]
  {
    if d == [] then
      var r := [(key, value)];
      assert r[0] == (key, value);
      r
    else if d[0].0 == key then
      var r := [(key, value)] + d[1..];
      assert r[0] == (key, value);
      r
    else
      var rest := Put(d[1..], key, value);
      var r := [d[0]] + rest;
      assert forall j :: 1 <= j < |r| ==> r[j] == rest[j - 1];
      var k :| 0 <= k < |rest| && rest[k] == (key, value);
      assert r[k + 1] == (key, value);
      r
  }

  predicate DistinctKeys<V>(d: seq<(string, V)>) {
    forall i, j :: 0 <= i < j < |d| ==> d[i].0 != d[j].0
  }

  function Keys<V>(d: seq<(string, V)>): set<string> {
    set j | 0 <= j < |d| :: d[j].0
  }

  /** Putting a key the dictionary holds does not lengthen it. */
  lemma {:induction false} PutPresent<V>(d: seq<(string, V)>, key: string, value: V, i: nat)
    requires i < |d| && d[i].0 == key
    ensures |Put(d, key, value)| == |d|
    decreases |d|
  {
    if d[0].0 != key {
      PutPresent(d[1..], key, value, i - 1);
    }
  }

  /** Putting into a dictionary adds exactly the key put. */
  lemma PutKeys<V>(d: seq<(string, V)>, key: string, value: V)
    ensures Keys(Put(d, key, value)) == Keys(d) + {key}
  {
    var r := Put(d, key, value);
    var k :| 0 <= k < |r| && r[k] == (key, value);
    assert key in Keys(r);
    forall x | x in Keys(r)
      ensures x in Keys(d) + {key}
    {
      var j :| 0 <= j < |r| && r[j].0 == x;
      if x != key {
        assert r[j] == d[j];
      }
    }
    forall x | x in Keys(d)
      ensures x in Keys(r)
    {
      var j :| 0 <= j < |d| && d[j].0 == x;
      assert r[j].0 == x;
    }
  }

  /** Putting into a dictionary with distinct keys keeps them distinct and adds
      exactly the key put. */
  lemma PutDistinct<V>(d: seq<(string, V)>, key: string, value: V)
    requires DistinctKeys(d)
    ensures DistinctKeys(Put(d, key, value))
    ensures Keys(Put(d, key, value)) == Keys(d) + {key}
  {
    PutKeys(d, key, value);
    var r := Put(d, key, value);
    forall i, j | 0 <= i < j < |r|
      ensures r[i].0 != r[j].0
    {
      if j >= |d| {
        assert r[j].0 == key;
        if r[i].0 == key {
          PutPresent(d, key, value, i);
        }
      }
    }
  }

  /** What the stream loop has gathered so far. */
  datatype Gathered = Gathered(
    streams: seq<(string, FormattedStream)>, activeStreams: nat, totalFlow: real, temps: seq<real>)

  /** One turn of the stream loop. */
  function GatherStep(g: Gathered, name: string, v: Value): Result<Gathered, FormatError> {
    if !Included(v) then Ok(g)
    else
      var s :- FormatStream(name, v.entries);
      var streams := Put(g.streams, s.id, s);
      if Truthy(GetOr(v.entries, "active", NoneV)) then
        Ok(Gathered(streams, g.activeStreams + 1, g.totalFlow + s.measurements.massFlowMgS,
                    g.temps + [s.measurements.temperatureC]))
      else Ok(Gathered(streams, g.activeStreams, g.totalFlow, g.temps))
  }

  /** The stream loop of `frontend_data_format_example` over `output_streams`. */
  function GatherStreams(entries: Entries): Result<Gathered, FormatError>
    decreases |entries|
  {
    if entries == [] then Ok(Gathered([], 0, 0.0, []))
    else
      var g :- GatherStreams(entries[..|entries| - 1]);
      GatherStep(g, entries[|entries| - 1].0, entries[|entries| - 1].1)
  }

  /** The number of included entries whose `active` flag is truthy. */
  function CountActive(entries: Entries): nat
    decreases |entries|
  {
    if entries == [] then 0
    else
      var v := entries[|entries| - 1].1;
      CountActive(entries[..|entries| - 1])
        + (if Included(v) && Truthy(GetOr(v.entries, "active", NoneV)) then 1 else 0)
  }

  function Sum(xs: seq<real>): real
    decreases |xs|
  {
    if xs == [] then 0.0 else Sum(xs[..|xs| - 1]) + xs[|xs| - 1]
  }

  /** The summary counts exactly the included active streams, one temperature each;
      the formatted streams carry distinct keys, one `stream_<n>` per included entry,
      later entries overwriting earlier ones with the same key. */
  lemma {:induction false} GatherStreamsFacts(entries: Entries)
    ensures GatherStreams(entries).Ok? ==>
      var g := GatherStreams(entries).value;
      && g.activeStreams == |g.temps| == CountActive(entries)
      && DistinctKeys(g.streams)
      && |g.streams| <= |entries|
    decreases |entries|
  {
    if entries != [] {
      var init := entries[..|entries| - 1];
      GatherStreamsFacts(init);
      var (name, v) := entries[|entries| - 1];
      if GatherStreams(entries).Ok? && Included(v) {
        var g := GatherStreams(init).value;
        var s := FormatStream(name, v.entries).value;
        PutDistinct(g.streams, s.id, s);
      }
    }
  }

  /** The number a field of a stream stands for (0 when it is not one). */
  function NumberOr0(v: Value): real {
    match Number(v)
    case Ok(x) => x
    case Err(_) => 0.0
  }

  /** The values of a measurement field over the included active entries, in order:
      an independent statement of what the loop collects. */
  function ActiveField(entries: Entries, field: string): seq<real>
    decreases |entries|
  {
    if entries == [] then []
    else
      var v := entries[|entries| - 1].1;
      ActiveField(entries[..|entries| - 1], field)
        + (if Included(v) && Truthy(GetOr(v.entries, "active", NoneV))
           then [NumberOr0(GetOr(v.entries, field, IntV(0)))] else [])
  }

  lemma SumSnoc(xs: seq<real>, x: real)
    ensures Sum(xs + [x]) == Sum(xs) + x
  {
    assert (xs + [x])[..|xs|] == xs;
  }

  /** One turn of the loop adds the temperature and the mass flow of an included
      active stream, and nothing otherwise. */
  lemma GatherStepSums(g: Gathered, name: string, v: Value)
    requires GatherStep(g, name, v).Ok?
    ensures var active := Included(v) && Truthy(GetOr(v.entries, "active", NoneV));
      var next := GatherStep(g, name, v).value;
      && next.temps == g.temps + (if active then [NumberOr0(GetOr(v.entries, "temperature_C", IntV(0)))] else [])
      && next.totalFlow == g.totalFlow + (if active then NumberOr0(GetOr(v.entries, "mass_flow_mg_s", IntV(0))) else 0.0)
  {
  }

  /** The loop collects the temperature of every included active stream, in order,
      and `total_flow` is the sum of their mass flows. */
  lemma {:induction false} GatherStreamsSums(entries: Entries)
    ensures GatherStreams(entries).Ok? ==>
      var g := GatherStreams(entries).value;
      && g.temps == ActiveField(entries, "temperature_C")
      && g.totalFlow == Sum(ActiveField(entries, "mass_flow_mg_s"))
    decreases |entries|
  {
    if entries != [] && GatherStreams(entries).Ok? {
      var init := entries[..|entries| - 1];
      var (name, v) := entries[|entries| - 1];
      assert GatherStreams(init).Ok?;
      var g := GatherStreams(init).value;
      assert GatherStreams(entries) == GatherStep(g, name, v);
      GatherStreamsSums(init);
      GatherStepSums(g, name, v);
      var active := Included(v) && Truthy(GetOr(v.entries, "active", NoneV));
      var temps := ActiveField(init, "temperature_C");
      var flows := ActiveField(init, "mass_flow_mg_s");
      if active {
        var f := NumberOr0(GetOr(v.entries, "mass_flow_mg_s", IntV(0)));
        assert ActiveField(entries, "mass_flow_mg_s") == flows + [f];
        SumSnoc(flows, f);
      } else {
        assert ActiveField(entries, "mass_flow_mg_s") == flows;
      }
    }
  }

  /** The `summary` of the dashboard. */
  datatype Summary = Summary(activeStreams: nat, totalFlowMgS: real, avgTemperatureC: real)

  datatype Dashboard = Dashboard(
    simulationStatus: string, timestamp: Value,
    processStreams: seq<(string, FormattedStream)>, summary: Summary)

  /** The mean of the temperatures, or 0 without any. */
  function MeanOr0(temps: seq<real>): (m: real)
    ensures temps == [] ==> m == 0.0
  {
    if temps == [] then 0.0 else Sum(temps) / (|temps| as real)
  }

  function Lowest(xs: seq<real>): real
    requires xs != []
    decreases |xs|
  {
    if |xs| == 1 then xs[0]
    else var m := Lowest(xs[..|xs| - 1]); if xs[|xs| - 1] < m then xs[|xs| - 1] else m
  }

  function Highest(xs: seq<real>): real
    requires xs != []
    decreases |xs|
  {
    if |xs| == 1 then xs[0]
    else var m := Highest(xs[..|xs| - 1]); if xs[|xs| - 1] > m then xs[|xs| - 1] else m
  }

  lemma {:induction false} LowestHighestBound(xs: seq<real>)
    requires xs != []
    ensures forall k :: 0 <= k < |xs| ==> Lowest(xs) <= xs[k] <= Highest(xs)
    decreases |xs|
  {
    if |xs| > 1 {
      LowestHighestBound(xs[..|xs| - 1]);
      assert forall k :: 0 <= k < |xs| - 1 ==> xs[k] == xs[..|xs| - 1][k];
    }
  }

  /** A mean lies between the smallest and the largest value averaged. */
  lemma MeanBetween(temps: seq<real>, lo: real, hi: real)
    requires temps != []
    requires forall k :: 0 <= k < |temps| ==> lo <= temps[k] <= hi
    ensures lo <= MeanOr0(temps) <= hi
  {
    SumBounds(temps, lo, hi);
    var n := |temps| as real;
    assert lo * n <= Sum(temps) <= hi * n;
    assert Sum(temps) / n >= lo by {
      assert (Sum(temps) / n) * n == Sum(temps);
    }
    assert Sum(temps) / n <= hi by {
      assert (Sum(temps) / n) * n == Sum(temps);
    }
  }

  lemma {:induction false} SumBounds(xs: seq<real>, lo: real, hi: real)
    requires forall k :: 0 <= k < |xs| ==> lo <= xs[k] <= hi
    ensures lo * (|xs| as real) <= Sum(xs) <= hi * (|xs| as real)
    decreases |xs|
  {
    if xs != [] {
      SumBounds(xs[..|xs| - 1], lo, hi);
    }
  }

  /** `frontend_data_format_example(api_response)`: `None` for a missing or
      unsuccessful response, the dashboard otherwise. */
  function DashboardOf(response: Value): Result<Option<Dashboard>, FormatError> {
    if !Truthy(response) then Ok(None)
    else if !response.DictV? then Err(ResponseWithoutGet)
    else
      var r := response.entries;
      if !Truthy(GetOr(r, "success", NoneV)) then Ok(None)
      else
        var outputs := GetOr(r, "output_streams", DictV([]));
        if !outputs.DictV? then Err(StreamsWithoutItems)
        else
          var g :- GatherStreams(outputs.entries);
          Ok(Some(Dashboard(
            if Truthy(GetOr(r, "simulation_completed", NoneV)) then "completed" else "failed",
            GetOr(r, "timestamp", NoneV),
            g.streams,
            Summary(g.activeStreams, g.totalFlow, MeanOr0(g.temps)))))
  }

  /** No dashboard for a missing, empty or unsuccessful response. */
  lemma DashboardAbsent(response: Value)
    ensures !Truthy(response) ==> DashboardOf(response) == Ok(None)
    ensures response.DictV? && !Truthy(GetOr(response.entries, "success", NoneV)) ==>
      DashboardOf(response) == Ok(None)
    ensures Truthy(response) && !response.DictV? ==> DashboardOf(response) == Err(ResponseWithoutGet)
  {
  }

  /** For a successful response the summary counts the included active streams and
      sums their mass flows, the streams are filed under distinct keys, and the average
      temperature is 0 without active streams and otherwise lies between their lowest
      and highest temperature. */
  lemma DashboardSummary(response: Value)
    requires DashboardOf(response).Ok? && DashboardOf(response).value.Some?
    ensures var outputs := GetOr(response.entries, "output_streams", DictV([])).entries;
      var d := DashboardOf(response).value.value;
      var temps := GatherStreams(outputs).value.temps;
      && d.summary.activeStreams == CountActive(outputs) == |temps|
      && temps == ActiveField(outputs, "temperature_C")
      && d.summary.totalFlowMgS == Sum(ActiveField(outputs, "mass_flow_mg_s"))
      && DistinctKeys(d.processStreams)
      && (temps == [] ==> d.summary.avgTemperatureC == 0.0)
      && (temps != [] ==> Lowest(temps) <= d.summary.avgTemperatureC <= Highest(temps))
  {
    var outputs := GetOr(response.entries, "output_streams", DictV([])).entries;
    GatherStreamsFacts(outputs);
    GatherStreamsSums(outputs);
    var temps := GatherStreams(outputs).value.temps;
    if temps != [] {
      LowestHighestBound(temps);
      MeanBetween(temps, Lowest(temps), Highest(temps));
    }
  }

  /** `frontend_data_format_example` as the loop the source runs. */
  method FrontendDataFormat(response: Value) returns (res: Result<Option<Dashboard>, FormatError>)
    ensures res == DashboardOf(response)
  {
    if !Truthy(response) {
      return Ok(None);
    }
    if !response.DictV? {
      return Err(ResponseWithoutGet);
    }
    var r := response.entries;
    if !Truthy(GetOr(r, "success", NoneV)) {
      return Ok(None);
    }
    var outputs := GetOr(r, "output_streams", DictV([]));
    if !outputs.DictV? {
      return Err(StreamsWithoutItems);
    }
    var g := GatherLoop(outputs.entries);
    if g.Err? {
      return Err(g.error);
    }
    var status := if Truthy(GetOr(r, "simulation_completed", NoneV)) then "completed" else "failed";
    var avg := if g.value.temps != [] then Sum(g.value.temps) / (|g.value.temps| as real) else 0.0;
    res := Ok(Some(Dashboard(status, GetOr(r, "timestamp", NoneV), g.value.streams,
                             Summary(g.value.activeStreams, g.value.totalFlow, avg))));
  }

  /** A failure in a prefix of the entries is the failure of the whole loop. */
  lemma {:induction false} GatherErrPrefix(entries: Entries, i: nat)
    requires i <= |entries| && GatherStreams(entries[..i]).Err?
    ensures GatherStreams(entries) == GatherStreams(entries[..i])
    decreases |entries| - i
  {
    if i < |entries| {
      assert entries[..i + 1][..i] == entries[..i];
      GatherErrPrefix(entries, i + 1);
    } else {
      assert entries[..i] == entries;
    }
  }

  /** The `for stream_name, stream_data in output_streams.items()` loop. */
  method GatherLoop(entries: Entries) returns (res: Result<Gathered, FormatError>)
    ensures res == GatherStreams(entries)
  {
    var g := Gathered([], 0, 0.0, []);
    for i := 0 to |entries|
      invariant GatherStreams(entries[..i]) == Ok(g)
    {
      assert entries[..i + 1][..i] == entries[..i];
      var next := GatherOne(g, entries[i].0, entries[i].1);
      if next.Err? {
        GatherErrPrefix(entries, i + 1);
        return Err(next.error);
      }
      g := next.value;
    }
    assert entries[..|entries|] == entries;
    res := Ok(g);
  }

  /** The body of the stream loop: format an included stream, file it under its key,
      and count it in the summary when it is active. */
  method GatherOne(g: Gathered, name: string, v: Value) returns (res: Result<Gathered, FormatError>)
    ensures res == GatherStep(g, name, v)
  {
    if !(v.DictV? && !HasKey(v.entries, "error")) {
      return Ok(g);
    }
    var s := FormatStream(name, v.entries);
    if s.Err? {
      return Err(s.error);
    }
    var streams := Put(g.streams, s.value.id, s.value);
    var active := g.activeStreams;
    var totalFlow := g.totalFlow;
    var temps := g.temps;
    if Truthy(GetOr(v.entries, "active", NoneV)) {
      active := active + 1;
      totalFlow := totalFlow + s.value.measurements.massFlowMgS;
      temps := temps + [s.value.measurements.temperatureC];
    }
    res := Ok(Gathered(streams, active, totalFlow, temps));
  }

  /** A stream whose name has no '_' aborts the summary even when it carries its own
      `stream_number`. */
  lemma NameWithoutUnderscoreFails()
    ensures FormatStream("feed", [("stream_number", IntV(3))]) == Err(NameWithoutNumber)
  {
    assert '_' !in "feed";
  }
}
