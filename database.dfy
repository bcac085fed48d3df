/** Saving a simulation result (backend/database.py, `save_simulation_result`):
    the status mapping, the resolution of each stream's names, the normalisation of
    an infinite density, the parsing of the modification strings, and the rows the
    save adds to the three tables. The SQLite connection is the store object below;
    the fresh identifiers and the current time are parameters. */
module Database {
  import opened Results
  import opened PyStr
  import opened PyValues

  // ------------------------------------------------------------------
  // Simulation metadata
  // ------------------------------------------------------------------

  /** `'success' if simulation_data.get('success', False) else 'failure'`. */
  function SimulationStatus(data: Entries): (status: string)
    ensures status == "success" || status == "failure"
    ensures status == "success" <==> HasKey(data, "success") && Truthy(Get(data, "success").value)
  {
    if Truthy(GetOr(data, "success", BoolV(false))) then "success" else "failure"
  }

  /** A row of `simulation_metadata`. */
  datatype MetadataRow = MetadataRow(
    simulationId: string, flowsheetName: Value, status: string,
    startTimestamp: Value, endTimestamp: Value,
    configFile: Option<string>, outputFile: Option<string>)

  /** The metadata row; `now` is the ISO text of the current UTC time. */
  function MetadataOf(simulationId: string, data: Entries, now: string,
                      configFile: Option<string>, outputFile: Option<string>): MetadataRow
  {
    var timestamp := GetOr(data, "timestamp", StrV(now));
    MetadataRow(simulationId, GetOr(data, "flowsheet_name", StrV("Unknown")), SimulationStatus(data),
                timestamp, timestamp, configFile, outputFile)
  }

  // ------------------------------------------------------------------
  // Stream names
  // ------------------------------------------------------------------

  /** `STREAM_NAME_MAPPING`. */
  function MappedName(n: int): Option<string> {
    if n == 1 then Some("6")
    else if n == 2 then Some("CO2 Inlet")
    else if n == 3 then Some("CO2 Sink")
    else if n == 4 then Some("CH4 Inlet")
    else if n == 5 then Some("CH4 Sink")
    else if n == 6 then Some("R-Inlet")
    else if n == 7 then Some("7")
    else None
  }

  /** `STREAM_NAME_MAPPING.get(stream_number, f'Stream {stream_number}')`, which raises
      for a list or dictionary stream number. */
  function DefaultName(number: Value): (r: Result<string, HashError>)
    ensures r.Err? <==> number.ListV? || number.DictV?
    ensures number.IntV? && 1 <= number.i <= 7 ==> r == Ok(MappedName(number.i).value)
    ensures number.IntV? && !(1 <= number.i <= 7) ==> r == Ok("Stream " + IntToString(number.i))
  {
    var key :- IntKey(number);
    if key.Some? && MappedName(key.value).Some? then Ok(MappedName(key.value).value)
    else Ok("Stream " + Str(number))
  }

  /** Different integer stream numbers get different default names. */
  lemma DefaultNamesDistinct(m: int, n: int)
    requires DefaultName(IntV(m)) == DefaultName(IntV(n))
    ensures m == n
  {
    var a := DefaultName(IntV(m)).value;
    if 1 <= m <= 7 && 1 <= n <= 7 {
    } else if !(1 <= m <= 7) && !(1 <= n <= 7) {
      assert a[7..] == IntToString(m);
      assert DefaultName(IntV(n)).value[7..] == IntToString(n);
      ParseIntToString(m);
      ParseIntToString(n);
    } else if 1 <= m <= 7 {
      MappedNotStream(m, IntToString(n));
    } else {
      MappedNotStream(n, IntToString(m));
    }
  }

  lemma MappedNotStream(k: int, s: string)
    requires 1 <= k <= 7
    ensures MappedName(k).value != "Stream " + s
  {
    assert ("Stream " + s)[0] == 'S';
  }

  /** The stream's `custom_name`: the API's own name unless it is missing, falsy or
      'Unknown', otherwise the default name of its number. */
  function CustomName(stream: Entries): Result<Value, HashError> {
    var base :- DefaultName(GetOr(stream, "stream_number", NoneV));
    var api := GetOr(stream, "custom_name", NoneV);
    Ok(if Truthy(api) && api != StrV("Unknown") then api else StrV(base))
  }

  /** `density == "infinite"` is stored as NULL. */
  function NormalizedDensity(density: Value): (d: Value)
    ensures density == StrV("infinite") ==> d == NoneV
    ensures density != StrV("infinite") ==> d == density
  {
    if density == StrV("infinite") then NoneV else density
  }

  // ------------------------------------------------------------------
  // Stream rows
  // ------------------------------------------------------------------

  /** What `save_simulation_result` raises on malformed input. */
  datatype SaveError =
    | UnhashableStreamNumber  // TypeError from the name mapping
    | NamingWithoutGet        // AttributeError: `naming` is not a dictionary
    | StreamsWithoutItems     // AttributeError: `all_streams` is not a dictionary
    | ModificationsNotIterable

  /** The measured columns of a stream row, in insert order (density excluded). */
  const MeasurementKeys: seq<string> := [
    "temperature_K", "temperature_C", "pressure_Pa", "pressure_bar",
    "mass_flow_kg_s", "mass_flow_mg_s", "molar_flow_mol_s", "volumetric_flow_m3_s",
    "molecular_weight_kg_mol", "enthalpy_kJ_kg", "entropy_kJ_kg_K"]

  /** A row of `streams` (its fresh `stream_id` left out). */
  datatype StreamRow = StreamRow(
    simulationId: string, streamNumber: Value, customName: Value, displayName: Value,
    graphicTag: Value, uuidDwsim: Value, measurements: seq<Value>, density: Value,
    active: Value, timestamp: Value)

  /** The row inserted for one stream dictionary. */
  function StreamRowOf(simulationId: string, stream: Entries): Result<StreamRow, SaveError> {
    match CustomName(stream)
    case Err(_) => Err(UnhashableStreamNumber)
    case Ok(custom) =>
      var naming := GetOr(stream, "naming", DictV([]));
      if !naming.DictV? then Err(NamingWithoutGet)
      else
        Ok(StreamRow(
          simulationId,
          GetOr(stream, "stream_number", NoneV),
          custom,
          GetOr(naming.entries, "display_name", custom),
          GetOr(naming.entries, "graphic_tag", custom),
          GetOr(stream, "uuid", GetOr(naming.entries, "uuid", StrV(""))),
          seq(|MeasurementKeys|, k requires 0 <= k < |MeasurementKeys| => GetOr(stream, MeasurementKeys[k], NoneV)),
          NormalizedDensity(GetOr(stream, "density_kg_m3", NoneV)),
          GetOr(stream, "active", BoolV(false)),
          GetOr(stream, "timestamp", NoneV)))
  }

  /** A stream row fails only for a list or dictionary stream number or a `naming`
      that is not a dictionary. Its custom name is the API's name when that is
      truthy and not 'Unknown', else the mapped or `Stream n` name; the display name
      and graphic tag fall back to the custom name; an infinite density becomes NULL. */
  lemma StreamRowFacts(simulationId: string, stream: Entries)
    ensures var number := GetOr(stream, "stream_number", NoneV);
      var naming := GetOr(stream, "naming", DictV([]));
      StreamRowOf(simulationId, stream).Err? <==>
        (number.ListV? || number.DictV? || !naming.DictV?)
    ensures StreamRowOf(simulationId, stream).Ok? ==>
      var row := StreamRowOf(simulationId, stream).value;
      var api := GetOr(stream, "custom_name", NoneV);
      var naming := GetOr(stream, "naming", DictV([])).entries;
      && row.simulationId == simulationId
      && (Truthy(api) && api != StrV("Unknown") ==> row.customName == api)
      && (!(Truthy(api) && api != StrV("Unknown")) ==>
            row.customName == StrV(DefaultName(GetOr(stream, "stream_number", NoneV)).value))
      && (!HasKey(naming, "display_name") ==> row.displayName == row.customName)
      && (!HasKey(naming, "graphic_tag") ==> row.graphicTag == row.customName)
      && (GetOr(stream, "density_kg_m3", NoneV) == StrV("infinite") ==> row.density == NoneV)
      && |row.measurements| == |MeasurementKeys|
  {
  }

  /** The rows for the members of `all_streams` that are dictionaries, in order; the
      first failing stream aborts the save. */
  function StreamRows(simulationId: string, streams: Entries): Result<seq<StreamRow>, SaveError>
    decreases |streams|
  {
    if streams == [] then Ok([])
    else
      var rows :- StreamRows(simulationId, streams[..|streams| - 1]);
      match streams[|streams| - 1].1
      case DictV(stream) =>
        var row :- StreamRowOf(simulationId, stream);
        Ok(rows + [row])
      case _ => Ok(rows)
  }

  /** The number of members of `streams` whose value is a dictionary. */
  function DictCount(streams: Entries): nat
    decreases |streams|
  {
    if streams == [] then 0
    else DictCount(streams[..|streams| - 1]) + (if streams[|streams| - 1].1.DictV? then 1 else 0)
  }

  /** Non-dictionary members are skipped and every dictionary gives one row of this
      simulation. */
  lemma {:induction false} StreamRowsFacts(simulationId: string, streams: Entries)
    ensures StreamRows(simulationId, streams).Ok? ==>
      |StreamRows(simulationId, streams).value| == DictCount(streams)
      && forall k :: 0 <= k < |StreamRows(simulationId, streams).value| ==>
           StreamRows(simulationId, streams).value[k].simulationId == simulationId
    decreases |streams|
  {
    if streams != [] {
      var init := streams[..|streams| - 1];
      StreamRowsFacts(simulationId, init);
      var last := streams[|streams| - 1].1;
      if last.DictV? {
        StreamRowFacts(simulationId, last.entries);
      }
    }
  }

  /** The save fails exactly when some dictionary member fails. */
  lemma {:induction false} StreamRowsFail(simulationId: string, streams: Entries)
    ensures StreamRows(simulationId, streams).Err? <==>
      exists j :: 0 <= j < |streams| && streams[j].1.DictV? && StreamRowOf(simulationId, streams[j].1.entries).Err?
    decreases |streams|
  {
    if streams != [] {
      var init := streams[..|streams| - 1];
      StreamRowsFail(simulationId, init);
      assert forall j :: 0 <= j < |init| ==> init[j] == streams[j];
      if StreamRows(simulationId, init).Err? {
        var j :| 0 <= j < |init| && init[j].1.DictV? && StreamRowOf(simulationId, init[j].1.entries).Err?;
        assert streams[j] == init[j];
      }
    }
  }

  // ------------------------------------------------------------------
  // Modification strings
  // ------------------------------------------------------------------

  /** A parsed modification string. */
  datatype Modification = Modification(streamNumber: Option<int>, parameter: string, value: string)

  /** `int(stream_part.split()[-1])` when the part mentions 'Stream'; any failure is
      swallowed as `None`. */
  function StreamNumberOf(part: string): Option<int> {
    if !Contains(part, "Stream") then None
    else
      var words := Words(part);
      if words == [] then None else ParseInt(words[|words| - 1])
  }

  /** `"Stream n"` names stream `n`. */
  lemma StreamNumberOfName(n: nat)
    ensures StreamNumberOf("Stream " + NatToString(n)) == Some(n)
  {
    var digits := NatToString(n);
    ContainsPrefix("Stream", " " + digits);
    assert "Stream" + (" " + digits) == "Stream" + " " + digits == "Stream " + digits;
    WordsOfTwo("Stream", digits);
    ParseIntToString(n);
  }

  /** `modification.split(': ')`: fewer than three parts are ignored; otherwise the
      parameter is the second part and the value the rest joined back with ': '. */
  function ParseModification(m: string): Option<Modification> {
    var parts := Split(m, ": ");
    if |parts| < 3 then None
    else Some(Modification(StreamNumberOf(parts[0]), parts[1], Join(parts[2..], ": ")))
  }

  /** Parsing recovers the parts a modification string was written from: a stream part
      and a parameter without ':', and any value, colons and all. */
  lemma ParseModificationRoundTrip(head: string, parameter: string, value: string)
    requires ':' !in head && ':' !in parameter
    ensures ParseModification(head + ": " + parameter + ": " + value)
      == Some(Modification(StreamNumberOf(head), parameter, value))
  {
    var parts := Split(head + ": " + parameter + ": " + value, ": ");
    SplitTwoHeads(head, parameter, value);
    assert parts[2..] == Split(value, ": ");
    JoinSplit(value, ": ");
  }

  lemma SplitTwoHeads(head: string, parameter: string, value: string)
    requires ':' !in head && ':' !in parameter
    ensures Split(head + ": " + parameter + ": " + value, ": ") == [head, parameter] + Split(value, ": ")
  {
    var rest := parameter + ": " + value;
    assert head + ": " + parameter + ": " + value == head + ": " + rest;
    SplitConsAbsent(head, ": ", rest);
    SplitConsAbsent(parameter, ": ", value);
  }

  /** A string with no ': ' after its first part is not a modification. */
  lemma ParseModificationIgnoresShort(head: string, tail: string)
    requires ':' !in head && !Contains(tail, ": ")
    ensures ParseModification(head) == None
    ensures ParseModification(head + ": " + tail) == None
  {
    AbsentHeadNotContained(head, ": ");
    SplitConsAbsent(head, ": ", tail);
  }

  /** The items `for modification in modifications` walks: a list's items, a
      string's characters, a dictionary's keys; anything else is not iterable. */
  function Iterated(v: Value): Result<seq<Value>, SaveError> {
    match v
    case ListV(items) => Ok(items)
    case StrV(s) => Ok(seq(|s|, k requires 0 <= k < |s| => StrV([s[k]])))
    case DictV(entries) => Ok(seq(|entries|, k requires 0 <= k < |entries| => StrV(entries[k].0)))
    case _ => Err(ModificationsNotIterable)
  }

  /** A row of `modifications` (its fresh `modification_id` left out). */
  datatype ModificationRow = ModificationRow(
    simulationId: string, streamNumber: Option<int>, parameter: string, value: string, status: string)

  /** The rows for the modification strings that parse, in order. */
  function ModificationRows(simulationId: string, items: seq<Value>): seq<ModificationRow>
    decreases |items|
  {
    if items == [] then []
    else
      var rows := ModificationRows(simulationId, items[..|items| - 1]);
      var item := items[|items| - 1];
      if item.StrV? && ParseModification(item.s).Some? then
        var m := ParseModification(item.s).value;
        rows + [ModificationRow(simulationId, m.streamNumber, m.parameter, m.value, "applied")]
      else rows
  }

  /** Each modification row comes from a string item that parses, carries this
      simulation and the status 'applied'; items that are not strings or do not
      parse add nothing. */
  lemma {:induction false} ModificationRowsFacts(simulationId: string, items: seq<Value>)
    ensures |ModificationRows(simulationId, items)| <= |items|
    ensures forall r :: r in ModificationRows(simulationId, items) ==>
      r.simulationId == simulationId && r.status == "applied"
      && exists j :: 0 <= j < |items| && items[j].StrV?
           && ParseModification(items[j].s) == Some(Modification(r.streamNumber, r.parameter, r.value))
    ensures (forall j :: 0 <= j < |items| ==> !(items[j].StrV? && ParseModification(items[j].s).Some?))
      ==> ModificationRows(simulationId, items) == []
    decreases |items|
  {
    if items != [] {
      var init := items[..|items| - 1];
      ModificationRowsFacts(simulationId, init);
      forall r | r in ModificationRows(simulationId, items)
        ensures exists j :: (0 <= j < |items| && items[j].StrV?
           && ParseModification(items[j].s) == Some(Modification(r.streamNumber, r.parameter, r.value)))
      {
        if r in ModificationRows(simulationId, init) {
          var j :| 0 <= j < |init| && init[j].StrV?
            && ParseModification(init[j].s) == Some(Modification(r.streamNumber, r.parameter, r.value));
          assert items[j] == init[j];
        } else {
          assert items[|items| - 1].StrV?;
        }
      }
      if forall j :: 0 <= j < |items| ==> !(items[j].StrV? && ParseModification(items[j].s).Some?) {
        assert forall j :: 0 <= j < |init| ==> init[j] == items[j];
      }
    }
  }

  // ------------------------------------------------------------------
  // The whole save
  // ------------------------------------------------------------------

  /** The three groups of rows one save writes. */
  datatype SavedRows = SavedRows(metadata: MetadataRow, streams: seq<StreamRow>, modifications: seq<ModificationRow>)

  /** What `save_simulation_result` writes, or what it raises. */
  function SaveRows(simulationId: string, data: Entries, now: string,
                    configFile: Option<string>, outputFile: Option<string>): Result<SavedRows, SaveError>
  {
    var allStreams := GetOr(data, "all_streams", DictV([]));
    if !allStreams.DictV? then Err(StreamsWithoutItems)
    else
      var streamRows :- StreamRows(simulationId, allStreams.entries);
      var items :- Iterated(GetOr(data, "modifications_applied", ListV([])));
      Ok(SavedRows(MetadataOf(simulationId, data, now, configFile, outputFile), streamRows,
                   ModificationRows(simulationId, items)))
  }

  /** The simulation results database: the rows of its three tables. */
  class SimulationStore {
    var metadata: seq<MetadataRow>
    var streams: seq<StreamRow>
    var modifications: seq<ModificationRow>

    constructor ()
      ensures metadata == [] && streams == [] && modifications == []
    {
      metadata := [];
      streams := [];
      modifications := [];
    }

    /** `save_simulation_result`: the rows are written and committed together, or, when
        the input is malformed, the error is raised and no table changes. */
    method SaveSimulationResult(simulationId: string, data: Entries, now: string,
                                configFile: Option<string>, outputFile: Option<string>)
      returns (res: Result<string, SaveError>)
      modifies this
      ensures var saved := SaveRows(simulationId, data, now, configFile, outputFile);
        && (saved.Ok? <==> res.Ok?)
        && (saved.Ok? ==>
              && res.value == simulationId
              && metadata == old(metadata) + [saved.value.metadata]
              && streams == old(streams) + saved.value.streams
              && modifications == old(modifications) + saved.value.modifications)
        && (saved.Err? ==>
              && res.error == saved.error
              && metadata == old(metadata) && streams == old(streams)
              && modifications == old(modifications))
    {
      var meta := MetadataOf(simulationId, data, now, configFile, outputFile);
      var allStreams := GetOr(data, "all_streams", DictV([]));
      if !allStreams.DictV? {
        return Err(StreamsWithoutItems);
      }
      var streamRows := InsertStreams(simulationId, allStreams.entries);
      if streamRows.Err? {
        return Err(streamRows.error);
      }
      var items := Iterated(GetOr(data, "modifications_applied", ListV([])));
      if items.Err? {
        return Err(items.error);
      }
      var modRows := InsertModifications(simulationId, items.value);
      metadata := metadata + [meta];
      streams := streams + streamRows.value;
      modifications := modifications + modRows;
      res := Ok(simulationId);
    }
  }

  /** A failure in a prefix of the streams is the failure of the whole walk. */
  lemma {:induction false} StreamRowsErrPrefix(simulationId: string, streams: Entries, i: nat)
    requires i <= |streams| && StreamRows(simulationId, streams[..i]).Err?
    ensures StreamRows(simulationId, streams) == StreamRows(simulationId, streams[..i])
    decreases |streams| - i
  {
    if i < |streams| {
      assert streams[..i + 1][..i] == streams[..i];
      StreamRowsErrPrefix(simulationId, streams, i + 1);
    } else {
      assert streams[..i] == streams;
    }
  }

  /** The loop over `all_streams.items()`. */
  method InsertStreams(simulationId: string, streams: Entries) returns (res: Result<seq<StreamRow>, SaveError>)
    ensures res == StreamRows(simulationId, streams)
  {
    var rows: seq<StreamRow> := [];
    for i := 0 to |streams|
      invariant StreamRows(simulationId, streams[..i]) == Ok(rows)
    {
      assert streams[..i + 1][..i] == streams[..i];
      match streams[i].1
      case DictV(stream) =>
        var row := StreamRowOf(simulationId, stream);
        if row.Err? {
          StreamRowsErrPrefix(simulationId, streams, i + 1);
          return Err(row.error);
        }
        rows := rows + [row.value];
      case _ =>
    }
    assert streams[..|streams|] == streams;
    res := Ok(rows);
  }

  /** The loop over the modifications. */
  method InsertModifications(simulationId: string, items: seq<Value>) returns (rows: seq<ModificationRow>)
    ensures rows == ModificationRows(simulationId, items)
  {
    rows := [];
    for i := 0 to |items|
      invariant rows == ModificationRows(simulationId, items[..i])
    {
      assert items[..i + 1][..i] == items[..i];
      var item := items[i];
      if item.StrV? {
        var parsed := ParseModification(item.s);
        if parsed.Some? {
          var m := parsed.value;
          rows := rows + [ModificationRow(simulationId, m.streamNumber, m.parameter, m.value, "applied")];
        }
      }
    }
    assert items[..|items|] == items;
  }
}
