/** The pure helpers inside the FastAPI backend (backend/server.py): alert counting,
    the WHERE clause of the stream filter, the CSV timestamp remapping, the fallback
    parser for the `key: value` output of the FOP simulation script, and the
    active-stream filter. The database, the clock, the file system and the
    subprocess are parameters. */
module Server {
  import opened Results
  import opened PyStr

  /** Why a request fails. The endpoints modelled here wrap their whole body in
      `except Exception as e: raise HTTPException(status_code=500, detail=str(e))`, so
      every failure reaches the caller as an HTTP 500 whose detail is the text of the
      exception caught there. */
  datatype ServerError = Internal(detail: string)

  /** An `HTTPException(status_code=404, detail=...)` raised inside the `try`: it is
      caught by `except Exception` and re-raised as a 500 reading "404: <detail>". */
  function CaughtNotFound(detail: string): ServerError {
    Internal("404: " + detail)
  }

  /** A `KeyError` caught by `except Exception`: its text is the quoted key. */
  function CaughtKeyError(key: string): ServerError {
    Internal("'" + key + "'")
  }

  // ------------------------------------------------------------------
  // Alert counts
  // ------------------------------------------------------------------

  /** An alert document: its `is_new` flag and `classification`, either possibly
      absent. */
  datatype Alert = Alert(isNew: Option<bool>, classification: Option<string>)

  /** `to_list(1000)` returns at most the first 1000 stored alerts. */
  const FetchLimit: nat := 1000

  function Fetched(stored: seq<Alert>): (r: seq<Alert>)
    ensures |r| <= FetchLimit && r <= stored
    ensures |stored| <= FetchLimit ==> r == stored
  {
    if |stored| <= FetchLimit then stored else stored[..FetchLimit]
  }

  /** `a.get("is_new", True)`. */
  predicate IsNew(a: Alert) {
    a.isNew.GetOr(true)
  }

  /** `a.get("classification") == c`. */
  predicate HasClass(a: Alert, c: string) {
    a.classification == Some(c)
  }

  /** `len([a for a in alerts if p(a)])`. */
  function CountWhere(alerts: seq<Alert>, p: Alert -> bool): nat {
    if alerts == [] then 0 else (if p(alerts[0]) then 1 else 0) + CountWhere(alerts[1..], p)
  }

  datatype AlertCounts = AlertCounts(
    total: nat, newTotal: nat,
    generalInfo: nat, warning: nat, criticalAlert: nat,
    newGeneralInfo: nat, newWarning: nat, newCriticalAlert: nat)

  /** `get_alert_counts` over the stored alerts. */
  function AlertCountsOf(stored: seq<Alert>): AlertCounts {
    var alerts := Fetched(stored);
    AlertCounts(
      |alerts|,
      CountWhere(alerts, a => IsNew(a)),
      CountWhere(alerts, a => HasClass(a, "General Info")),
      CountWhere(alerts, a => HasClass(a, "Warning")),
      CountWhere(alerts, a => HasClass(a, "Critical Alert")),
      CountWhere(alerts, a => IsNew(a) && HasClass(a, "General Info")),
      CountWhere(alerts, a => IsNew(a) && HasClass(a, "Warning")),
      CountWhere(alerts, a => IsNew(a) && HasClass(a, "Critical Alert")))
  }

  /** A filter that admits fewer alerts counts fewer. */
  lemma {:induction false} CountWhereMonotone(alerts: seq<Alert>, p: Alert -> bool, q: Alert -> bool)
    requires forall a :: p(a) ==> q(a)
    ensures CountWhere(alerts, p) <= CountWhere(alerts, q)
  {
    if alerts != [] {
      CountWhereMonotone(alerts[1..], p, q);
    }
  }

  /** Three filters that never hold together count at most what their union
      counts. */
  lemma {:induction false} CountWhereDisjoint(alerts: seq<Alert>, p: Alert -> bool, q: Alert -> bool, s: Alert -> bool, u: Alert -> bool)
    requires forall a :: !(p(a) && q(a)) && !(p(a) && s(a)) && !(q(a) && s(a))
    requires forall a :: (p(a) || q(a) || s(a)) ==> u(a)
    ensures CountWhere(alerts, p) + CountWhere(alerts, q) + CountWhere(alerts, s) <= CountWhere(alerts, u)
  {
    if alerts != [] {
      CountWhereDisjoint(alerts[1..], p, q, s, u);
    }
  }

  lemma {:induction false} CountWhereAll(alerts: seq<Alert>, p: Alert -> bool)
    requires forall k :: 0 <= k < |alerts| ==> p(alerts[k])
    ensures CountWhere(alerts, p) == |alerts|
  {
    if alerts != [] {
      CountWhereAll(alerts[1..], p);
    }
  }

  /** At most 1000 alerts are counted; each `new_<class>` count is at most its
      class count and `new_total` at most `total`; the three class counts, and the
      three new class counts, never exceed `total` and `new_total`. */
  lemma AlertCountsBounded(stored: seq<Alert>)
    ensures var c := AlertCountsOf(stored);
      && c.total <= FetchLimit && (|stored| <= FetchLimit ==> c.total == |stored|)
      && c.newTotal <= c.total
      && c.newGeneralInfo <= c.generalInfo && c.newWarning <= c.warning && c.newCriticalAlert <= c.criticalAlert
      && c.generalInfo + c.warning + c.criticalAlert <= c.total
      && c.newGeneralInfo + c.newWarning + c.newCriticalAlert <= c.newTotal
  {
    var alerts := Fetched(stored);
    CountWhereAll(alerts, a => true);
    CountWhereMonotone(alerts, a => IsNew(a), a => true);
    CountWhereMonotone(alerts, a => IsNew(a) && HasClass(a, "General Info"), a => HasClass(a, "General Info"));
    CountWhereMonotone(alerts, a => IsNew(a) && HasClass(a, "Warning"), a => HasClass(a, "Warning"));
    CountWhereMonotone(alerts, a => IsNew(a) && HasClass(a, "Critical Alert"), a => HasClass(a, "Critical Alert"));
    CountWhereDisjoint(alerts, a => HasClass(a, "General Info"), a => HasClass(a, "Warning"),
                       a => HasClass(a, "Critical Alert"), a => true);
    CountWhereDisjoint(alerts, a => IsNew(a) && HasClass(a, "General Info"), a => IsNew(a) && HasClass(a, "Warning"),
                       a => IsNew(a) && HasClass(a, "Critical Alert"), a => IsNew(a));
  }

  /** An alert without an `is_new` flag counts as new: when no stored alert is
      explicitly marked not new, every counted alert is new. */
  lemma MissingFlagCountsAsNew(stored: seq<Alert>)
    requires forall k :: 0 <= k < |stored| ==> stored[k].isNew != Some(false)
    ensures AlertCountsOf(stored).newTotal == AlertCountsOf(stored).total
  {
    var alerts := Fetched(stored);
    assert forall k :: 0 <= k < |alerts| ==> alerts[k] == stored[k];
    CountWhereAll(alerts, a => IsNew(a));
  }

  // ------------------------------------------------------------------
  // The stream filter's WHERE clause
  // ------------------------------------------------------------------

  /** A value bound to a `?` placeholder. */
  datatype SqlParam = TextParam(text: string) | RealParam(number: real)

  /** The query parameters of `filter_streams`. */
  datatype StreamFilter = StreamFilter(
    minFlow: Option<real>, maxFlow: Option<real>, minTemp: Option<real>, maxTemp: Option<real>,
    activeOnly: bool, simulationId: Option<string>)

  /** A test against a bound parameter: the test followed by ` ?`. */
  function WithPlaceholder(test: string): (r: string)
    ensures |r| == |test| + 2 && r[..|test|] == test && r[|test|..] == " ?"
  {
    test + " ?"
  }

  /** Python truthiness of an optional string. */
  predicate Truthy(s: Option<string>) {
    s.Some? && s.value != ""
  }

  /** The condition list and the parameter list of a query under construction. */
  datatype Query = Query(conditions: seq<string>, params: seq<SqlParam>)

  /** `if value is not None: conditions.append(test + " ?"); params.append(value)`. */
  function AddBound(q: Query, test: string, value: Option<real>): Query {
    if value.Some? then Query(q.conditions + [WithPlaceholder(test)], q.params + [RealParam(value.value)]) else q
  }

  /** The simulation the filter applies to: the requested one, or the latest one
      found in the metadata table. When there is none the 404 raised is caught by the
      endpoint's `except Exception` and becomes a 500. */
  function TargetSimulation(f: StreamFilter, latest: Option<string>): Result<string, ServerError> {
    if Truthy(f.simulationId) then Ok(f.simulationId.value)
    else if latest.None? then Err(CaughtNotFound("No simulations found"))
    else Ok(latest.value)
  }

  /** The first condition and parameter: the simulation. */
  function SimulationQuery(id: string): Query {
    Query([WithPlaceholder("simulation_id =")], [TextParam(id)])
  }

  /** `if active_only: conditions.append("active = 1")`. */
  function AddActive(q: Query, activeOnly: bool): Query {
    if activeOnly then Query(q.conditions + ["active = 1"], q.params) else q
  }

  /** The query for a known simulation, in the order `filter_streams` appends conditions. */
  function BuildQuery(f: StreamFilter, id: string): Query {
    var q1 := AddActive(SimulationQuery(id), f.activeOnly);
    var q2 := AddBound(q1, "mass_flow_mg_s >=", f.minFlow);
    var q3 := AddBound(q2, "mass_flow_mg_s <=", f.maxFlow);
    var q4 := AddBound(q3, "temperature_C >=", f.minTemp);
    AddBound(q4, "temperature_C <=", f.maxTemp)
  }

  /** The query `filter_streams` builds, or the error it raises. */
  function QueryParts(f: StreamFilter, latest: Option<string>): Result<Query, ServerError> {
    match TargetSimulation(f, latest)
    case Err(e) => Err(e)
    case Ok(id) => Ok(BuildQuery(f, id))
  }

  /** `" AND ".join(conditions) if conditions else "1=1"`. */
  function WhereClause(conditions: seq<string>): string {
    if conditions == [] then "1=1" else Join(conditions, " AND ")
  }

  /** The number of occurrences of a character. */
  function CountChar(s: string, c: char): nat {
    if s == [] then 0 else (if s[0] == c then 1 else 0) + CountChar(s[1..], c)
  }

  lemma {:induction false} CountCharAppend(a: string, b: string, c: char)
    ensures CountChar(a + b, c) == CountChar(a, c) + CountChar(b, c)
  {
    if a == [] {
      assert a + b == b;
    } else {
      assert (a + b)[0] == a[0] && (a + b)[1..] == a[1..] + b;
      CountCharAppend(a[1..], b, c);
    }
  }

  lemma {:induction false} CountCharAbsent(s: string, c: char)
    requires c !in s
    ensures CountChar(s, c) == 0
  {
    if s != [] {
      assert s == [s[0]] + s[1..];
      CountCharAbsent(s[1..], c);
    }
  }

  /** The placeholders over all conditions. */
  function Placeholders(conditions: seq<string>): nat {
    if conditions == [] then 0 else CountChar(conditions[0], '?') + Placeholders(conditions[1..])
  }

  lemma {:induction false} PlaceholdersAppend(a: seq<string>, b: seq<string>)
    ensures Placeholders(a + b) == Placeholders(a) + Placeholders(b)
  {
    if a == [] {
      assert a + b == b;
    } else {
      assert (a + b)[0] == a[0] && (a + b)[1..] == a[1..] + b;
      PlaceholdersAppend(a[1..], b);
    }
  }

  /** Joining with a separator free of `?` keeps the placeholder count. */
  lemma {:induction false} JoinPlaceholders(parts: seq<string>, sep: string)
    requires CountChar(sep, '?') == 0
    ensures CountChar(Join(parts, sep), '?') == Placeholders(parts)
  {
    if |parts| > 1 {
      JoinPlaceholders(parts[1..], sep);
      CountCharAppend(parts[0] + sep, Join(parts[1..], sep), '?');
      CountCharAppend(parts[0], sep, '?');
    }
  }

  /** A test followed by a placeholder holds one `?` when the test holds none. */
  lemma BoundCondition(test: string)
    requires '?' !in test
    ensures CountChar(WithPlaceholder(test), '?') == 1
  {
    CountCharAbsent(test, '?');
    CountCharAppend(test, " ?", '?');
  }

  /** Each `?` of the conditions has its parameter. */
  predicate Balanced(q: Query) {
    Placeholders(q.conditions) == |q.params|
  }

  /** A test without a `?` of its own keeps the query balanced; the earlier
      conditions stay in front, and a condition not ending in `?` is present
      afterwards exactly when it was before. */
  lemma AddBoundFacts(q: Query, test: string, value: Option<real>, s: string)
    requires '?' !in test
    requires s == [] || s[|s| - 1] != '?'
    ensures var r := AddBound(q, test, value);
      && (Balanced(q) ==> Balanced(r))
      && |q.conditions| <= |r.conditions| && r.conditions[..|q.conditions|] == q.conditions
      && (s in r.conditions <==> s in q.conditions)
  {
    if value.Some? {
      var w := WithPlaceholder(test);
      BoundCondition(test);
      PlaceholdersAppend(q.conditions, [w]);
      assert Placeholders([w]) == CountChar(w, '?') + Placeholders([]);
      assert w[|w| - 1] == '?';
    }
  }

  /** The simulation query is balanced and its only condition ends in `?`. */
  lemma SimulationQueryFacts(id: string)
    ensures Balanced(SimulationQuery(id))
    ensures "active = 1" !in SimulationQuery(id).conditions
  {
    var w := WithPlaceholder("simulation_id =");
    BoundCondition("simulation_id =");
    assert SimulationQuery(id).conditions == [w];
    assert Placeholders([w]) == CountChar(w, '?') + Placeholders([]);
    assert w[|w| - 1] == '?' != "active = 1"[9];
  }

  /** Appending `active = 1` keeps the query balanced and adds it exactly when asked. */
  lemma AddActiveFacts(q: Query, activeOnly: bool)
    requires "active = 1" !in q.conditions
    ensures var r := AddActive(q, activeOnly);
      && (Balanced(q) ==> Balanced(r))
      && |q.conditions| <= |r.conditions| && r.conditions[..|q.conditions|] == q.conditions
      && ("active = 1" in r.conditions <==> activeOnly)
  {
    if activeOnly {
      CountCharAbsent("active = 1", '?');
      PlaceholdersAppend(q.conditions, ["active = 1"]);
      assert Placeholders(["active = 1"]) == CountChar("active = 1", '?') + Placeholders([]);
    }
  }

  /** The query for a known simulation is balanced, starts with the simulation
      condition and holds `active = 1` exactly when asked. */
  lemma BuildQueryFacts(f: StreamFilter, id: string)
    ensures var q := BuildQuery(f, id);
      && Balanced(q) && q.conditions != [] && q.conditions[0] == WithPlaceholder("simulation_id =")
      && ("active = 1" in q.conditions <==> f.activeOnly)
  {
    var a := "active = 1";
    var q0 := SimulationQuery(id);
    SimulationQueryFacts(id);
    var q1 := AddActive(q0, f.activeOnly);
    AddActiveFacts(q0, f.activeOnly);
    var q2 := AddBound(q1, "mass_flow_mg_s >=", f.minFlow);
    AddBoundFacts(q1, "mass_flow_mg_s >=", f.minFlow, a);
    var q3 := AddBound(q2, "mass_flow_mg_s <=", f.maxFlow);
    AddBoundFacts(q2, "mass_flow_mg_s <=", f.maxFlow, a);
    var q4 := AddBound(q3, "temperature_C >=", f.minTemp);
    AddBoundFacts(q3, "temperature_C >=", f.minTemp, a);
    AddBoundFacts(q4, "temperature_C <=", f.maxTemp, a);
  }

  /** The WHERE clause has exactly one `?` per parameter; it always constrains the
      simulation first, the conditions are joined with " AND ", and `active = 1`
      appears exactly when only active streams are asked for. The request fails
      exactly when no simulation is given and none is stored. */
  lemma PlaceholdersMatchParams(f: StreamFilter, latest: Option<string>)
    ensures QueryParts(f, latest).Err? <==> !Truthy(f.simulationId) && latest.None?
    ensures QueryParts(f, latest).Err? ==> QueryParts(f, latest).error == Internal("404: No simulations found")
    ensures QueryParts(f, latest).Ok? ==>
      var q := QueryParts(f, latest).value;
      && CountChar(WhereClause(q.conditions), '?') == |q.params|
      && WhereClause(q.conditions) == Join(q.conditions, " AND ")
      && q.conditions[0] == WithPlaceholder("simulation_id =")
      && ("active = 1" in q.conditions <==> f.activeOnly)
  {
    if QueryParts(f, latest).Ok? {
      var q := BuildQuery(f, TargetSimulation(f, latest).value);
      BuildQueryFacts(f, TargetSimulation(f, latest).value);
      CountCharAbsent(" AND ", '?');
      JoinPlaceholders(q.conditions, " AND ");
    }
  }

  // ------------------------------------------------------------------
  // CSV timestamp remapping
  // ------------------------------------------------------------------

  /** A CSV row read by `csv.DictReader`: column name to text. */
  type Row = map<string, string>

  /** Python's `<` on strings: lexicographic by code point, a proper prefix first. */
  predicate StrLess(a: string, b: string) {
    if a == [] then b != []
    else if b == [] then false
    else if a[0] != b[0] then a[0] < b[0]
    else StrLess(a[1..], b[1..])
  }

  lemma {:induction false} StrLessIrreflexive(a: string)
    ensures !StrLess(a, a)
  {
    if a != [] {
      StrLessIrreflexive(a[1..]);
    }
  }

  lemma {:induction false} StrLessTransitive(a: string, b: string, c: string)
    requires StrLess(a, b) && StrLess(b, c)
    ensures StrLess(a, c)
  {
    if a != [] && a[0] == b[0] && b[0] == c[0] {
      StrLessTransitive(a[1..], b[1..], c[1..]);
    }
  }

  lemma {:induction false} StrLessTotal(a: string, b: string)
    requires a != b
    ensures StrLess(a, b) || StrLess(b, a)
  {
    if a != [] && b != [] && a[0] == b[0] {
      assert a == [a[0]] + a[1..] && b == [b[0]] + b[1..];
      StrLessTotal(a[1..], b[1..]);
    }
  }

  predicate StrictlySorted(s: seq<string>) {
    forall i, j :: 0 <= i < j < |s| ==> StrLess(s[i], s[j])
  }

  /** Inserts `x` into a strictly sorted list unless it is already there. */
  function Insert(x: string, s: seq<string>): (r: seq<string>)
    requires StrictlySorted(s)
    ensures StrictlySorted(r)
    ensures forall y :: y in r <==> y == x || y in s
  {
    if s == [] then [x]
    else if x == s[0] then s
    else if StrLess(x, s[0]) then
      assert forall j :: 0 < j < |s| ==> StrLess(x, s[j]) by {
        forall j | 0 < j < |s| {
          StrLessTransitive(x, s[0], s[j]);
        }
      }
      [x] + s
    else
      StrLessTotal(x, s[0]);
      var t := Insert(x, s[1..]);
      assert forall y :: y in t ==> StrLess(s[0], y);
      [s[0]] + t
  }

  /** `sorted(set(s))`: the distinct elements of `s` in increasing order. */
  function SortedUnique(s: seq<string>): (r: seq<string>)
    ensures StrictlySorted(r)
    ensures forall y :: y in r <==> y in s
  {
    if s == [] then []
    else
      var r := Insert(s[|s| - 1], SortedUnique(s[..|s| - 1]));
      assert s == s[..|s| - 1] + [s[|s| - 1]];
      r
  }

  /** A strictly sorted list is determined by its elements: `SortedUnique` is the
      only strictly sorted list of the distinct elements, whatever the order of `s`. */
  lemma {:induction false} SortedDeterminedByElements(a: seq<string>, b: seq<string>)
    requires StrictlySorted(a) && StrictlySorted(b)
    requires forall y :: y in a <==> y in b
    ensures a == b
  {
    if b != [] {
      assert b[0] in a;
    }
    if a != [] {
      assert a[0] in b;
      if a[0] != b[0] {
        SortedHeadIsMin(b, a[0]);
        SortedHeadIsMin(a, b[0]);
        StrLessTransitive(a[0], b[0], a[0]);
        StrLessIrreflexive(a[0]);
      }
      forall y
        ensures y in a[1..] <==> y in b[1..]
      {
        HeadNotInTail(a, y);
        HeadNotInTail(b, y);
      }
      SortedDeterminedByElements(a[1..], b[1..]);
      assert a == [a[0]] + a[1..] && b == [b[0]] + b[1..];
    }
  }

  /** The head of a strictly sorted list is below every other element. */
  lemma SortedHeadIsMin(s: seq<string>, y: string)
    requires StrictlySorted(s) && y in s && y != s[0]
    ensures StrLess(s[0], y)
  {
    var j :| 0 <= j < |s| && s[j] == y;
  }

  /** In a strictly sorted list, the tail holds every element except the head. */
  lemma HeadNotInTail(s: seq<string>, y: string)
    requires StrictlySorted(s) && s != []
    ensures y in s[1..] <==> y in s && y != s[0]
  {
    assert s == [s[0]] + s[1..];
    if y in s[1..] && y == s[0] {
      var j :| 0 <= j < |s[1..]| && s[1..][j] == y;
      assert StrLess(s[0], s[j + 1]);
      StrLessIrreflexive(y);
    }
  }

  /** The position of `t` in `s`: `s.index(t)`. */
  function IndexOf(s: seq<string>, t: string): (i: nat)
    requires t in s
    ensures i < |s| && s[i] == t
    ensures forall j :: 0 <= j < i ==> s[j] != t
  {
    if s[0] == t then 0 else 1 + IndexOf(s[1..], t)
  }

  lemma SortedDistinct(s: seq<string>)
    requires StrictlySorted(s)
    ensures forall i, j :: 0 <= i < j < |s| ==> s[i] != s[j]
  {
    forall i, j | 0 <= i < j < |s|
      ensures s[i] != s[j]
    {
      StrLessIrreflexive(s[i]);
    }
  }

  /** In a strictly sorted list each element sits at its own position only. */
  lemma IndexOfSorted(s: seq<string>, i: nat)
    requires StrictlySorted(s) && i < |s|
    ensures IndexOf(s, s[i]) == i
  {
    var k := IndexOf(s, s[i]);
    if k < i {
      assert StrLess(s[k], s[i]);
      StrLessIrreflexive(s[i]);
    }
  }

  /** The hour (counted from the epoch) each distinct old timestamp is moved to:
      the newest to the current hour, each earlier one an hour before the next. */
  function HourMapping(timestamps: seq<string>, nowHour: int): map<string, int> {
    map t | t in timestamps :: nowHour - (|timestamps| - 1 - IndexOf(timestamps, t))
  }

  /** `timestamp_mapping`: each old timestamp to the rendering of its new hour. */
  function TimestampMapping(timestamps: seq<string>, nowHour: int, format: int -> string): map<string, string> {
    var hours := HourMapping(timestamps, nowHour);
    map t | t in hours :: format(hours[t])
  }

  lemma TimestampMappingAt(timestamps: seq<string>, nowHour: int, format: int -> string)
    ensures var m := TimestampMapping(timestamps, nowHour, format);
      && (forall t :: t in m <==> t in timestamps)
      && (forall t :: t in m ==> m[t] == format(nowHour - (|timestamps| - 1 - IndexOf(timestamps, t))))
  {
  }

  lemma SameMapping(m: map<string, string>, timestamps: seq<string>, nowHour: int, format: int -> string)
    requires forall t :: t in m <==> t in timestamps
    requires forall t :: t in m ==> m[t] == format(nowHour - (|timestamps| - 1 - IndexOf(timestamps, t)))
    ensures m == TimestampMapping(timestamps, nowHour, format)
  {
    TimestampMappingAt(timestamps, nowHour, format);
  }

  /** Over the sorted distinct timestamps the mapping keeps the order, puts the
      newest at the current hour, spaces consecutive ones one hour apart and
      stays within the last `|timestamps|` hours. */
  lemma HourMappingFacts(timestamps: seq<string>, nowHour: int)
    requires StrictlySorted(timestamps)
    ensures var m := HourMapping(timestamps, nowHour);
      && (forall t :: t in m <==> t in timestamps)
      && (forall t :: t in m ==> nowHour - |timestamps| < m[t] <= nowHour)
      && (|timestamps| > 0 ==> m[timestamps[|timestamps| - 1]] == nowHour)
      && (forall i :: 0 <= i < |timestamps| - 1 ==> m[timestamps[i + 1]] == m[timestamps[i]] + 1)
      && (forall a, b :: a in m && b in m ==> (StrLess(a, b) <==> m[a] < m[b]))
  {
    var m := HourMapping(timestamps, nowHour);
    forall i | 0 <= i < |timestamps|
      ensures m[timestamps[i]] == nowHour - (|timestamps| - 1 - i)
    {
      IndexOfSorted(timestamps, i);
    }
    forall a, b | a in m && b in m
      ensures StrLess(a, b) <==> m[a] < m[b]
    {
      var i, j := IndexOf(timestamps, a), IndexOf(timestamps, b);
      if i == j {
        StrLessIrreflexive(a);
      } else if i < j {
        if StrLess(b, a) {
          StrLessTransitive(a, b, a);
          StrLessIrreflexive(a);
        }
      } else {
        if StrLess(a, b) {
          assert StrLess(b, a);
          StrLessTransitive(a, b, a);
          StrLessIrreflexive(a);
        }
      }
    }
  }

  /** The `timestamp` column of every row, in row order. */
  function RowTimestamps(rows: seq<Row>): (r: seq<string>)
    requires forall k :: 0 <= k < |rows| ==> "timestamp" in rows[k]
    ensures |r| == |rows| && forall k :: 0 <= k < |rows| ==> r[k] == rows[k]["timestamp"]
  {
    if rows == [] then [] else RowTimestamps(rows[..|rows| - 1]) + [rows[|rows| - 1]["timestamp"]]
  }

  /** `row.copy()` with its `timestamp` replaced through the mapping. */
  function RemapRow(row: Row, mapping: map<string, string>): Row {
    if "timestamp" in row && row["timestamp"] in mapping then row["timestamp" := mapping[row["timestamp"]]] else row
  }

  function RemapRows(rows: seq<Row>, mapping: map<string, string>): (r: seq<Row>)
    ensures |r| == |rows| && forall k :: 0 <= k < |rows| ==> r[k] == RemapRow(rows[k], mapping)
  {
    if rows == [] then [] else RemapRows(rows[..|rows| - 1], mapping) + [RemapRow(rows[|rows| - 1], mapping)]
  }

  /** `update_csv_timestamps` on the rows read from the file, the current hour and
      the rendering of an hour as ISO 8601 text. A row without a `timestamp`
      column raises a `KeyError`. */
  function UpdatedRows(rows: seq<Row>, nowHour: int, format: int -> string): Result<seq<Row>, ServerError> {
    if exists k :: 0 <= k < |rows| && "timestamp" !in rows[k] then Err(CaughtKeyError("timestamp"))
    else Ok(RemapRows(rows, TimestampMapping(SortedUnique(RowTimestamps(rows)), nowHour, format)))
  }

  /** The generator `row['timestamp'] for row in data`. */
  method CollectTimestamps(rows: seq<Row>) returns (res: Result<seq<string>, ServerError>)
    ensures res.Err? <==> exists k :: 0 <= k < |rows| && "timestamp" !in rows[k]
    ensures res.Err? ==> res.error == CaughtKeyError("timestamp")
    ensures res.Ok? ==> res.value == RowTimestamps(rows)
  {
    var collected: seq<string> := [];
    for k := 0 to |rows|
      invariant forall j :: 0 <= j < k ==> "timestamp" in rows[j]
      invariant collected == RowTimestamps(rows[..k])
    {
      if "timestamp" !in rows[k] {
        return Err(CaughtKeyError("timestamp"));
      }
      assert rows[..k + 1][..k] == rows[..k];
      collected := collected + [rows[k]["timestamp"]];
    }
    assert rows[..|rows|] == rows;
    res := Ok(collected);
  }

  /** The loop over `enumerate(timestamps)` that fills `timestamp_mapping`. */
  method BuildTimestampMapping(timestamps: seq<string>, nowHour: int, format: int -> string)
    returns (mapping: map<string, string>)
    requires StrictlySorted(timestamps)
    ensures mapping == TimestampMapping(timestamps, nowHour, format)
  {
    var n := |timestamps|;
    SortedDistinct(timestamps);
    mapping := map[];
    for i := 0 to n
      invariant forall t :: t in mapping <==> t in timestamps[..i]
      invariant forall j :: 0 <= j < i ==> timestamps[j] in mapping && mapping[timestamps[j]] == format(nowHour - (n - 1 - j))
    {
      var hoursBack := n - 1 - i;
      mapping := mapping[timestamps[i] := format(nowHour - hoursBack)];
      assert timestamps[..i + 1] == timestamps[..i] + [timestamps[i]];
    }
    assert timestamps[..n] == timestamps;
    LoopMapping(mapping, timestamps, nowHour, format);
  }

  /** The map the loop leaves, one entry per timestamp, is the mapping. */
  lemma LoopMapping(m: map<string, string>, timestamps: seq<string>, nowHour: int, format: int -> string)
    requires forall t :: t in m <==> t in timestamps
    requires forall j :: 0 <= j < |timestamps| ==>
      timestamps[j] in m && m[timestamps[j]] == format(nowHour - (|timestamps| - 1 - j))
    ensures m == TimestampMapping(timestamps, nowHour, format)
  {
    forall t | t in m
      ensures m[t] == format(nowHour - (|timestamps| - 1 - IndexOf(timestamps, t)))
    {
      assert timestamps[IndexOf(timestamps, t)] == t;
    }
    SameMapping(m, timestamps, nowHour, format);
  }

  /** The loop that copies every row with its new timestamp. */
  method RewriteRows(rows: seq<Row>, mapping: map<string, string>) returns (updated: seq<Row>)
    requires forall k :: 0 <= k < |rows| ==> "timestamp" in rows[k] && rows[k]["timestamp"] in mapping
    ensures updated == RemapRows(rows, mapping)
  {
    updated := [];
    for k := 0 to |rows|
      invariant updated == RemapRows(rows[..k], mapping)
    {
      var updatedRow := rows[k]["timestamp" := mapping[rows[k]["timestamp"]]];
      assert rows[..k + 1][..k] == rows[..k];
      updated := updated + [updatedRow];
    }
    assert rows[..|rows|] == rows;
  }

  /** `update_csv_timestamps` without the file I/O. */
  method UpdateCsvTimestamps(rows: seq<Row>, nowHour: int, format: int -> string)
    returns (res: Result<seq<Row>, ServerError>)
    ensures res == UpdatedRows(rows, nowHour, format)
  {
    var collected := CollectTimestamps(rows);
    if collected.Err? {
      return Err(collected.error);
    }
    var timestamps := SortedUnique(collected.value);
    var mapping := BuildTimestampMapping(timestamps, nowHour, format);
    forall k | 0 <= k < |rows|
      ensures rows[k]["timestamp"] in mapping
    {
      assert collected.value[k] == rows[k]["timestamp"];
    }
    var updated := RewriteRows(rows, mapping);
    res := Ok(updated);
  }

  /** The rewrite fails exactly when a row has no `timestamp`; otherwise every row
      keeps its other columns and gets the rendering of its new hour, rows are
      neither added, dropped nor reordered, the new hours keep the order of the old
      timestamps (equal old ones get equal new ones), and the newest old timestamp
      lands on the current hour, the others within the preceding hours. */
  lemma UpdatedRowsFacts(rows: seq<Row>, nowHour: int, format: int -> string)
    ensures UpdatedRows(rows, nowHour, format).Err? <==> exists k :: 0 <= k < |rows| && "timestamp" !in rows[k]
    ensures UpdatedRows(rows, nowHour, format).Ok? ==>
      var out := UpdatedRows(rows, nowHour, format).value;
      var hours := HourMapping(SortedUnique(RowTimestamps(rows)), nowHour);
      && |out| == |rows|
      && (forall k :: 0 <= k < |rows| ==>
            rows[k]["timestamp"] in hours
            && out[k] == rows[k]["timestamp" := format(hours[rows[k]["timestamp"]])]
            && nowHour - |rows| < hours[rows[k]["timestamp"]] <= nowHour)
      && (forall k, l :: 0 <= k < |rows| && 0 <= l < |rows| ==>
            (StrLess(rows[k]["timestamp"], rows[l]["timestamp"]) <==> hours[rows[k]["timestamp"]] < hours[rows[l]["timestamp"]]))
      && (|rows| > 0 ==> exists k :: 0 <= k < |rows| && hours[rows[k]["timestamp"]] == nowHour)
  {
    if UpdatedRows(rows, nowHour, format).Ok? {
      var ts := RowTimestamps(rows);
      var sorted := SortedUnique(ts);
      var hours := HourMapping(sorted, nowHour);
      HourMappingFacts(sorted, nowHour);
      DistinctAtMost(sorted, ts);
      TimestampMappingAt(sorted, nowHour, format);
      forall k | 0 <= k < |rows|
        ensures rows[k]["timestamp"] in hours
      {
        assert ts[k] == rows[k]["timestamp"];
      }
      if |rows| > 0 {
        var newest := sorted[|sorted| - 1];
        assert newest in ts;
        var k :| 0 <= k < |rows| && ts[k] == newest;
        assert hours[rows[k]["timestamp"]] == nowHour;
      }
    }
  }

  /** A list without repeats drawn from `s` is no longer than `s`. */
  lemma {:induction false} DistinctAtMost(d: seq<string>, s: seq<string>)
    requires StrictlySorted(d)
    requires forall y :: y in d ==> y in s
    ensures |d| <= |s|
    decreases |s|
  {
    if d != [] {
      var x := d[|d| - 1];
      assert x in d;
      var j :| 0 <= j < |s| && s[j] == x;
      var rest := s[..j] + s[j + 1..];
      var init := d[..|d| - 1];
      SortedDistinct(d);
      forall y | y in init
        ensures y in rest
      {
        var i :| 0 <= i < |init| && init[i] == y;
        assert y != x;
        assert y in s;
        var m :| 0 <= m < |s| && s[m] == y;
        if m < j {
          assert rest[m] == y;
        } else {
          assert rest[m - 1] == y;
        }
      }
      DistinctAtMost(init, rest);
    }
  }

  // ------------------------------------------------------------------
  // Fallback parser for the FOP script output
  // ------------------------------------------------------------------

  /** A parsed value: a float when `float(value)` succeeds, the text otherwise. */
  datatype FopValue = Number(number: real) | Text(text: string)

  /** `s.replace(a, b)` for single characters. */
  function ReplaceChar(s: string, a: char, b: char): (r: string)
    ensures |r| == |s|
    ensures forall i :: 0 <= i < |s| ==> r[i] == (if s[i] == a then b else s[i])
  {
    seq(|s|, i requires 0 <= i < |s| => if s[i] == a then b else s[i])
  }

  /** `key.strip().lower().replace(' ', '_')`. */
  function NormalizeKey(key: string): string {
    ReplaceChar(Lower(Strip(key)), ' ', '_')
  }

  /** `line.split(':', 1)` when `':' in line`: the text before the first `:` and the
      text after it; `None` when the line has no `:`. */
  function SplitAtColon(line: string): Option<(string, string)> {
    if line == [] then None
    else if line[0] == ':' then Some(([], line[1..]))
    else match SplitAtColon(line[1..])
      case None => None
      case Some(kv) => Some(([line[0]] + kv.0, kv.1))
  }

  /** The split happens exactly at the first `:`. */
  lemma {:induction false} SplitAtColonFacts(line: string)
    ensures SplitAtColon(line).Some? <==> ':' in line
    ensures SplitAtColon(line).Some? ==>
      var (key, value) := SplitAtColon(line).value;
      line == key + ":" + value && ':' !in key
  {
    if line != [] {
      assert line == [line[0]] + line[1..];
      SplitAtColonFacts(line[1..]);
      if line[0] != ':' && SplitAtColon(line[1..]).Some? {
        var (key, value) := SplitAtColon(line[1..]).value;
        assert [line[0]] + key + ":" + value == [line[0]] + (key + ":" + value);
      }
    }
  }

  /** A stripped value, as `float(value)` would read it or as text. */
  function ToFopValue(value: string, parseFloat: string -> Option<real>): FopValue {
    match parseFloat(value)
    case Some(x) => Number(x)
    case None => Text(value)
  }

  /** One line: `None` without a `:`, otherwise the normalised text before the first
      `:` and the stripped text after it, converted by `parseFloat` (Python's
      `float`) when it accepts it. */
  function ParseLine(line: string, parseFloat: string -> Option<real>): Option<(string, FopValue)> {
    match SplitAtColon(line)
    case None => None
    case Some(kv) => Some((NormalizeKey(kv.0), ToFopValue(Strip(kv.1), parseFloat)))
  }

  /** A line is parsed exactly when it holds a `:`; the key is the normalised text
      before its first `:`, and holds neither a `:` nor a space. */
  lemma ParseLineFacts(line: string, parseFloat: string -> Option<real>)
    ensures ParseLine(line, parseFloat).Some? <==> ':' in line
    ensures ParseLine(line, parseFloat).Some? ==>
      exists key, value :: line == key + ":" + value && ':' !in key
        && ParseLine(line, parseFloat).value == (NormalizeKey(key), ToFopValue(Strip(value), parseFloat))
    ensures ParseLine(line, parseFloat).Some? ==> ' ' !in ParseLine(line, parseFloat).value.0
  {
    SplitAtColonFacts(line);
    if SplitAtColon(line).Some? {
      var (key, value) := SplitAtColon(line).value;
      var k := NormalizeKey(key);
      assert forall i :: 0 <= i < |k| ==> k[i] != ' ';
      assert line == key + ":" + value && ':' !in key;
    }
  }

  /** `parsed_results` after the lines, in order. */
  function ParseLines(lines: seq<string>, parseFloat: string -> Option<real>): map<string, FopValue> {
    if lines == [] then map[]
    else
      var m := ParseLines(lines[..|lines| - 1], parseFloat);
      match ParseLine(lines[|lines| - 1], parseFloat)
      case None => m
      case Some(kv) => m[kv.0 := kv.1]
  }

  /** The JSON-decoding fallback of `run_fop_simulation` on the script's stdout. */
  method ParseFopOutput(stdout: string, parseFloat: string -> Option<real>) returns (parsed: map<string, FopValue>)
    ensures parsed == ParseLines(Split(Strip(stdout), "\n"), parseFloat)
  {
    var lines := Split(Strip(stdout), "\n");
    parsed := map[];
    for i := 0 to |lines|
      invariant parsed == ParseLines(lines[..i], parseFloat)
    {
      var line := lines[i];
      assert lines[..i + 1][..i] == lines[..i];
      match SplitAtColon(line)
      case None =>
      case Some((key, value)) =>
        parsed := parsed[NormalizeKey(key) := ToFopValue(Strip(value), parseFloat)];
    }
    assert lines[..|lines|] == lines;
  }

  /** The lines that hold a `:`. */
  function WithColon(lines: seq<string>): (r: seq<string>)
    ensures forall k :: 0 <= k < |r| ==> ':' in r[k]
  {
    if lines == [] then []
    else if ':' in lines[|lines| - 1] then WithColon(lines[..|lines| - 1]) + [lines[|lines| - 1]]
    else WithColon(lines[..|lines| - 1])
  }

  /** Lines without a `:` are ignored. */
  lemma {:induction false} ColonlessLinesIgnored(lines: seq<string>, parseFloat: string -> Option<real>)
    ensures ParseLines(lines, parseFloat) == ParseLines(WithColon(lines), parseFloat)
  {
    if lines != [] {
      var init, last := lines[..|lines| - 1], lines[|lines| - 1];
      ColonlessLinesIgnored(init, parseFloat);
      SplitAtColonFacts(last);
      if ':' in last {
        var w := WithColon(init) + [last];
        assert w[..|w| - 1] == WithColon(init);
      }
    }
  }

  /** The key a line contributes, if any. */
  function LineKey(line: string, parseFloat: string -> Option<real>): Option<string> {
    match ParseLine(line, parseFloat)
    case None => None
    case Some(kv) => Some(kv.0)
  }

  /** The last line to which `keyOf` gives key `k`, if any. */
  function LastLineFor(lines: seq<string>, k: string, keyOf: string -> Option<string>): (r: Option<nat>)
    ensures r.Some? ==> r.value < |lines| && keyOf(lines[r.value]) == Some(k)
    ensures r.Some? ==> forall j :: r.value < j < |lines| ==> keyOf(lines[j]) != Some(k)
    ensures r.None? ==> forall j :: 0 <= j < |lines| ==> keyOf(lines[j]) != Some(k)
  {
    if lines == [] then None
    else if keyOf(lines[|lines| - 1]) == Some(k) then Some(|lines| - 1)
    else LastLineFor(lines[..|lines| - 1], k, keyOf)
  }

  /** A key is parsed exactly when some line yields it, and its value is the one
      from the last such line: later duplicates overwrite earlier ones. */
  lemma {:induction false} LastDuplicateWins(lines: seq<string>, parseFloat: string -> Option<real>, k: string)
    ensures k in ParseLines(lines, parseFloat) <==> LastLineFor(lines, k, l => LineKey(l, parseFloat)).Some?
    ensures k in ParseLines(lines, parseFloat) ==>
      ParseLines(lines, parseFloat)[k] == ParseLine(lines[LastLineFor(lines, k, l => LineKey(l, parseFloat)).value], parseFloat).value.1
  {
    if lines != [] {
      var n := |lines| - 1;
      var init := lines[..n];
      var keyOf := l => LineKey(l, parseFloat);
      LastDuplicateWins(init, parseFloat, k);
      if LineKey(lines[n], parseFloat) != Some(k) {
        var last := LastLineFor(init, k, keyOf);
        assert LastLineFor(lines, k, keyOf) == last;
        if last.Some? {
          assert init[last.value] == lines[last.value];
        }
      }
    }
  }

  // ------------------------------------------------------------------
  // Active streams
  // ------------------------------------------------------------------

  /** The stored density, or the `'infinite'` placeholder for a missing one. */
  datatype Density = Finite(kgM3: real) | Infinite

  /** A stored stream: its `active` flag, its density (possibly NULL) and the rest
      of its columns. */
  datatype StreamRecord = StreamRecord(active: bool, density: Option<real>, columns: Row)

  /** A stream as returned, with the density made JSON-compliant. */
  datatype CleanStream = CleanStream(active: bool, density: Density, columns: Row)

  /** `stream_clean`: a copy whose missing density reads `'infinite'`. */
  function Clean(s: StreamRecord): CleanStream {
    CleanStream(s.active, if s.density.None? then Infinite else Finite(s.density.value), s.columns)
  }

  /** The streams of the requested simulation, or of the latest one when none is
      named. When it does not exist the 404 raised is caught by the endpoint's
      `except Exception` and becomes a 500. */
  function SelectedStreams(simulationId: Option<string>, latest: Option<seq<StreamRecord>>,
                           byId: map<string, seq<StreamRecord>>): Result<seq<StreamRecord>, ServerError>
  {
    if !Truthy(simulationId) then
      if latest.None? then Err(CaughtNotFound("No simulations found")) else Ok(latest.value)
    else if simulationId.value !in byId then Err(CaughtNotFound("Simulation " + simulationId.value + " not found"))
    else Ok(byId[simulationId.value])
  }

  /** A missing simulation does not answer 404: the caller gets a 500 whose detail
      is the text of the caught 404. */
  lemma SelectedStreamsFails(simulationId: Option<string>, latest: Option<seq<StreamRecord>>,
                             byId: map<string, seq<StreamRecord>>)
    ensures SelectedStreams(simulationId, latest, byId).Err? <==>
      (!Truthy(simulationId) && latest.None?) || (Truthy(simulationId) && simulationId.value !in byId)
    ensures !Truthy(simulationId) && latest.None? ==>
      SelectedStreams(simulationId, latest, byId) == Err(Internal("404: No simulations found"))
    ensures Truthy(simulationId) && simulationId.value !in byId ==>
      SelectedStreams(simulationId, latest, byId) == Err(Internal("404: Simulation " + simulationId.value + " not found"))
  {
    assert "404: " + "No simulations found" == "404: No simulations found";
    if Truthy(simulationId) {
      var id := simulationId.value;
      assert "404: " + ("Simulation " + id + " not found") == "404: Simulation " + id + " not found";
    }
  }

  /** The active streams, cleaned, in stored order. */
  function ActiveOf(streams: seq<StreamRecord>): seq<CleanStream> {
    if streams == [] then []
    else
      var rest := ActiveOf(streams[..|streams| - 1]);
      var s := streams[|streams| - 1];
      if s.active then rest + [Clean(s)] else rest
  }

  /** The loop of `get_active_streams`; the response also carries `len(active_streams)`. */
  method GetActiveStreams(simulationId: Option<string>, latest: Option<seq<StreamRecord>>,
                          byId: map<string, seq<StreamRecord>>)
    returns (res: Result<(seq<CleanStream>, nat), ServerError>)
    ensures res.Err? <==> SelectedStreams(simulationId, latest, byId).Err?
    ensures res.Err? ==> res.error == SelectedStreams(simulationId, latest, byId).error
    ensures res.Ok? ==> res.value.0 == ActiveOf(SelectedStreams(simulationId, latest, byId).value)
                        && res.value.1 == |res.value.0|
  {
    var selected := SelectedStreams(simulationId, latest, byId);
    if selected.Err? {
      return Err(selected.error);
    }
    var streams := selected.value;
    var active: seq<CleanStream> := [];
    for i := 0 to |streams|
      invariant active == ActiveOf(streams[..i])
    {
      assert streams[..i + 1][..i] == streams[..i];
      if streams[i].active {
        var density := if streams[i].density.None? then Infinite else Finite(streams[i].density.value);
        active := active + [CleanStream(streams[i].active, density, streams[i].columns)];
      }
    }
    assert streams[..|streams|] == streams;
    res := Ok((active, |active|));
  }

  /** The number of active streams. */
  function CountActive(streams: seq<StreamRecord>): nat {
    if streams == [] then 0 else (if streams[0].active then 1 else 0) + CountActive(streams[1..])
  }

  /** Exactly the active streams are returned, one per active stream, each active,
      with its own columns, and `'infinite'` exactly where the density is missing;
      a stream is returned when and only when it is active. */
  lemma {:induction false} ActiveOfFacts(streams: seq<StreamRecord>)
    ensures |ActiveOf(streams)| == CountActive(streams)
    ensures forall c :: c in ActiveOf(streams) <==> exists s :: s in streams && s.active && c == Clean(s)
    ensures forall c :: c in ActiveOf(streams) ==> c.active && (c.density.Infinite? <==> exists s :: s in streams && s.active && s.density.None? && c == Clean(s))
  {
    if streams != [] {
      var n := |streams| - 1;
      ActiveOfFacts(streams[..n]);
      CountActiveSnoc(streams[..n], streams[n]);
      assert streams == streams[..n] + [streams[n]];
    }
  }

  lemma {:induction false} CountActiveSnoc(streams: seq<StreamRecord>, s: StreamRecord)
    ensures CountActive(streams + [s]) == CountActive(streams) + (if s.active then 1 else 0)
  {
    if streams == [] {
      assert streams + [s] == [s];
    } else {
      assert (streams + [s])[1..] == streams[1..] + [s];
      CountActiveSnoc(streams[1..], s);
    }
  }
}
