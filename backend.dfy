/**
 * The backend's ingestion path and query handlers (backend/app.py): the MQTT
 * message callback routes each decoded message by topic to one of four
 * append-only tables, derives the cost of an energy reading, evaluates the
 * threshold rules and records alerts with a one-hour de-duplication; the HTTP
 * handlers read the newest row, a time window or the newest fifty alerts,
 * resolve an alert and republish a relay command.
 *
 * The SQLite file is the `Database` class, one `Table` per SQL table; the
 * clock (`CURRENT_TIMESTAMP`, `datetime('now')`) is the integer number of
 * seconds `now` passed to every operation.
 */
module Backend {

  import opened Json
  import opened Tables

  const ENERGY_TOPIC := "home/energy/power"
  const SENSOR_TOPIC := "home/sensors/environment"
  const PRESENCE_TOPIC := "home/sensors/presence"
  const ACTUATOR_TOPIC := "home/actuators/status"
  const CONTROL_TOPIC := "home/control/command"

  /** ELECTRICITY_TARIF, per kWh. */
  const TARIFF: real := 0.15
  const HIGH_POWER: real := 2000.0
  const HIGH_TEMPERATURE: real := 30.0
  const LOW_TEMPERATURE: real := 15.0
  /** `datetime('now', '-1 hour')`, in seconds. */
  const DEDUP_WINDOW: int := 3600
  const ALERT_LIMIT: nat := 50
  const DEFAULT_HOURS: int := 24

  // ---------------------------------------------------------------- payloads

  /** A decoded JSON object, as the Python `dict` the handlers read with `.get`. */
  type Payload = map<string, Json>

  /** `data.get(key)`: `None` when the key is absent. */
  function Get(p: Payload, key: string): (v: Json)
    ensures key !in p ==> v == JNull
    ensures key in p ==> v == p[key]
  {
    if key in p then p[key] else JNull
  }

  /** `data.get(key, default)`: the default only when the key is absent; an explicit `null` stays `None`. */
  function GetOr(p: Payload, key: string, default: Json): (v: Json)
    ensures key !in p ==> v == default
    ensures key in p ==> v == p[key]
  {
    if key in p then p[key] else default
  }

  /**
   * The number Python's arithmetic and ordering see in a decoded value: ints
   * and floats as themselves, `True`/`False` as 1/0. `None` stands for the
   * TypeError that `*`, `>` and `<` raise on `None`, strings, lists and dicts.
   */
  function AsNumber(v: Json): (n: Option<real>)
    ensures n.Some? <==> v.JNum? || v.JBool?
    ensures v.JNum? ==> n == Some(v.n)
    ensures v.JBool? ==> n == Some(if v.b then 1.0 else 0.0)
  {
    match v
    case JNum(x) => Some(x)
    case JBool(b) => Some(if b then 1.0 else 0.0)
    case _ => None
  }

  /** Python's `bool(v)` / `not v`: false exactly for the six falsy JSON values. */
  function Truthy(v: Json): (b: bool)
    ensures !b <==> v in {JNull, JBool(false), JNum(0.0), JStr(""), JArray([]), JObject(map[])}
  {
    match v
    case JNull => false
    case JBool(b) => b
    case JNum(x) => x != 0.0
    case JStr(s) => |s| > 0
    case JArray(items) => |items| > 0
    case JObject(fields) => |fields| > 0
  }

  // ------------------------------------------------------------------ columns

  /** A value as SQLite stores it. */
  datatype SqlValue = SqlNull | SqlNum(n: real) | SqlText(s: string)

  /**
   * Binding a parameter of `cursor.execute`: `None` is NULL, `True`/`False`
   * are 1/0, numbers and strings are themselves; a list or a dict cannot be
   * bound and the statement raises (`None` here).
   */
  function Bind(v: Json): (r: Option<SqlValue>)
    ensures r.None? <==> v.JArray? || v.JObject?
    ensures AsNumber(v).Some? ==> r == Some(SqlNum(AsNumber(v).value))
    ensures v.JNull? ==> r == Some(SqlNull)
    ensures v.JStr? ==> r == Some(SqlText(v.s))
  {
    match v
    case JNull => Some(SqlNull)
    case JBool(b) => Some(SqlNum(if b then 1.0 else 0.0))
    case JNum(x) => Some(SqlNum(x))
    case JStr(s) => Some(SqlText(s))
    case _ => None
  }

  /** `bool(row[k])` on a value read back from SQLite. */
  function SqlTruthy(v: SqlValue): bool
  {
    match v
    case SqlNull => false
    case SqlNum(x) => x != 0.0
    case SqlText(s) => |s| > 0
  }

  // ------------------------------------------------------------------ records

  datatype Energy = Energy(deviceId: SqlValue, power: SqlValue, voltage: SqlValue, current: SqlValue,
                           energyTotal: SqlValue, cost: real)
  datatype Sensor = Sensor(deviceId: SqlValue, temperature: SqlValue, humidity: SqlValue, lightLevel: SqlValue)
  datatype Presence = Presence(deviceId: SqlValue, presence: SqlValue)
  datatype Actuator = Actuator(deviceId: SqlValue, relay1: SqlValue, relay2: SqlValue, autoMode: SqlValue)

  datatype AlertType = HighConsumption | PowerFailure | HighTemperature | LowTemperature
  {
    /** The `alert_type` column. */
    function Name(): string
    {
      match this
      case HighConsumption => "HIGH_CONSUMPTION"
      case PowerFailure => "POWER_FAILURE"
      case HighTemperature => "HIGH_TEMPERATURE"
      case LowTemperature => "LOW_TEMPERATURE"
    }
  }

  datatype Severity = Warning | Critical
  {
    function Name(): string
    {
      match this
      case Warning => "WARNING"
      case Critical => "CRITICAL"
    }
  }

  /**
   * An `alerts` row. The `message` column is a fixed French text per type,
   * with the reading (power or temperature) formatted into it for three of
   * the four types; `reading` keeps that value.
   */
  datatype Alert = Alert(kind: AlertType, severity: Severity, reading: Option<Json>, resolved: bool)

  /** What the rule functions ask `create_alert` for. */
  datatype AlertRequest = AlertRequest(kind: AlertType, severity: Severity, reading: Option<Json>)

  /** The cost column is derived: energy_total × tariff, and 0 when energy_total was absent (stored NULL). */
  ghost predicate CostDerived(e: Energy)
  {
    || (e.energyTotal == SqlNull && e.cost == 0.0)
    || (e.energyTotal.SqlNum? && e.cost == e.energyTotal.n * TARIFF)
  }

  // ------------------------------------------------------------------ store_*

  /** `data.get('energy_total', 0) * ELECTRICITY_TARIF`; `None` when the product raises. */
  function Cost(p: Payload): (c: Option<real>)
    ensures c.Some? <==> "energy_total" !in p || AsNumber(p["energy_total"]).Some?
    ensures "energy_total" !in p ==> c == Some(0.0)
    ensures "energy_total" in p && c.Some? ==> c.value == AsNumber(p["energy_total"]).value * TARIFF
  {
    match AsNumber(GetOr(p, "energy_total", JNum(0.0)))
    case Some(e) => Some(e * TARIFF)
    case None => None
  }

  /** The row `store_energy_data` inserts, `None` when it raises before the INSERT commits. */
  function EnergyRecord(p: Payload): (r: Option<Energy>)
    ensures r.Some? <==> Cost(p).Some? && forall k | k in ENERGY_COLUMNS :: Bind(Get(p, k)).Some?
    ensures r.Some? ==> CostDerived(r.value) && r.value.cost == Cost(p).value
    ensures r.Some? ==> r.value.deviceId == Bind(Get(p, "device_id")).value
    ensures r.Some? ==> r.value.power == Bind(Get(p, "power")).value
    ensures r.Some? ==> r.value.voltage == Bind(Get(p, "voltage")).value
    ensures r.Some? ==> r.value.current == Bind(Get(p, "current")).value
    ensures r.Some? ==> r.value.energyTotal == Bind(Get(p, "energy_total")).value
  {
    match Cost(p)
    case None => None
    case Some(cost) =>
      var deviceId, power, voltage, current, energyTotal :=
        Bind(Get(p, "device_id")), Bind(Get(p, "power")), Bind(Get(p, "voltage")),
        Bind(Get(p, "current")), Bind(Get(p, "energy_total"));
      if deviceId.Some? && power.Some? && voltage.Some? && current.Some? && energyTotal.Some? then
        Some(Energy(deviceId.value, power.value, voltage.value, current.value, energyTotal.value, cost))
      else None
  }

  const ENERGY_COLUMNS: set<string> := {"device_id", "power", "voltage", "current", "energy_total"}

  function SensorRecord(p: Payload): (r: Option<Sensor>)
    ensures r.Some? <==> forall k | k in {"device_id", "temperature", "humidity", "light_level"} :: Bind(Get(p, k)).Some?
    ensures r.Some? ==> r.value.deviceId == Bind(Get(p, "device_id")).value
    ensures r.Some? ==> r.value.temperature == Bind(Get(p, "temperature")).value
    ensures r.Some? ==> r.value.humidity == Bind(Get(p, "humidity")).value
    ensures r.Some? ==> r.value.lightLevel == Bind(Get(p, "light_level")).value
  {
    var deviceId, temperature, humidity, light :=
      Bind(Get(p, "device_id")), Bind(Get(p, "temperature")), Bind(Get(p, "humidity")), Bind(Get(p, "light_level"));
    if deviceId.Some? && temperature.Some? && humidity.Some? && light.Some? then
      Some(Sensor(deviceId.value, temperature.value, humidity.value, light.value))
    else None
  }

  function PresenceRecord(p: Payload): (r: Option<Presence>)
    ensures r.Some? <==> Bind(Get(p, "device_id")).Some? && Bind(Get(p, "presence")).Some?
    ensures r.Some? ==> r.value.deviceId == Bind(Get(p, "device_id")).value
    ensures r.Some? ==> r.value.presence == Bind(Get(p, "presence")).value
  {
    var deviceId, presence := Bind(Get(p, "device_id")), Bind(Get(p, "presence"));
    if deviceId.Some? && presence.Some? then Some(Presence(deviceId.value, presence.value)) else None
  }

  function ActuatorRecord(p: Payload): (r: Option<Actuator>)
    ensures r.Some? <==> forall k | k in {"device_id", "relay1", "relay2", "auto_mode"} :: Bind(Get(p, k)).Some?
    ensures r.Some? ==> r.value.deviceId == Bind(Get(p, "device_id")).value
    ensures r.Some? ==> r.value.relay1 == Bind(Get(p, "relay1")).value
    ensures r.Some? ==> r.value.relay2 == Bind(Get(p, "relay2")).value
    ensures r.Some? ==> r.value.autoMode == Bind(Get(p, "auto_mode")).value
  {
    var deviceId, relay1, relay2, autoMode :=
      Bind(Get(p, "device_id")), Bind(Get(p, "relay1")), Bind(Get(p, "relay2")), Bind(Get(p, "auto_mode"));
    if deviceId.Some? && relay1.Some? && relay2.Some? && autoMode.Some? then
      Some(Actuator(deviceId.value, relay1.value, relay2.value, autoMode.value))
    else None
  }

  // ------------------------------------------------------------- alert rules

  /**
   * `check_energy_alerts`: power > 2000 asks for HIGH_CONSUMPTION/WARNING,
   * power == 0 (a missing power counts as 0) for POWER_FAILURE/CRITICAL. A
   * power Python cannot compare with 2000 raises before either rule.
   */
  function EnergyAlertRequests(p: Payload): (r: seq<AlertRequest>)
    ensures |r| <= 1
    ensures var power := AsNumber(GetOr(p, "power", JNum(0.0)));
      && (power.Some? && power.value > HIGH_POWER <==> r == [AlertRequest(HighConsumption, Warning, Some(GetOr(p, "power", JNum(0.0))))])
      && (power == Some(0.0) <==> r == [AlertRequest(PowerFailure, Critical, None)])
    ensures var power := AsNumber(GetOr(p, "power", JNum(0.0)));
      r == [] <==> !(power.Some? && (power.value > HIGH_POWER || power.value == 0.0))
    ensures "power" !in p ==> r == [AlertRequest(PowerFailure, Critical, None)]
  {
    var power := GetOr(p, "power", JNum(0.0));
    match AsNumber(power)
    case None => []
    case Some(w) =>
      if w > HIGH_POWER then [AlertRequest(HighConsumption, Warning, Some(power))]
      else if w == 0.0 then [AlertRequest(PowerFailure, Critical, None)]
      else []
  }

  /**
   * `check_temperature_alerts`: above 30 asks for HIGH_TEMPERATURE, otherwise
   * below 15 for LOW_TEMPERATURE; a missing temperature counts as 0.
   */
  function TemperatureAlertRequests(p: Payload): (r: seq<AlertRequest>)
    ensures |r| <= 1
    ensures var t := AsNumber(GetOr(p, "temperature", JNum(0.0)));
      && (t.Some? && t.value > HIGH_TEMPERATURE <==> r == [AlertRequest(HighTemperature, Warning, Some(GetOr(p, "temperature", JNum(0.0))))])
      && (t.Some? && t.value < LOW_TEMPERATURE <==> r == [AlertRequest(LowTemperature, Warning, Some(GetOr(p, "temperature", JNum(0.0))))])
      && (t.Some? && LOW_TEMPERATURE <= t.value <= HIGH_TEMPERATURE ==> r == [])
    ensures var t := AsNumber(GetOr(p, "temperature", JNum(0.0)));
      r == [] <==> !(t.Some? && (t.value > HIGH_TEMPERATURE || t.value < LOW_TEMPERATURE))
    ensures "temperature" !in p ==> r == [AlertRequest(LowTemperature, Warning, Some(JNum(0.0)))]
  {
    var temperature := GetOr(p, "temperature", JNum(0.0));
    match AsNumber(temperature)
    case None => []
    case Some(t) =>
      if t > HIGH_TEMPERATURE then [AlertRequest(HighTemperature, Warning, Some(temperature))]
      else if t < LOW_TEMPERATURE then [AlertRequest(LowTemperature, Warning, Some(temperature))]
      else []
  }

  // ------------------------------------------------------------ create_alert

  /** A row that keeps `create_alert` from inserting an alert of `kind` at `now`. */
  ghost predicate Suppresses(row: Row<Alert>, kind: AlertType, now: int)
  {
    row.data.kind == kind && !row.data.resolved && row.timestamp > now - DEDUP_WINDOW
  }

  ghost predicate Suppressed(rows: seq<Row<Alert>>, kind: AlertType, now: int)
  {
    exists row | row in rows :: Suppresses(row, kind, now)
  }

  /** The de-duplication SELECT: the id of an unresolved alert of `kind` from the trailing hour, if any. */
  function FindRecent(rows: seq<Row<Alert>>, kind: AlertType, now: int): (found: Option<int>)
    ensures found.Some? <==> Suppressed(rows, kind, now)
    ensures found.Some? ==> exists row | row in rows :: Suppresses(row, kind, now) && row.id == found.value
  {
    if |rows| == 0 then None
    else
      var row := rows[0];
      assert rows == [row] + rows[1..];
      if row.data.kind == kind && !row.data.resolved && row.timestamp > now - DEDUP_WINDOW then
        assert Suppresses(row, kind, now);
        Some(row.id)
      else
        assert Suppressed(rows, kind, now) <==> Suppressed(rows[1..], kind, now);
        FindRecent(rows[1..], kind, now)
  }

  /**
   * `create_alert` on the alerts table: one new unresolved row, unless an
   * unresolved alert of the same type is younger than an hour.
   */
  function WithAlert(t: Table<Alert>, req: AlertRequest, now: int): (r: Table<Alert>)
    ensures Suppressed(t.rows, req.kind, now) ==> r == t
    ensures !Suppressed(t.rows, req.kind, now) ==>
      && |r.rows| == |t.rows| + 1 && r.rows[..|t.rows|] == t.rows
      && r.rows[|t.rows|].timestamp == now
      && r.rows[|t.rows|].data == Alert(req.kind, req.severity, req.reading, false)
  {
    if FindRecent(t.rows, req.kind, now).Some? then t
    else t.Append(Alert(req.kind, req.severity, req.reading, false), now)
  }

  /** After `create_alert`, an alert of the requested type from the trailing hour is unresolved. */
  lemma {:induction false} WithAlertSuppresses(t: Table<Alert>, req: AlertRequest, now: int)
    ensures Suppressed(WithAlert(t, req, now).rows, req.kind, now)
  {
    if !Suppressed(t.rows, req.kind, now) {
      var r := WithAlert(t, req, now);
      assert Suppresses(r.rows[|t.rows|], req.kind, now);
    }
  }

  /** Appending rows never lifts a suppression. */
  lemma {:induction false} SuppressedExtends(rows: seq<Row<Alert>>, more: seq<Row<Alert>>, kind: AlertType, now: int)
    requires |rows| <= |more| && more[..|rows|] == rows
    ensures Suppressed(rows, kind, now) ==> Suppressed(more, kind, now)
  {
    if Suppressed(rows, kind, now) {
      var row :| row in rows && Suppresses(row, kind, now);
      var i :| 0 <= i < |rows| && rows[i] == row;
      assert more[i] == row;
    }
  }

  /**
   * One `create_alert` call per request, in order: afterwards every requested
   * type has an unresolved alert from the trailing hour, whether it was there
   * before or has just been inserted.
   */
  function WithAlerts(t: Table<Alert>, reqs: seq<AlertRequest>, now: int): (r: Table<Alert>)
    ensures |t.rows| <= |r.rows| <= |t.rows| + |reqs| && r.rows[..|t.rows|] == t.rows
    ensures forall k :: |t.rows| <= k < |r.rows| ==> r.rows[k].timestamp == now && !r.rows[k].data.resolved
    ensures |reqs| == 0 ==> r == t
    ensures |reqs| == 1 ==> r == WithAlert(t, reqs[0], now)
    ensures forall j :: 0 <= j < |reqs| ==> Suppressed(r.rows, reqs[j].kind, now)
    decreases |reqs|
  {
    if |reqs| == 0 then t
    else
      var first := WithAlert(t, reqs[0], now);
      var r := WithAlerts(first, reqs[1..], now);
      assert Suppressed(r.rows, reqs[0].kind, now) by {
        WithAlertSuppresses(t, reqs[0], now);
        SuppressedExtends(first.rows, r.rows, reqs[0].kind, now);
      }
      assert forall j :: 1 <= j < |reqs| ==> reqs[j] == reqs[1..][j - 1];
      r
  }

  /** The request an alert row was inserted for. */
  ghost predicate Raises(row: Row<Alert>, req: AlertRequest)
  {
    row.data == Alert(req.kind, req.severity, req.reading, false)
  }

  /**
   * What `WithAlerts` inserts: each new row is the alert of one of the
   * requests, of a type that no alert from the trailing hour suppressed
   * before the run.
   */
  lemma {:induction false} WithAlertsNewRows(t: Table<Alert>, reqs: seq<AlertRequest>, now: int)
    ensures var r := WithAlerts(t, reqs, now);
      forall k :: |t.rows| <= k < |r.rows| ==>
        !Suppressed(t.rows, r.rows[k].data.kind, now) && exists i :: 0 <= i < |reqs| && Raises(r.rows[k], reqs[i])
    decreases |reqs|
  {
    if |reqs| > 0 {
      var first := WithAlert(t, reqs[0], now);
      var r := WithAlerts(t, reqs, now);
      var rest := reqs[1..];
      WithAlertsNewRows(first, rest, now);
      assert r == WithAlerts(first, rest, now);
      forall k | |t.rows| <= k < |r.rows|
        ensures !Suppressed(t.rows, r.rows[k].data.kind, now)
        ensures exists i :: 0 <= i < |reqs| && Raises(r.rows[k], reqs[i])
      {
        if k < |first.rows| {
          assert r.rows[k] == first.rows[k];
          assert Raises(r.rows[k], reqs[0]);
        } else {
          SuppressedExtends(t.rows, first.rows, r.rows[k].data.kind, now);
          var i :| 0 <= i < |rest| && Raises(r.rows[k], rest[i]);
          assert Raises(r.rows[k], reqs[i + 1]);
        }
      }
    }
  }

  /** No two alerts one run of `WithAlerts` inserts share a type. */
  lemma {:induction false} WithAlertsDistinctKinds(t: Table<Alert>, reqs: seq<AlertRequest>, now: int)
    ensures var r := WithAlerts(t, reqs, now);
      forall k, l :: |t.rows| <= k < l < |r.rows| ==> r.rows[k].data.kind != r.rows[l].data.kind
    decreases |reqs|
  {
    if |reqs| > 0 {
      var first := WithAlert(t, reqs[0], now);
      var r := WithAlerts(t, reqs, now);
      WithAlertsDistinctKinds(first, reqs[1..], now);
      WithAlertsNewRows(first, reqs[1..], now);
      assert r == WithAlerts(first, reqs[1..], now);
      if |first.rows| > |t.rows| {
        WithAlertSuppresses(t, reqs[0], now);
        assert r.rows[|t.rows|] == first.rows[|t.rows|];
      }
    }
  }

  /** Two rows one run of `WithAlerts` inserts follow the order of their requests. */
  lemma {:induction false} WithAlertsInOrder(t: Table<Alert>, reqs: seq<AlertRequest>, now: int, k: int, l: int)
    requires |t.rows| <= k < l < |WithAlerts(t, reqs, now).rows|
    ensures var r := WithAlerts(t, reqs, now);
      exists i, j :: 0 <= i < j < |reqs| && Raises(r.rows[k], reqs[i]) && Raises(r.rows[l], reqs[j])
    decreases |reqs|
  {
    var first := WithAlert(t, reqs[0], now);
    var r := WithAlerts(t, reqs, now);
    var rest := reqs[1..];
    assert r == WithAlerts(first, rest, now);
    if k < |first.rows| {
      WithAlertsNewRows(first, rest, now);
      var j :| 0 <= j < |rest| && Raises(r.rows[l], rest[j]);
      assert r.rows[k] == first.rows[k];
      assert 0 < j + 1 < |reqs| && Raises(r.rows[k], reqs[0]) && Raises(r.rows[l], reqs[j + 1]);
    } else {
      WithAlertsInOrder(first, rest, now, k, l);
      var i, j :| 0 <= i < j < |rest| && Raises(r.rows[k], rest[i]) && Raises(r.rows[l], rest[j]);
      assert i + 1 < j + 1 < |reqs| && Raises(r.rows[k], reqs[i + 1]) && Raises(r.rows[l], reqs[j + 1]);
    }
  }

  /**
   * The de-duplication invariant: an alert inserted after an unresolved alert
   * of the same type is at least an hour younger than it.
   */
  ghost predicate AlertsSpaced(rows: seq<Row<Alert>>)
  {
    forall i, j :: 0 <= i < j < |rows| && rows[i].data.kind == rows[j].data.kind && !rows[i].data.resolved ==>
      rows[i].timestamp + DEDUP_WINDOW <= rows[j].timestamp
  }

  lemma {:induction false} WithAlertKeepsSpaced(t: Table<Alert>, req: AlertRequest, now: int)
    requires t.Valid() && AlertsSpaced(t.rows)
    ensures WithAlert(t, req, now).Valid() && AlertsSpaced(WithAlert(t, req, now).rows)
  {
  }

  lemma {:induction false} WithAlertsKeepsSpaced(t: Table<Alert>, reqs: seq<AlertRequest>, now: int)
    requires t.Valid() && AlertsSpaced(t.rows)
    ensures WithAlerts(t, reqs, now).Valid() && AlertsSpaced(WithAlerts(t, reqs, now).rows)
    ensures |WithAlerts(t, reqs, now).rows| <= |t.rows| + |reqs|
    ensures t.rows <= WithAlerts(t, reqs, now).rows
    decreases |reqs|
  {
    if |reqs| > 0 {
      WithAlertKeepsSpaced(t, reqs[0], now);
      WithAlertsKeepsSpaced(WithAlert(t, reqs[0], now), reqs[1..], now);
    }
  }

  /** Any two unresolved alerts of one type lie at least an hour apart. */
  lemma {:induction false} UnresolvedAlertsAnHourApart(rows: seq<Row<Alert>>, i: int, j: int)
    requires AlertsSpaced(rows)
    requires 0 <= i < |rows| && 0 <= j < |rows| && i != j
    requires rows[i].data.kind == rows[j].data.kind && !rows[i].data.resolved && !rows[j].data.resolved
    ensures rows[i].timestamp + DEDUP_WINDOW <= rows[j].timestamp || rows[j].timestamp + DEDUP_WINDOW <= rows[i].timestamp
  {
  }

  // ----------------------------------------------------------- resolve_alert

  /** `UPDATE alerts SET resolved = 1 WHERE id = ?`. */
  function Resolve(t: Table<Alert>, id: int): (r: Table<Alert>)
    ensures r.nextId == t.nextId && |r.rows| == |t.rows|
    ensures forall i :: 0 <= i < |t.rows| ==>
      && r.rows[i].id == t.rows[i].id && r.rows[i].timestamp == t.rows[i].timestamp
      && r.rows[i].data.kind == t.rows[i].data.kind && r.rows[i].data.severity == t.rows[i].data.severity
      && r.rows[i].data.reading == t.rows[i].data.reading
      && r.rows[i].data.resolved == (t.rows[i].data.resolved || t.rows[i].id == id)
  {
    Table(seq(|t.rows|, i requires 0 <= i < |t.rows| =>
            if t.rows[i].id == id then t.rows[i].(data := t.rows[i].data.(resolved := true)) else t.rows[i]),
          t.nextId)
  }

  /** Rows whose id is not the one resolved are untouched. */
  lemma {:induction false} ResolveTouchesOnlyItsRow(t: Table<Alert>, id: int, i: int)
    requires 0 <= i < |t.rows| && t.rows[i].id != id
    ensures Resolve(t, id).rows[i] == t.rows[i]
  {
  }

  /** Resolving an id no row has changes nothing. */
  lemma {:induction false} ResolveUnknownId(t: Table<Alert>, id: int)
    requires forall row | row in t.rows :: row.id != id
    ensures Resolve(t, id) == t
  {
  }

  lemma {:induction false} ResolveIdempotent(t: Table<Alert>, id: int)
    ensures Resolve(Resolve(t, id), id) == Resolve(t, id)
  {
  }

  lemma {:induction false} ResolveKeepsSpaced(t: Table<Alert>, id: int)
    requires t.Valid() && AlertsSpaced(t.rows)
    ensures Resolve(t, id).Valid() && AlertsSpaced(Resolve(t, id).rows)
  {
  }

  // ---------------------------------------------------------------- the store

  datatype Db = Db(energy: Table<Energy>, sensors: Table<Sensor>, presence: Table<Presence>,
                   actuators: Table<Actuator>, alerts: Table<Alert>)
  {
    ghost predicate Valid()
    {
      && energy.Valid() && sensors.Valid() && presence.Valid() && actuators.Valid() && alerts.Valid()
      && (forall row | row in energy.rows :: CostDerived(row.data))
      && AlertsSpaced(alerts.rows)
    }
  }

  /** Every table of `before` is a prefix of the same table of `after`. */
  ghost predicate AppendedTo(before: Db, after: Db)
  {
    && before.energy.rows <= after.energy.rows && before.sensors.rows <= after.sensors.rows
    && before.presence.rows <= after.presence.rows && before.actuators.rows <= after.actuators.rows
    && before.alerts.rows <= after.alerts.rows
  }

  /** The decoded object a handler reads with `data.get`; anything else makes `.get` raise. */
  function AsPayload(decoded: Option<Json>): Option<Payload>
  {
    if decoded.Some? && decoded.value.JObject? then Some(decoded.value.fields) else None
  }

  /**
   * `on_message`: the effect of one message on the store. The topic is matched
   * exactly; an exception anywhere (undecodable payload, a value the product,
   * the comparison or the INSERT rejects) ends the handling where it arises,
   * so a rejected row also skips the alert rules.
   */
  function Ingest(db: Db, topic: string, decoded: Option<Json>, now: int): Db
  {
    match AsPayload(decoded)
    case None => db
    case Some(p) =>
      if topic == ENERGY_TOPIC then IngestEnergy(db, p, now)
      else if topic == SENSOR_TOPIC then IngestSensor(db, p, now)
      else if topic == PRESENCE_TOPIC then IngestPresence(db, p, now)
      else if topic == ACTUATOR_TOPIC then IngestActuator(db, p, now)
      else db
  }

  /** `store_energy_data` then `check_energy_alerts`. */
  function IngestEnergy(db: Db, p: Payload, now: int): (r: Db)
    ensures r.sensors == db.sensors && r.presence == db.presence && r.actuators == db.actuators
    ensures EnergyRecord(p).None? ==> r == db
    ensures EnergyRecord(p).Some? ==>
      && |r.energy.rows| == |db.energy.rows| + 1 && r.energy.rows[..|db.energy.rows|] == db.energy.rows
      && r.energy.rows[|db.energy.rows|].timestamp == now
      && r.energy.rows[|db.energy.rows|].data == EnergyRecord(p).value
      && r.alerts == WithAlerts(db.alerts, EnergyAlertRequests(p), now)
  {
    match EnergyRecord(p)
    case None => db
    case Some(e) => db.(energy := db.energy.Append(e, now), alerts := WithAlerts(db.alerts, EnergyAlertRequests(p), now))
  }

  /** `store_sensor_data` then `check_temperature_alerts`. */
  function IngestSensor(db: Db, p: Payload, now: int): (r: Db)
    ensures r.energy == db.energy && r.presence == db.presence && r.actuators == db.actuators
    ensures SensorRecord(p).None? ==> r == db
    ensures SensorRecord(p).Some? ==>
      && |r.sensors.rows| == |db.sensors.rows| + 1 && r.sensors.rows[..|db.sensors.rows|] == db.sensors.rows
      && r.sensors.rows[|db.sensors.rows|].timestamp == now
      && r.sensors.rows[|db.sensors.rows|].data == SensorRecord(p).value
      && r.alerts == WithAlerts(db.alerts, TemperatureAlertRequests(p), now)
  {
    match SensorRecord(p)
    case None => db
    case Some(s) => db.(sensors := db.sensors.Append(s, now), alerts := WithAlerts(db.alerts, TemperatureAlertRequests(p), now))
  }

  /** `store_presence_data`: no alert rule follows it. */
  function IngestPresence(db: Db, p: Payload, now: int): (r: Db)
    ensures r.energy == db.energy && r.sensors == db.sensors && r.actuators == db.actuators && r.alerts == db.alerts
    ensures PresenceRecord(p).None? ==> r == db
    ensures PresenceRecord(p).Some? ==>
      && |r.presence.rows| == |db.presence.rows| + 1 && r.presence.rows[..|db.presence.rows|] == db.presence.rows
      && r.presence.rows[|db.presence.rows|].timestamp == now
      && r.presence.rows[|db.presence.rows|].data == PresenceRecord(p).value
  {
    match PresenceRecord(p)
    case None => db
    case Some(x) => db.(presence := db.presence.Append(x, now))
  }

  /** `store_actuator_state`: no alert rule follows it. */
  function IngestActuator(db: Db, p: Payload, now: int): (r: Db)
    ensures r.energy == db.energy && r.sensors == db.sensors && r.presence == db.presence && r.alerts == db.alerts
    ensures ActuatorRecord(p).None? ==> r == db
    ensures ActuatorRecord(p).Some? ==>
      && |r.actuators.rows| == |db.actuators.rows| + 1 && r.actuators.rows[..|db.actuators.rows|] == db.actuators.rows
      && r.actuators.rows[|db.actuators.rows|].timestamp == now
      && r.actuators.rows[|db.actuators.rows|].data == ActuatorRecord(p).value
  {
    match ActuatorRecord(p)
    case None => db
    case Some(a) => db.(actuators := db.actuators.Append(a, now))
  }

  /**
   * Topic routing: an undecodable or non-object payload and an unknown topic
   * change nothing; each topic touches only its own table (and, for the two
   * measurement topics, the alerts); a row the table accepts is appended and
   * then the topic's alert rules are applied.
   */
  lemma {:induction false} IngestRouting(db: Db, topic: string, decoded: Option<Json>, now: int)
    ensures var r := Ingest(db, topic, decoded, now);
      && (AsPayload(decoded).None? ==> r == db)
      && (topic !in {ENERGY_TOPIC, SENSOR_TOPIC, PRESENCE_TOPIC, ACTUATOR_TOPIC} ==> r == db)
      && (topic != ENERGY_TOPIC ==> r.energy == db.energy)
      && (topic != SENSOR_TOPIC ==> r.sensors == db.sensors)
      && (topic != PRESENCE_TOPIC ==> r.presence == db.presence)
      && (topic != ACTUATOR_TOPIC ==> r.actuators == db.actuators)
      && (topic != ENERGY_TOPIC && topic != SENSOR_TOPIC ==> r.alerts == db.alerts)
    ensures var r := Ingest(db, topic, decoded, now);
      topic == ENERGY_TOPIC && AsPayload(decoded).Some? ==>
        var p := AsPayload(decoded).value;
        && (EnergyRecord(p).None? ==> r == db)
        && (EnergyRecord(p).Some? ==>
              && |r.energy.rows| == |db.energy.rows| + 1
              && r.energy.rows[|db.energy.rows|].data == EnergyRecord(p).value
              && r.energy.rows[|db.energy.rows|].timestamp == now
              && r.alerts == WithAlerts(db.alerts, EnergyAlertRequests(p), now))
    ensures var r := Ingest(db, topic, decoded, now);
      topic == SENSOR_TOPIC && AsPayload(decoded).Some? ==>
        var p := AsPayload(decoded).value;
        && (SensorRecord(p).None? ==> r == db)
        && (SensorRecord(p).Some? ==>
              && |r.sensors.rows| == |db.sensors.rows| + 1
              && r.sensors.rows[|db.sensors.rows|].data == SensorRecord(p).value
              && r.alerts == WithAlerts(db.alerts, TemperatureAlertRequests(p), now))
    ensures var r := Ingest(db, topic, decoded, now);
      topic == PRESENCE_TOPIC && AsPayload(decoded).Some? ==>
        var p := AsPayload(decoded).value;
        |r.presence.rows| == |db.presence.rows| + (if PresenceRecord(p).Some? then 1 else 0)
    ensures var r := Ingest(db, topic, decoded, now);
      topic == ACTUATOR_TOPIC && AsPayload(decoded).Some? ==>
        var p := AsPayload(decoded).value;
        |r.actuators.rows| == |db.actuators.rows| + (if ActuatorRecord(p).Some? then 1 else 0)
  {
  }

  /**
   * `after` is a valid store reached from `before` by appending rows, at most
   * one of them an alert.
   */
  ghost predicate Grows(before: Db, after: Db)
  {
    after.Valid() && AppendedTo(before, after) && |after.alerts.rows| <= |before.alerts.rows| + 1
  }

  /**
   * A message keeps the store valid (ids, derived costs, alert spacing),
   * only appends to its tables, and adds at most one alert.
   */
  lemma {:induction false} IngestKeepsValid(db: Db, topic: string, decoded: Option<Json>, now: int)
    requires db.Valid()
    ensures Grows(db, Ingest(db, topic, decoded, now))
  {
    if AsPayload(decoded).Some? {
      var p := AsPayload(decoded).value;
      if topic == ENERGY_TOPIC {
        IngestEnergyKeepsValid(db, p, now);
      } else if topic == SENSOR_TOPIC {
        IngestSensorKeepsValid(db, p, now);
      } else if topic == PRESENCE_TOPIC {
        IngestPresenceKeepsValid(db, p, now);
      } else if topic == ACTUATOR_TOPIC {
        IngestActuatorKeepsValid(db, p, now);
      }
    }
  }

  lemma {:induction false} IngestEnergyKeepsValid(db: Db, p: Payload, now: int)
    requires db.Valid()
    ensures Grows(db, IngestEnergy(db, p, now))
  {
    if EnergyRecord(p).Some? {
      var e := EnergyRecord(p).value;
      var energy := db.energy.Append(e, now);
      forall row | row in energy.rows ensures CostDerived(row.data) {
        if row !in db.energy.rows {
          assert energy.rows == db.energy.rows + [energy.rows[|db.energy.rows|]];
        }
      }
      WithAlertsKeepsSpacedIf(db, EnergyAlertRequests(p), now);
    }
  }

  lemma {:induction false} IngestSensorKeepsValid(db: Db, p: Payload, now: int)
    requires db.Valid()
    ensures Grows(db, IngestSensor(db, p, now))
  {
    if SensorRecord(p).Some? {
      WithAlertsKeepsSpacedIf(db, TemperatureAlertRequests(p), now);
    }
  }

  lemma {:induction false} IngestPresenceKeepsValid(db: Db, p: Payload, now: int)
    requires db.Valid()
    ensures Grows(db, IngestPresence(db, p, now)) && IngestPresence(db, p, now).alerts == db.alerts
  {
  }

  lemma {:induction false} IngestActuatorKeepsValid(db: Db, p: Payload, now: int)
    requires db.Valid()
    ensures Grows(db, IngestActuator(db, p, now)) && IngestActuator(db, p, now).alerts == db.alerts
  {
  }

  lemma {:induction false} WithAlertsKeepsSpacedIf(db: Db, reqs: seq<AlertRequest>, now: int)
    requires |reqs| <= 1
    ensures |WithAlerts(db.alerts, reqs, now).rows| <= |db.alerts.rows| + 1
    ensures db.Valid() ==>
      && WithAlerts(db.alerts, reqs, now).Valid() && AlertsSpaced(WithAlerts(db.alerts, reqs, now).rows)
      && db.alerts.rows <= WithAlerts(db.alerts, reqs, now).rows
  {
    if |reqs| == 1 {
      assert WithAlerts(db.alerts, reqs, now) == WithAlert(db.alerts, reqs[0], now);
      if db.Valid() { WithAlertKeepsSpaced(db.alerts, reqs[0], now); }
    }
  }

  const EmptyDb: Db := Db(EmptyTable(), EmptyTable(), EmptyTable(), EmptyTable(), EmptyTable())

  // --------------------------------------------------------------- responses

  /** A read handler's answer: the JSON body, or the 404 "No data available". */
  datatype Reply<T> = Found(body: T) | NotFound

  datatype CurrentEnergy = CurrentEnergy(power: SqlValue, voltage: SqlValue, current: SqlValue,
                                         energyTotal: SqlValue, cost: real, timestamp: int)
  datatype HistoryPoint = HistoryPoint(timestamp: int, power: SqlValue, energyTotal: SqlValue, cost: real)
  datatype CurrentSensors = CurrentSensors(temperature: SqlValue, humidity: SqlValue, lightLevel: SqlValue, timestamp: int)
  datatype CurrentPresence = CurrentPresence(presence: bool, timestamp: int)
  datatype ActuatorsStatus = ActuatorsStatus(relay1: bool, relay2: bool, autoMode: bool, timestamp: int)
  datatype AlertView = AlertView(id: int, timestamp: int, alertType: string, severity: string,
                                 reading: Option<Json>, resolved: bool)

  function CurrentEnergyOf(row: Row<Energy>): CurrentEnergy
  {
    CurrentEnergy(row.data.power, row.data.voltage, row.data.current, row.data.energyTotal, row.data.cost, row.timestamp)
  }

  function HistoryPointOf(row: Row<Energy>): HistoryPoint
  {
    HistoryPoint(row.timestamp, row.data.power, row.data.energyTotal, row.data.cost)
  }

  function AlertViewOf(row: Row<Alert>): AlertView
  {
    AlertView(row.id, row.timestamp, row.data.kind.Name(), row.data.severity.Name(), row.data.reading, row.data.resolved)
  }

  /**
   * The rows `get_energy_history` selects: newer than `hours` before now, in
   * ascending time order. A missing `hours` is 24; a negative one makes the
   * SQLite modifier `'--N hours'` invalid, the cut-off NULL and the result empty.
   */
  function HistoryRows(rows: seq<Row<Energy>>, hours: Option<int>, now: int): (r: seq<Row<Energy>>)
    ensures SortedBy(r, false)
    ensures var h := if hours.Some? then hours.value else DEFAULT_HOURS;
      && (h < 0 ==> r == [])
      && (h >= 0 ==> forall x | x in rows :: multiset(r)[x] == if x.timestamp > now - h * 3600 then multiset(rows)[x] else 0)
      && (h >= 0 ==> forall x | x in r :: x in rows && x.timestamp > now - h * 3600)
  {
    var h := if hours.Some? then hours.value else DEFAULT_HOURS;
    if h < 0 then []
    else
      var cutoff := now - h * 3600;
      SinceWindow(rows, cutoff);
      Since(rows, cutoff)
  }

  /** The rows `get_alerts` selects: `ORDER BY timestamp DESC LIMIT 50`. */
  function LatestAlerts(rows: seq<Row<Alert>>): (r: seq<Row<Alert>>)
    ensures |r| == if |rows| < ALERT_LIMIT then |rows| else ALERT_LIMIT
    ensures forall i, j :: 0 <= i < j < |r| ==> r[i].timestamp >= r[j].timestamp
    ensures multiset(r) <= multiset(rows) && forall x | x in r :: x in rows
    ensures forall x | x in rows && x !in r :: |rows| > ALERT_LIMIT && forall k :: 0 <= k < |r| ==> x.timestamp <= r[k].timestamp
  {
    LatestNewest(rows, ALERT_LIMIT);
    Latest(rows, ALERT_LIMIT)
  }

  // ------------------------------------------------------------ control_relay

  /**
   * `control_relay`'s answer: the request fails when the body is not a JSON
   * object (Flask refuses a body that is not JSON; `.get` raises on any other
   * JSON value), the 400 "Command required", or the published command.
   */
  datatype RelayReply =
    | Rejected
    | CommandRequired
    | CommandSent(topic: string, payload: Json, command: Json)

  /**
   * `control_relay`: a missing or falsy `command` is a 400 and nothing is
   * published; otherwise `{"command": c}` goes to the control topic and `c`
   * is echoed back.
   */
  function ControlRelay(body: Option<Json>): (r: RelayReply)
    ensures AsPayload(body).None? <==> r.Rejected?
    ensures AsPayload(body).Some? ==> (r.CommandRequired? <==> !Truthy(Get(AsPayload(body).value, "command")))
    ensures r.CommandSent? ==>
      && r.topic == CONTROL_TOPIC
      && r.payload == JObject(map["command" := r.command])
      && r.command == AsPayload(body).value["command"]
  {
    match AsPayload(body)
    case None => Rejected
    case Some(data) =>
      var command := Get(data, "command");
      if !Truthy(command) then CommandRequired
      else CommandSent(CONTROL_TOPIC, JObject(map["command" := command]), command)
  }

  // -------------------------------------------------------------- scenarios

  /**
   * A 2500 W reading with an `energy_total` of 12.0: cost 12.0 × 0.15 = 1.8 (exact on reals) is
   * stored and one HIGH_CONSUMPTION warning is recorded.
   */
  lemma {:induction false} HighConsumptionScenario(db: Db, now: int)
    requires !Suppressed(db.alerts.rows, HighConsumption, now)
    ensures var p := map["device_id" := JStr("d1"), "power" := JNum(2500.0), "voltage" := JNum(230.0),
                         "current" := JNum(10.8), "energy_total" := JNum(12.0)];
      var r := Ingest(db, ENERGY_TOPIC, Some(JObject(p)), now);
      && |r.energy.rows| == |db.energy.rows| + 1
      && r.energy.rows[|db.energy.rows|].data.cost == 1.8
      && |r.alerts.rows| == |db.alerts.rows| + 1
      && r.alerts.rows[|db.alerts.rows|].data == Alert(HighConsumption, Warning, Some(JNum(2500.0)), false)
  {
    var p := map["device_id" := JStr("d1"), "power" := JNum(2500.0), "voltage" := JNum(230.0),
                 "current" := JNum(10.8), "energy_total" := JNum(12.0)];
    var reqs := EnergyAlertRequests(p);
    assert reqs == [AlertRequest(HighConsumption, Warning, Some(JNum(2500.0)))];
    assert WithAlerts(db.alerts, reqs, now) == WithAlert(db.alerts, reqs[0], now);
  }

  /**
   * A second high-consumption reading 59 minutes after the first adds no
   * alert; one 61 minutes after it adds a second.
   */
  lemma {:induction false} HighConsumptionDedupScenario(t: Table<Alert>, now: int)
    requires forall row | row in t.rows :: row.data.kind != HighConsumption
    ensures var req := AlertRequest(HighConsumption, Warning, Some(JNum(2500.0)));
      var first := WithAlert(t, req, now);
      && |first.rows| == |t.rows| + 1
      && WithAlert(first, req, now + 59 * 60) == first
      && |WithAlert(first, req, now + 61 * 60).rows| == |t.rows| + 2
  {
    var req := AlertRequest(HighConsumption, Warning, Some(JNum(2500.0)));
    assert !Suppressed(t.rows, HighConsumption, now);
    var first := WithAlert(t, req, now);
    var newRow := first.rows[|t.rows|];
    assert newRow in first.rows && Suppresses(newRow, HighConsumption, now + 59 * 60);
    forall row | row in first.rows ensures !Suppresses(row, HighConsumption, now + 61 * 60) {
      var i :| 0 <= i < |first.rows| && first.rows[i] == row;
      if i < |t.rows| { assert first.rows[i] == t.rows[i]; assert t.rows[i] in t.rows; }
    }
  }

  // ------------------------------------------------------------ the database

  class Database {
    var energy: Table<Energy>
    var sensors: Table<Sensor>
    var presence: Table<Presence>
    var actuators: Table<Actuator>
    var alerts: Table<Alert>

    function Tables(): Db
      reads this
    {
      Db(energy, sensors, presence, actuators, alerts)
    }

    ghost predicate Valid()
      reads this
    {
      Tables().Valid()
    }

    /** `init_database`: five empty tables. */
    constructor ()
      ensures Valid() && Tables() == EmptyDb
    {
      energy, sensors, presence, actuators, alerts := EmptyTable(), EmptyTable(), EmptyTable(), EmptyTable(), EmptyTable();
    }

    method StoreEnergyData(p: Payload, now: int) returns (stored: bool)
      requires Valid()
      modifies this`energy
      ensures Valid()
      ensures stored == EnergyRecord(p).Some?
      ensures energy == if stored then old(energy).Append(EnergyRecord(p).value, now) else old(energy)
    {
      var record := EnergyRecord(p);
      stored := record.Some?;
      if stored {
        energy := energy.Append(record.value, now);
      }
    }

    method StoreSensorData(p: Payload, now: int) returns (stored: bool)
      requires Valid()
      modifies this`sensors
      ensures Valid()
      ensures stored == SensorRecord(p).Some?
      ensures sensors == if stored then old(sensors).Append(SensorRecord(p).value, now) else old(sensors)
    {
      var record := SensorRecord(p);
      stored := record.Some?;
      if stored {
        sensors := sensors.Append(record.value, now);
      }
    }

    method StorePresenceData(p: Payload, now: int)
      requires Valid()
      modifies this`presence
      ensures Valid()
      ensures presence == if PresenceRecord(p).Some? then old(presence).Append(PresenceRecord(p).value, now) else old(presence)
    {
      var record := PresenceRecord(p);
      if record.Some? {
        presence := presence.Append(record.value, now);
      }
    }

    method StoreActuatorState(p: Payload, now: int)
      requires Valid()
      modifies this`actuators
      ensures Valid()
      ensures actuators == if ActuatorRecord(p).Some? then old(actuators).Append(ActuatorRecord(p).value, now) else old(actuators)
    {
      var record := ActuatorRecord(p);
      if record.Some? {
        actuators := actuators.Append(record.value, now);
      }
    }

    method CreateAlert(kind: AlertType, severity: Severity, reading: Option<Json>, now: int)
      requires Valid()
      modifies this`alerts
      ensures Valid()
      ensures alerts == WithAlert(old(alerts), AlertRequest(kind, severity, reading), now)
    {
      WithAlertKeepsSpaced(alerts, AlertRequest(kind, severity, reading), now);
      var existing := FindRecent(alerts.rows, kind, now);
      if existing.None? {
        alerts := alerts.Append(Alert(kind, severity, reading, false), now);
      }
    }

    method CheckEnergyAlerts(p: Payload, now: int)
      requires Valid()
      modifies this`alerts
      ensures Valid()
      ensures alerts == WithAlerts(old(alerts), EnergyAlertRequests(p), now)
    {
      var power := GetOr(p, "power", JNum(0.0));
      var w := AsNumber(power);
      if w.None? {
        return;
      }
      ghost var before := alerts;
      if w.value > HIGH_POWER {
        CreateAlert(HighConsumption, Warning, Some(power), now);
      }
      if w.value == 0.0 {
        CreateAlert(PowerFailure, Critical, None, now);
      }
      ghost var reqs := EnergyAlertRequests(p);
      if |reqs| == 1 {
        assert WithAlerts(before, reqs, now) == WithAlert(before, reqs[0], now);
      }
    }

    method CheckTemperatureAlerts(p: Payload, now: int)
      requires Valid()
      modifies this`alerts
      ensures Valid()
      ensures alerts == WithAlerts(old(alerts), TemperatureAlertRequests(p), now)
    {
      var temperature := GetOr(p, "temperature", JNum(0.0));
      var t := AsNumber(temperature);
      if t.None? {
        return;
      }
      ghost var before := alerts;
      if t.value > HIGH_TEMPERATURE {
        CreateAlert(HighTemperature, Warning, Some(temperature), now);
      } else if t.value < LOW_TEMPERATURE {
        CreateAlert(LowTemperature, Warning, Some(temperature), now);
      }
      ghost var reqs := TemperatureAlertRequests(p);
      if |reqs| == 1 {
        assert WithAlerts(before, reqs, now) == WithAlert(before, reqs[0], now);
      }
    }

    /** The energy branch of `on_message`: store the reading; if that did not raise, apply the energy rules. */
    method HandleEnergy(p: Payload, now: int)
      requires Valid()
      modifies this`energy, this`alerts
      ensures Valid()
      ensures Tables() == IngestEnergy(old(Tables()), p, now)
    {
      var stored := StoreEnergyData(p, now);
      if stored {
        CheckEnergyAlerts(p, now);
      }
    }

    /** The sensor branch of `on_message`: store the reading; if that did not raise, apply the temperature rules. */
    method HandleSensor(p: Payload, now: int)
      requires Valid()
      modifies this`sensors, this`alerts
      ensures Valid()
      ensures Tables() == IngestSensor(old(Tables()), p, now)
    {
      var stored := StoreSensorData(p, now);
      if stored {
        CheckTemperatureAlerts(p, now);
      }
    }

    /** `on_message` for one message whose payload decoded to `decoded` (`None`: it did not). */
    method OnMessage(topic: string, decoded: Option<Json>, now: int)
      requires Valid()
      modifies this
      ensures Valid()
      ensures Tables() == Ingest(old(Tables()), topic, decoded, now)
    {
      var payload := AsPayload(decoded);
      if payload.None? {
        return;
      }
      var p := payload.value;
      if topic == ENERGY_TOPIC {
        HandleEnergy(p, now);
      } else if topic == SENSOR_TOPIC {
        HandleSensor(p, now);
      } else if topic == PRESENCE_TOPIC {
        StorePresenceData(p, now);
      } else if topic == ACTUATOR_TOPIC {
        StoreActuatorState(p, now);
      }
    }

    /** `resolve_alert`: always answers success with the id it was given. */
    method ResolveAlert(alertId: int) returns (echoed: int)
      requires Valid()
      modifies this`alerts
      ensures Valid()
      ensures alerts == Resolve(old(alerts), alertId)
      ensures echoed == alertId
    {
      ResolveKeepsSpaced(alerts, alertId);
      alerts := Resolve(alerts, alertId);
      echoed := alertId;
    }

    method GetCurrentEnergy() returns (reply: Reply<CurrentEnergy>)
      ensures reply.NotFound? <==> |energy.rows| == 0
      ensures reply.Found? ==> exists row | row in energy.rows ::
        reply.body == CurrentEnergyOf(row) && forall x | x in energy.rows :: x.timestamp <= row.timestamp
    {
      var newest := Newest(energy.rows);
      if newest.None? {
        return NotFound;
      }
      reply := Found(CurrentEnergyOf(newest.value));
    }

    method GetCurrentSensors() returns (reply: Reply<CurrentSensors>)
      ensures reply.NotFound? <==> |sensors.rows| == 0
      ensures reply.Found? ==> exists row | row in sensors.rows ::
        && reply.body == CurrentSensors(row.data.temperature, row.data.humidity, row.data.lightLevel, row.timestamp)
        && forall x | x in sensors.rows :: x.timestamp <= row.timestamp
    {
      var newest := Newest(sensors.rows);
      if newest.None? {
        return NotFound;
      }
      var row := newest.value;
      reply := Found(CurrentSensors(row.data.temperature, row.data.humidity, row.data.lightLevel, row.timestamp));
    }

    method GetCurrentPresence() returns (reply: Reply<CurrentPresence>)
      ensures reply.NotFound? <==> |presence.rows| == 0
      ensures reply.Found? ==> exists row | row in presence.rows ::
        && reply.body == CurrentPresence(SqlTruthy(row.data.presence), row.timestamp)
        && forall x | x in presence.rows :: x.timestamp <= row.timestamp
    {
      var newest := Newest(presence.rows);
      if newest.None? {
        return NotFound;
      }
      var row := newest.value;
      reply := Found(CurrentPresence(SqlTruthy(row.data.presence), row.timestamp));
    }

    method GetActuatorsStatus() returns (reply: Reply<ActuatorsStatus>)
      ensures reply.NotFound? <==> |actuators.rows| == 0
      ensures reply.Found? ==> exists row | row in actuators.rows ::
        && reply.body == ActuatorsStatus(SqlTruthy(row.data.relay1), SqlTruthy(row.data.relay2),
                                         SqlTruthy(row.data.autoMode), row.timestamp)
        && forall x | x in actuators.rows :: x.timestamp <= row.timestamp
    {
      var newest := Newest(actuators.rows);
      if newest.None? {
        return NotFound;
      }
      var row := newest.value;
      reply := Found(ActuatorsStatus(SqlTruthy(row.data.relay1), SqlTruthy(row.data.relay2),
                                     SqlTruthy(row.data.autoMode), row.timestamp));
    }

    /** `get_energy_history`: the selected rows, one point per row, in ascending time order. */
    method GetEnergyHistory(hours: Option<int>, now: int) returns (points: seq<HistoryPoint>)
      ensures var rows := HistoryRows(energy.rows, hours, now);
        |points| == |rows| && forall k :: 0 <= k < |rows| ==> points[k] == HistoryPointOf(rows[k])
      ensures forall i, j :: 0 <= i < j < |points| ==> points[i].timestamp <= points[j].timestamp
    {
      var rows := HistoryRows(energy.rows, hours, now);
      points := HistoryPoints(rows);
    }

    /** `get_alerts`: the newest fifty alerts, newest first. */
    method GetAlerts() returns (views: seq<AlertView>)
      ensures var rows := LatestAlerts(alerts.rows);
        |views| == |rows| && forall k :: 0 <= k < |rows| ==> views[k] == AlertViewOf(rows[k])
      ensures |views| <= ALERT_LIMIT
      ensures forall i, j :: 0 <= i < j < |views| ==> views[i].timestamp >= views[j].timestamp
    {
      var rows := LatestAlerts(alerts.rows);
      views := AlertViews(rows);
    }

    /** The loop that turns the selected alerts into the response list, keeping their order. */
    static method AlertViews(rows: seq<Row<Alert>>) returns (views: seq<AlertView>)
      ensures |views| == |rows| && forall k :: 0 <= k < |rows| ==> views[k] == AlertViewOf(rows[k])
    {
      views := [];
      for k := 0 to |rows|
        invariant |views| == k
        invariant forall m :: 0 <= m < k ==> views[m] == AlertViewOf(rows[m])
      {
        views := views + [AlertViewOf(rows[k])];
      }
    }

    /** The loop that turns the selected rows into the response list, keeping their order. */
    static method HistoryPoints(rows: seq<Row<Energy>>) returns (points: seq<HistoryPoint>)
      ensures |points| == |rows| && forall k :: 0 <= k < |rows| ==> points[k] == HistoryPointOf(rows[k])
      ensures SortedBy(rows, false) ==> forall i, j :: 0 <= i < j < |points| ==> points[i].timestamp <= points[j].timestamp
    {
      points := [];
      for k := 0 to |rows|
        invariant |points| == k
        invariant forall m :: 0 <= m < k ==> points[m] == HistoryPointOf(rows[m])
      {
        points := points + [HistoryPointOf(rows[k])];
      }
      if SortedBy(rows, false) {
        forall i, j | 0 <= i < j < |points| ensures points[i].timestamp <= points[j].timestamp {
          assert Key(rows[i], false) <= Key(rows[j], false);
        }
      }
    }
  }
}
