# PDS-32 energy management: a Dafny model

This project models the two programs at the core of the PDS-32 home energy
system:

- **The ESP32 firmware** (`esp32-firmware/src/main.cpp`). It reads the DHT22,
  the current sensor, the light sensor and the PIR sensor. It accumulates the
  energy counter and runs the automation rules on two relays: relay 1 drives
  the HVAC and relay 2 the lights. It obeys commands that arrive over MQTT on
  `home/control/command`, and publishes its relay status on
  `home/actuators/status`.
- **The Flask backend** (`backend/app.py`). Its MQTT callback stores every
  measurement in an SQLite table. It derives the cost of an energy reading
  (energy_total × 0.15 per kWh). It raises threshold alerts, with a one-hour
  de-duplication per alert type. Its HTTP handlers return:
  - the newest row of each table;
  - the energy history over the last N hours;
  - the newest fifty alerts.

  Further handlers resolve an alert and forward a dashboard relay command to
  the firmware.

## Modules

- **`json.dfy`, module `Json`**: the decoded JSON value both programs work on,
  and `Option`.
- **`tables.dfy`, module `Tables`**: the append-only SQLite tables and their
  queries, written once for every row type:
  - `AUTOINCREMENT` ids;
  - the newest row;
  - `WHERE timestamp > cutoff`;
  - `ORDER BY timestamp` and `LIMIT`.

  Each query comes with lemmas giving the sorted order, the multiset of rows
  kept, and which rows a limit leaves out.
- **`backend.dfy`, module `Backend`**:
  - **Reading a payload**: Python's `dict.get` with and without a default, the
    numeric coercions and `TypeError`s of `*`, `>` and `<`, and SQLite
    parameter binding.
  - **Rules**: the record each `store_*` function inserts, and the alert rules.
  - **Alerts**: `create_alert`'s de-duplication as a function on the alerts
    table, with the invariant it keeps (`AlertsSpaced`), and `resolve_alert`.
  - **Routing**: `on_message` as a pure function `Ingest` on the whole store,
    and the `Database` class. The class's methods update the five tables in
    place and are proved against those functions.
  - **Handlers**: the read handlers and `control_relay`.
- **`firmware.dfy`, module `Firmware`**:
  - **Time**: `millis()` arithmetic modulo 2^32 (`Elapsed`).
  - **Commands**: the C-string command parser.
  - **Step functions**: the command, timer, automation, presence and energy
    steps as pure functions on a `Control` value.
  - **The `Controller` class**: it holds the firmware's globals and records
    every status message it publishes in `published`. Its methods mirror
    `mqttCallback`, `checkAutoModeTimer`, `runAutomation`, `setRelay1`/`setRelay2`,
    `readSensors` and `loop`.
- **`commandpath.dfy`, module `CommandPath`**: joins the two programs. What
  `control_relay` publishes is what `mqttCallback` reads back, and every
  dashboard command word selects the command it names.

Time is an argument everywhere:
- the backend's `CURRENT_TIMESTAMP` and `datetime('now')` become an integer
  number of seconds `now`;
- each firmware routine receives one `u32` value of `millis()`.

The connection state of the MQTT client (`mqtt.connected()`) is the
controller's `connected` field. `Loop` receives it as the state the reconnect
step left.

## Model

| member | source | states |
|---|---|---|
| Tables.Table.Append | backend/app.py:153-165 | An INSERT appends one row stamped `now` after the existing rows. The row gets an id larger than every earlier id, so a valid table (ascending ids below `nextId`) stays valid. |
| Tables.Newest | backend/app.py:343-348 | `ORDER BY timestamp DESC LIMIT 1`: `None` exactly for an empty table; otherwise a row of the table whose timestamp no other row exceeds. |
| Tables.SortBy | backend/app.py:374-377 | `ORDER BY timestamp`: a permutation (same multiset and length) of its input, sorted ascending or descending. |
| Tables.After | backend/app.py:374-376 | `WHERE timestamp > cutoff`: a sub-multiset of the rows, holding every row after the cut-off exactly as often as the table does and nothing else. |
| Tables.SinceWindow | backend/app.py:373-378 | The history query yields rows in ascending time order. Each row after the cut-off appears exactly as often as stored; every row returned is a table row after the cut-off. |
| Tables.Take | backend/app.py:563-567 | `LIMIT n`: the first min(n, length) rows, a sub-multiset of the input. |
| Tables.TakeKeepsNewest | backend/app.py:563-567 | After sorting newest-first and limiting to n, a row left out exists only when there were more than n rows, and it is no newer than any row kept. |
| Tables.LatestNewest | backend/app.py:563-567 | `ORDER BY timestamp DESC LIMIT n`: min(n, length) rows, newest first, a sub-multiset of the table, and no row left out is newer than a row kept. |
| Backend.Get | backend/app.py:156-163 | `data.get(k)` is the stored value when the key is present and `None` when it is absent. |
| Backend.GetOr | backend/app.py:151 | `data.get(k, d)` falls back to the default only when the key is absent; an explicit `null` stays `None`. |
| Backend.AsNumber | backend/app.py:222-238 | Only numbers and booleans (as 1/0) take part in `*`, `>` and `<`. `None`, strings, lists and objects raise `TypeError`. |
| Backend.Truthy | backend/app.py:476-478 | `not command` holds exactly for the six falsy JSON values: `null`, `false`, `0`, `""`, `[]` and `{}`. |
| Backend.Bind | backend/app.py:154-164 | A parameter binds unless it is a list or a dict. Numbers and booleans bind as numbers, a string binds as TEXT, and `None` binds as NULL. |
| Backend.Cost | backend/app.py:151 | The cost is computed exactly when energy_total is absent or numeric. It is 0 when absent, else energy_total × 0.15. |
| Backend.EnergyRecord | backend/app.py:147-167 | The energy row is inserted exactly when the cost can be computed and all five columns bind. Each of `device_id`, `power`, `voltage`, `current` and `energy_total` holds the bound value of its key, and the cost column holds the derived cost. |
| Backend.SensorRecord | backend/app.py:169-185 | A sensor row is inserted exactly when all four columns bind, and each column holds the bound value of its key. |
| Backend.PresenceRecord | backend/app.py:187-201 | A presence row is inserted exactly when both columns bind, and each column holds the bound value of its key. |
| Backend.ActuatorRecord | backend/app.py:203-219 | An actuator row is inserted exactly when all four columns bind, and each column holds the bound value of its key. |
| Backend.EnergyAlertRequests | backend/app.py:221-229 | Power above 2000 asks for exactly one HIGH_CONSUMPTION warning carrying the reading. Power equal to 0, or missing, asks for exactly one POWER_FAILURE critical. The rules ask for nothing exactly when neither holds, which includes a non-numeric power. |
| Backend.TemperatureAlertRequests | backend/app.py:231-238 | Above 30 asks for HIGH_TEMPERATURE and below 15 for LOW_TEMPERATURE, each exactly when it holds. The rules ask for nothing exactly when neither holds: 15..30 and a non-numeric temperature. A missing temperature counts as 0, i.e. LOW_TEMPERATURE. |
| Backend.FindRecent | backend/app.py:245-251 | The de-duplication SELECT finds a row exactly when an unresolved alert of the type is younger than an hour, and the id it returns is such a row's. |
| Backend.WithAlert | backend/app.py:240-260 | `create_alert` leaves the table unchanged when a suppressing alert exists. Otherwise it appends exactly one unresolved alert of the requested type, severity and reading, stamped `now`. |
| Backend.WithAlerts | backend/app.py:221-238 | Creating the rules' requests in order only appends, at most one row per request, and every new row is unresolved and stamped `now`. No request leaves the table as it was, and one request is one `create_alert`. Afterwards every requested type has an unresolved alert from the trailing hour. |
| Backend.WithAlertSuppresses | backend/app.py:240-260 | After `create_alert`, an unresolved alert of the requested type from the trailing hour exists, whether old or just inserted. |
| Backend.WithAlertsNewRows | backend/app.py:221-260 | Each row a run inserts is the alert of one of the requests, with its type, severity and reading, and its type was not suppressed before the run. |
| Backend.WithAlertsDistinctKinds | backend/app.py:221-260 | No two rows one run inserts share a type. |
| Backend.WithAlertsInOrder | backend/app.py:221-260 | Rows one run inserts come in the order of their requests. |
| Backend.WithAlertKeepsSpaced | backend/app.py:240-260 | Creating an alert keeps the table valid and keeps the de-duplication invariant: a later alert of a type is at least an hour after any unresolved earlier one. |
| Backend.WithAlertsKeepsSpaced | backend/app.py:221-238 | A run of rule requests keeps validity and the invariant, only appends, and appends at most one row per request. |
| Backend.UnresolvedAlertsAnHourApart | backend/app.py:245-251 | In a table with the invariant, two unresolved alerts of the same type are at least an hour apart. |
| Backend.Resolve | backend/app.py:592-596 | `UPDATE ... SET resolved = 1 WHERE id = ?` marks exactly the rows with that id resolved. Ids, timestamps, types, severities and readings are unchanged, as is the next id. |
| Backend.ResolveTouchesOnlyItsRow | backend/app.py:592-596 | A row with another id is left exactly as it was. |
| Backend.ResolveUnknownId | backend/app.py:586-601 | Resolving an id no row has changes nothing. |
| Backend.ResolveIdempotent | backend/app.py:586-601 | Resolving the same id twice is the same as resolving it once. |
| Backend.ResolveKeepsSpaced | backend/app.py:592-596 | Resolving keeps the alerts table valid and the de-duplication invariant. |
| Backend.IngestRouting | backend/app.py:121-145 | `on_message` (`Ingest`): an undecodable or non-object payload, or an unknown topic, changes nothing, and each topic touches only its own table (plus alerts for energy and sensors). An accepted energy or sensor row is appended, then its rules' alerts are created; a rejected one also skips the rules. |
| Backend.IngestEnergy | backend/app.py:130-132 | The energy branch touches only the energy and alerts tables. A rejected row changes nothing. An accepted row is appended, stamped `now`, and then the energy rules' alerts are created. |
| Backend.IngestSensor | backend/app.py:134-136 | The sensor branch touches only the sensor and alerts tables. A rejected row changes nothing. An accepted row is appended, stamped `now`, and then the temperature rules' alerts are created. |
| Backend.IngestPresence | backend/app.py:138-139 | The presence branch touches only the presence table: it appends the record stamped `now` when it binds and changes nothing otherwise. |
| Backend.IngestActuator | backend/app.py:141-142 | The actuator branch touches only the actuator table: it appends the record stamped `now` when it binds and changes nothing otherwise. |
| Backend.IngestKeepsValid | backend/app.py:121-145 | Every message keeps the store valid: ids, derived costs and the alert invariant. It only appends to tables and adds at most one alert. |
| Backend.IngestEnergyKeepsValid | backend/app.py:130-132 | The energy branch keeps the store valid, including the derived cost of the new row, and adds at most one alert. |
| Backend.IngestSensorKeepsValid | backend/app.py:134-136 | The sensor branch keeps the store valid and adds at most one alert. |
| Backend.IngestPresenceKeepsValid | backend/app.py:138-139 | The presence branch keeps the store valid and leaves the alerts alone. |
| Backend.IngestActuatorKeepsValid | backend/app.py:141-142 | The actuator branch keeps the store valid and leaves the alerts alone. |
| Backend.HistoryRows | backend/app.py:365-378 | History rows come in ascending time order, and `hours` defaults to 24. A negative `hours` selects nothing. Otherwise every row newer than `now - hours·3600` appears exactly as often as stored, and no other row appears. |
| Backend.LatestAlerts | backend/app.py:563-568 | The alert query returns min(50, count) rows, newest first, a sub-multiset of the table; no row left out is newer than a row kept. |
| Backend.ControlRelay | backend/app.py:470-485 | A body that is not a JSON object fails, and a falsy or missing `command` is the 400. Otherwise `{"command": c}` is published on `home/control/command` and `c` echoed. |
| Backend.HighConsumptionScenario | backend/app.py:130-132 | A 2500 W reading with energy_total 12 records one HIGH_CONSUMPTION warning carrying 2500 and stores cost 1.8, the exact product 12 × 0.15 (the program's float product is 1.7999999999999998). |
| Backend.HighConsumptionDedupScenario | backend/app.py:240-260 | A repeat of the alert 59 minutes later is suppressed; 61 minutes later it is recorded. |
| Backend.Database.constructor | backend/app.py:35-105 | On a new database file, `init_database` yields five empty, valid tables. |
| Backend.Database.StoreEnergyData | backend/app.py:147-167 | The energy table gains the derived record exactly when the insert succeeds, and stays valid. |
| Backend.Database.StoreSensorData | backend/app.py:169-185 | The sensor table gains the record exactly when the insert succeeds. |
| Backend.Database.StorePresenceData | backend/app.py:187-201 | The presence table gains the record exactly when the insert succeeds. |
| Backend.Database.StoreActuatorState | backend/app.py:203-219 | The actuator table gains the record exactly when the insert succeeds. |
| Backend.Database.CreateAlert | backend/app.py:240-260 | The alerts table becomes `WithAlert` of the old one, and the store stays valid. |
| Backend.Database.CheckEnergyAlerts | backend/app.py:221-229 | The alerts table becomes the old one with the energy rules' requests created in order. |
| Backend.Database.CheckTemperatureAlerts | backend/app.py:231-238 | The alerts table becomes the old one with the temperature rules' request created. |
| Backend.Database.HandleEnergy | backend/app.py:130-132 | The store after the energy branch is `IngestEnergy` of the store before. |
| Backend.Database.HandleSensor | backend/app.py:134-136 | The store after the sensor branch is `IngestSensor` of the store before. |
| Backend.Database.OnMessage | backend/app.py:121-145 | The store after a message is `Ingest` of the store before, and it stays valid. |
| Backend.Database.ResolveAlert | backend/app.py:586-601 | The alerts table becomes `Resolve` of the old one, the store stays valid, and the id is echoed back whether or not it existed. |
| Backend.Database.GetCurrentEnergy | backend/app.py:337-363 | 404 exactly for an empty table; otherwise the columns of a row no other row is newer than. |
| Backend.Database.GetCurrentSensors | backend/app.py:394-418 | 404 exactly for an empty table; otherwise the columns of a newest row. |
| Backend.Database.GetCurrentPresence | backend/app.py:420-442 | 404 exactly for an empty table; otherwise `bool()` of a newest row's presence and its timestamp. |
| Backend.Database.GetActuatorsStatus | backend/app.py:444-468 | 404 exactly for an empty table; otherwise `bool()` of a newest row's three states and its timestamp. |
| Backend.Database.GetEnergyHistory | backend/app.py:365-392 | One point per selected row, in the same order, timestamps ascending. |
| Backend.Database.HistoryPoints | backend/app.py:383-390 | The loop maps each row to its point in order, so sorted rows give ascending points. |
| Backend.Database.GetAlerts | backend/app.py:557-584 | At most 50 alert views, one per selected row in the same order, newest first. |
| Backend.Database.AlertViews | backend/app.py:573-582 | The loop maps each alert row to its view in order. |
| Firmware.Elapsed | esp32-firmware/src/main.cpp:154 | `millis() - since` in `unsigned long`: the plain difference when no wrap occurred, otherwise the difference plus 2^32; in both cases since + d ≡ now (mod 2^32). |
| Firmware.CString | esp32-firmware/src/main.cpp:291 | The C string `strcmp` reads is the longest NUL-free prefix of the text. |
| Firmware.CommandOf | esp32-firmware/src/main.cpp:282-296 | A command pointer exists exactly when the message decoded to an object whose `command` member is a string, and it is that string. |
| Firmware.ParseCommand | esp32-firmware/src/main.cpp:312-352 | A command it selects is the one whose word the C string spells (`ParseCommandName` gives the converse). |
| Firmware.ParseCommandName | esp32-firmware/src/main.cpp:312-352 | The `strcmp` chain selects a command exactly when the C string equals that command's word. |
| Firmware.CStringWithoutNul | esp32-firmware/src/main.cpp:291 | A text without NUL is its own C string. |
| Firmware.CommandNameParses | esp32-firmware/src/main.cpp:312-346 | Each of the seven command words selects its own command. |
| Firmware.Received | esp32-firmware/src/main.cpp:282-352 | A command is received exactly when the message carries a command pointer whose C string is that command's word. |
| Firmware.ApplyCommand | esp32-firmware/src/main.cpp:299-346 | A relay command sets its relay and suspends auto mode from `now`. `auto_on` and `auto_off` set auto mode and cancel a suspension. `reset_energy` zeroes only the counter. The state invariant is kept. |
| Firmware.CommandSteps | esp32-firmware/src/main.cpp:299-355 | A relay command publishes exactly two statuses: first the state with only that relay switched (from `setRelay`), then the final state. Any other recognised command publishes exactly one, the final state. |
| Firmware.TimerStep | esp32-firmware/src/main.cpp:150-174 | The timer changes the state exactly when auto mode is suspended and at least 30000 ms have elapsed, and then re-enables it. Relays, counter and suspension time are untouched. |
| Firmware.AutoOffIsFinal | esp32-firmware/src/main.cpp:335-340 | After `auto_off`, no sequence of timer checks turns auto mode back on. |
| Firmware.AutoOffIsFinalFrom | esp32-firmware/src/main.cpp:152 | A state with auto mode off and no suspension is a fixed point of every timer run. |
| Firmware.ManualOverrideLapses | esp32-firmware/src/main.cpp:150-174 | After a manual relay command at `at`, a timer check at `later` restores auto mode exactly when `later - at` (mod 2^32) is at least 30000, and the relays stay as commanded. |
| Firmware.TimerAcrossWrap | esp32-firmware/src/main.cpp:154-166 | A worked example: a manual command 4096 ms before `millis()` wraps keeps auto mode off at a check 28672 ms later, 24576 ms after the wrap, and lets it back on at a check 32768 ms later. The suspension ends 25904 ms after the wrap. |
| Firmware.LightTarget | esp32-firmware/src/main.cpp:503-522 | Lights go off without presence; with presence they go on below 30 % and off above 70 %, and are kept as they are in between. |
| Firmware.HvacTarget | esp32-firmware/src/main.cpp:524-551 | The HVAC is off without presence. With presence it is on above 28 or below 18 and off within 20..26, and it keeps its state in the dead bands 18..20 and 26..28. |
| Firmware.Automate | esp32-firmware/src/main.cpp:501-552 | The relays become `HvacTarget` and `LightTarget` of the readings and nothing else changes; both are off without presence; the invariant is kept. |
| Firmware.AutomateIdempotent | esp32-firmware/src/main.cpp:501-552 | Running the rules a second time on the same readings changes nothing. |
| Firmware.AutomationSteps | esp32-firmware/src/main.cpp:501-571 | The rules publish one status per relay they switch: the state with only the lights switched comes first when the lights switch, and the final state comes last. None is published exactly when nothing changes. |
| Firmware.ControlPass | esp32-firmware/src/main.cpp:198-206 | Auto mode and its suspension follow `TimerStep`. While auto mode is then on, the relays become the rule targets; otherwise they are unchanged. The counter and the suspension time are untouched, and the invariant is kept. |
| Firmware.ControlSteps | esp32-firmware/src/main.cpp:150-206 | A pass publishes at most three statuses: one for the timer's re-enable, then one per relay the rules switch while auto mode is on. The first is the re-enabled state when the timer fires. With no re-enable they are exactly `AutomationSteps`. The pass publishes nothing exactly when it changes nothing. Each status carries the auto mode after the timer, a controller in manual mode without a suspension publishes nothing, and the last status is the state after the pass. |
| Firmware.FilteredCurrent | esp32-firmware/src/main.cpp:376-385 | The current is the absolute value, zeroed below the 0.1 A noise floor. |
| Firmware.EnergyGain | esp32-firmware/src/main.cpp:388-394 | The energy added is non-negative for non-negative power, and none on the first read or when no time passed. |
| Firmware.EnergyGainRate | esp32-firmware/src/main.cpp:388-394 | After the first read, the energy added is power × elapsed ms / 3.6e9 kWh. |
| Firmware.LightPercent | esp32-firmware/src/main.cpp:397-398 | `map(raw, 0, 4095, 0, 100)` is the percentage rounded down, between 0 and 100. |
| Firmware.PresenceStep | esp32-firmware/src/main.cpp:400-414 | A high PIR marks presence at `now`. A low one keeps the last time and keeps presence exactly while at most 3000 ms have passed (mod 2^32). |
| Firmware.PresenceHolds | esp32-firmware/src/main.cpp:400-414 | Presence set by a high reading survives a low reading up to 3000 ms later. |
| Firmware.Sample | esp32-firmware/src/main.cpp:359-416 | One `readSensors`:<ul><li>the climate pair is replaced only when both values are numbers;</li><li>current is `FilteredCurrent` and power is 220 × current;</li><li>the counter grows by `EnergyGain` and never decreases;</li><li>light is `LightPercent`;</li><li>presence follows `PresenceStep`;</li><li>the last read time is untouched.</li></ul> |
| Firmware.SensorPass | esp32-firmware/src/main.cpp:186-190 | The sensor globals are unchanged exactly when fewer than 100 ms have passed since the last read. Otherwise they become a full `Sample` with the read time `now`. The counter never decreases. |
| Firmware.LoggedConcat | esp32-firmware/src/main.cpp:483-498 | Publishing two batches of statuses one after the other logs the same as publishing their concatenation. |
| Firmware.PublishedSteps | esp32-firmware/src/main.cpp:299-355 | The handler's `setRelay` publication followed by its final publication is the log of `CommandSteps`. |
| Firmware.Controller.constructor | esp32-firmware/src/main.cpp:85-109 | The globals start with auto mode on, relays off, counters and timestamps zero, and nothing published. |
| Firmware.Controller.PublishActuatorStatus | esp32-firmware/src/main.cpp:483-498 | While connected, one status message with the current relays and auto mode is logged; otherwise nothing. |
| Firmware.Controller.SetRelay1 | esp32-firmware/src/main.cpp:555-562 | Relay 1 takes the state and the new status is published. |
| Firmware.Controller.SetRelay2 | esp32-firmware/src/main.cpp:564-571 | Relay 2 takes the state and the new status is published. |
| Firmware.Controller.ManualRelayControl | esp32-firmware/src/main.cpp:299-307 | The state becomes `ApplyCommand` of the relay command, and the intermediate status (auto mode not yet suspended) is published. |
| Firmware.Controller.Execute | esp32-firmware/src/main.cpp:312-346 | The selected branch leaves the state `ApplyCommand` of the command. Only a relay branch publishes (once). |
| Firmware.Controller.MqttCallback | esp32-firmware/src/main.cpp:277-356 | An undecodable message, a missing command or an unknown command changes nothing and publishes nothing. A recognised command leaves `ApplyCommand` of the state and publishes exactly `CommandSteps`. |
| Firmware.Controller.CheckAutoModeTimer | esp32-firmware/src/main.cpp:150-174 | The state becomes `TimerStep` of the old one, and a status is published exactly when auto mode was re-enabled. |
| Firmware.Controller.RunAutomation | esp32-firmware/src/main.cpp:501-552 | The state becomes `Automate` of the old one on the current readings, and the log gains exactly `AutomationSteps`. |
| Firmware.Controller.LightRules | esp32-firmware/src/main.cpp:503-522 | Relay 2 becomes `LightTarget`; one status is published exactly when it changed. |
| Firmware.Controller.ClimateRules | esp32-firmware/src/main.cpp:524-551 | Relay 1 becomes `HvacTarget`; one status is published exactly when it changed. |
| Firmware.Controller.ReadSensors | esp32-firmware/src/main.cpp:359-416 | Each of the readings gets its own rule:<ul><li>the climate pair is replaced only when both values are numbers;</li><li>current is `FilteredCurrent` and power is 220 × current;</li><li>the counter grows by `EnergyGain` and never decreases;</li><li>light is `LightPercent`;</li><li>presence follows `PresenceStep`.</li></ul> |
| Firmware.Controller.AccumulateEnergy | esp32-firmware/src/main.cpp:388-394 | The counter grows by `EnergyGain` since the previous read, and the read time becomes `now`. |
| Firmware.Controller.TrackPresence | esp32-firmware/src/main.cpp:400-414 | Presence and its time follow `PresenceStep`. |
| Firmware.Controller.SensorTick | esp32-firmware/src/main.cpp:186-190 | The sensor globals become `SensorPass` of the old ones: a full `Sample` with the read time set to `now` once 100 ms have passed, and all of them unchanged otherwise. |
| Firmware.Controller.ControlTick | esp32-firmware/src/main.cpp:198-206 | The control state becomes `ControlPass` of the old one on the current readings, and the log gains exactly `ControlSteps` when connected. |
| Firmware.Controller.Loop | esp32-firmware/src/main.cpp:176-207 | One pass keeps the invariant and leaves the connection state `link`. The sensor globals become `SensorPass` of the old ones at the read instant. The control state becomes `ControlPass` on the fresh readings at the later check instant, and the log gains exactly `ControlSteps` when connected. Incoming commands are handled between passes (see Left out). |
| CommandPath.RelayCommandReachesDevice | backend/app.py:470-485 | What `control_relay` publishes goes to the firmware's control topic. Once decoded, a string command arrives as that text and any other truthy command is ignored. The 256-byte limits are not modelled (see Left out). |
| CommandPath.DashboardCommandArrives | esp32-firmware/src/main.cpp:291-346 | Each dashboard command word sent through `control_relay` arrives at the firmware as the command it names. |

## Left out

- **Backend routes outside the core** (`backend/app.py:487-556`, `603-665`):
  the statistics and analytics endpoints, the HTML dashboard, Flask routing and
  CORS. These serve reporting only.
- **The MQTT client threads, and the race between concurrent messages:** two
  concurrent `create_alert` calls could both pass the de-duplication SELECT.
  The model handles one message at a time.
- **The JSON codecs:** `json.loads`, `deserializeJson` and `serializeJson`.
  Also the 256-byte ArduinoJson document capacity: a message too large for it
  is modelled as one that failed to decode.
- **Timestamp text format:** SQLite stores timestamps as `YYYY-MM-DD HH:MM:SS`
  text; the model uses integer seconds, whose order is the same. Rows with equal
  timestamps come back in an order SQLite leaves open. `Newest` picks the last
  inserted, and `SortBy` is one stable choice.
- **SQLite column affinity:** the conversion of numeric-looking text to numbers
  in REAL, INTEGER and BOOLEAN columns is not modelled. Such a value is kept as
  text, so `bool()` in the read handlers sees the text.
- **The alert `message` column** (a French text with the reading formatted into
  it): the model keeps the reading itself instead of the formatted text.
- **Floating point:** all `float`s of the firmware and Python's floats are
  mathematical reals; NaN is modelled only as the DHT pair being absent.
- **WiFi setup and the reconnect loop** (`connectWiFi`, `reconnectMQTT`) and
  `setup()`: the connection state is an input of `Loop`.
- **`publishData` and its 5-second period** (`main.cpp:193-197`, `418-463`): the
  published log holds only actuator status messages. The energy, sensor and
  presence messages, and the status that `publishData` sends, are not logged.
- **`Serial` output and the static `lastPrint` countdown in
  `checkAutoModeTimer`, `blinkLED`, `digitalWrite` and the status LED:** these
  have no effect on the modelled state.
- **The hardware:** the DHT22, `analogRead` and the ACS712 voltage-to-amps
  conversion, and `digitalRead` are inputs (`Reading`). The conversion from the
  ADC value to amperes is not modelled; the sensed current is given.
- **`millis()`** is read once per routine, and twice per pass of `loop`: once
  for the sensor read and once for the timer and the rules. The source reads
  it several times within `readSensors` and `mqttCallback`, and the DHT22 read
  inside `readSensors` takes time, so these reads can differ. Within one pass,
  `publishData` runs `delay(500)` (`main.cpp:478`) between the sensor read and
  the timer, which is why `Loop` takes two instants.
- **The `device_id` and `timestamp` fields of the firmware's messages:** a
  status message records the relays, auto mode and the `now` of its routine.
- Firmware.Controller.Loop: the pass does not call `mqtt.loop()` (`main.cpp:183`). In the firmware that call runs `mqttCallback` inside the pass, between the reconnect and the sensor read. The model delivers each command by a separate `MqttCallback` call between passes, so it does not place a command inside a pass.
- Backend.Bind: Python integers outside the signed 64-bit range make the binding raise `OverflowError`, so that message stores no row and raises no alert. JSON numbers are reals here, with no integer/float distinction, so the model binds every number.
- CommandPath.RelayCommandReachesDevice: starts from the decoded payload. The firmware's 256-byte `StaticJsonDocument` (`main.cpp:282`) and the MQTT client's packet size drop a long command before it is read. The model does not bound the command's length.
- Backend.Database.GetCurrentEnergy and the other `GetCurrent*` handlers: the row they pick among rows with equal newest timestamps is the last inserted, where SQLite leaves the choice open.
