/**
 * The ESP32 controller (esp32-firmware/src/main.cpp): the globals the main
 * loop updates in place, the command handler for `home/control/command`, the
 * 30-second re-enable timer of the automatic mode, the light and climate
 * rules, and the presence and energy bookkeeping of the sensor read.
 *
 * `millis()` is the unsigned 32-bit `now` each routine is given; every
 * difference of two instants is taken modulo 2^32, as unsigned subtraction
 * does. Sensor readings arrive as parameters. Every status message the
 * controller publishes is appended to `published`.
 */
module Firmware {

  import opened Json

  newtype u32 = x: int | 0 <= x < 0x1_0000_0000

  const WRAP: int := 0x1_0000_0000

  /** `millis() - since` in `unsigned long` arithmetic. */
  function Elapsed(now: u32, since: u32): (d: u32)
    ensures since <= now ==> d as int == now as int - since as int
    ensures since > now ==> d as int == WRAP + now as int - since as int
    ensures (since as int + d as int) % WRAP == now as int
  {
    ((now as int - since as int) % WRAP) as u32
  }

  const AUTO_MODE_TIMEOUT: u32 := 30000
  /** 3000 ms, although the comment beside it speaks of five minutes. */
  const PRESENCE_TIMEOUT: u32 := 3000
  const SENSOR_READ_INTERVAL: u32 := 100
  const LOW_LIGHT: int := 30
  const BRIGHT_LIGHT: int := 70
  const HOT: real := 28.0
  const COLD: real := 18.0
  const COMFORT_LOW: real := 20.0
  const COMFORT_HIGH: real := 26.0
  const VOLTAGE: real := 220.0
  const NOISE_FLOOR: real := 0.1
  const ADC_MAX: int := 4095

  // ---------------------------------------------------------------- commands

  datatype Command = Relay1(on: bool) | Relay2(on: bool) | AutoOn | AutoOff | ResetEnergy

  /** The text `strcmp` sees: a C string ends at its first NUL. */
  function CString(s: string): (c: string)
    ensures c <= s && '\0' !in c
    ensures c == s || s[|c|] == '\0'
  {
    if |s| == 0 || s[0] == '\0' then []
    else
      var rest := CString(s[1..]);
      assert s == [s[0]] + s[1..];
      [s[0]] + rest
  }

  /**
   * `const char *command = doc["command"]`: the member `command` of a decoded
   * object when it is a string; a null pointer for anything else, as for a
   * document that failed to parse.
   */
  function CommandOf(decoded: Option<Json>): (text: Option<string>)
    ensures text.Some? <==>
      decoded.Some? && decoded.value.JObject? && "command" in decoded.value.fields
      && decoded.value.fields["command"].JStr?
    ensures text.Some? ==> text.value == decoded.value.fields["command"].s
  {
    if decoded.Some? && decoded.value.JObject? && "command" in decoded.value.fields
       && decoded.value.fields["command"].JStr?
    then Some(decoded.value.fields["command"].s)
    else None
  }

  /** The command word that selects each command. */
  function CommandName(cmd: Command): string
  {
    match cmd
    case Relay1(on) => if on then "relay1_on" else "relay1_off"
    case Relay2(on) => if on then "relay2_on" else "relay2_off"
    case AutoOn => "auto_on"
    case AutoOff => "auto_off"
    case ResetEnergy => "reset_energy"
  }

  /** The `strcmp` chain of the command handler; `None` is an unknown command. */
  function ParseCommand(text: string): (r: Option<Command>)
    ensures r.Some? ==> CString(text) == CommandName(r.value)
  {
    var c := CString(text);
    if c == "relay1_on" then Some(Relay1(true))
    else if c == "relay1_off" then Some(Relay1(false))
    else if c == "relay2_on" then Some(Relay2(true))
    else if c == "relay2_off" then Some(Relay2(false))
    else if c == "auto_on" then Some(AutoOn)
    else if c == "auto_off" then Some(AutoOff)
    else if c == "reset_energy" then Some(ResetEnergy)
    else None
  }

  /** A text selects a command exactly when its C string is that command's word. */
  lemma {:induction false} ParseCommandName(text: string, cmd: Command)
    ensures ParseCommand(text) == Some(cmd) <==> CString(text) == CommandName(cmd)
  {
    var c := CString(text);
    // the seven words differ pairwise (by length or by one letter)
    assert "relay1_on"[5] != "relay2_on"[5];
    assert "relay1_off"[5] != "relay2_off"[5];
    assert "auto_on"[6] != "auto_off"[6];
  }

  /** A text without NUL is its own C string. */
  lemma {:induction false} CStringWithoutNul(s: string)
    requires '\0' !in s
    ensures CString(s) == s
  {
  }

  /** Every command's word selects that command. */
  lemma {:induction false} CommandNameParses(cmd: Command)
    ensures ParseCommand(CommandName(cmd)) == Some(cmd)
  {
    var word := CommandName(cmd);
    assert '\0' !in word;
    CStringWithoutNul(word);
    ParseCommandName(word, cmd);
  }

  /** What the handler acts on: the command of a decoded message, if it names one. */
  function Received(decoded: Option<Json>): (cmd: Option<Command>)
    ensures forall c :: cmd == Some(c) <==>
      CommandOf(decoded).Some? && CString(CommandOf(decoded).value) == CommandName(c)
  {
    match CommandOf(decoded)
    case None => None
    case Some(text) =>
      assert forall c :: ParseCommand(text) == Some(c) <==> CString(text) == CommandName(c) by {
        forall c ensures ParseCommand(text) == Some(c) <==> CString(text) == CommandName(c) {
          ParseCommandName(text, c);
        }
      }
      ParseCommand(text)
  }

  // ------------------------------------------------------------ control state

  /** The part of the globals that commands, the timer and the rules change. */
  datatype Control = Control(relay1: bool, relay2: bool, autoMode: bool, tempDisabled: bool,
                             disabledTime: u32, energyTotal: real)
  {
    /** Auto mode is never on while it is temporarily disabled; the counter is never negative. */
    ghost predicate Valid()
    {
      !(autoMode && tempDisabled) && energyTotal >= 0.0
    }
  }

  /**
   * The state after a recognised command. A relay command sets its relay and
   * suspends auto mode from `now`; `auto_on`/`auto_off` switch auto mode and
   * cancel a suspension; `reset_energy` only zeroes the counter.
   */
  function ApplyCommand(c: Control, cmd: Command, now: u32): (r: Control)
    ensures r.relay1 == (if cmd.Relay1? then cmd.on else c.relay1)
    ensures r.relay2 == (if cmd.Relay2? then cmd.on else c.relay2)
    ensures r.energyTotal == (if cmd.ResetEnergy? then 0.0 else c.energyTotal)
    ensures cmd.Relay1? || cmd.Relay2? ==> !r.autoMode && r.tempDisabled && r.disabledTime == now
    ensures cmd.AutoOn? ==> r.autoMode && !r.tempDisabled
    ensures cmd.AutoOff? ==> !r.autoMode && !r.tempDisabled
    ensures !cmd.Relay1? && !cmd.Relay2? ==> r.disabledTime == c.disabledTime
    ensures cmd.ResetEnergy? ==> r.autoMode == c.autoMode && r.tempDisabled == c.tempDisabled
    ensures c.Valid() ==> r.Valid()
  {
    match cmd
    case Relay1(on) => c.(relay1 := on, autoMode := false, tempDisabled := true, disabledTime := now)
    case Relay2(on) => c.(relay2 := on, autoMode := false, tempDisabled := true, disabledTime := now)
    case AutoOn => c.(autoMode := true, tempDisabled := false)
    case AutoOff => c.(autoMode := false, tempDisabled := false)
    case ResetEnergy => c.(energyTotal := 0.0)
  }

  /**
   * The states a recognised command publishes, in order: a relay command
   * publishes once from `setRelay` (auto mode not yet suspended) and once at
   * the end; the others once at the end.
   */
  function CommandSteps(c: Control, cmd: Command, now: u32): (steps: seq<Control>)
    ensures |steps| >= 1 && steps[|steps| - 1] == ApplyCommand(c, cmd, now)
    ensures |steps| == if cmd.Relay1? || cmd.Relay2? then 2 else 1
    ensures cmd.Relay1? ==> steps[0] == c.(relay1 := cmd.on)
    ensures cmd.Relay2? ==> steps[0] == c.(relay2 := cmd.on)
  {
    match cmd
    case Relay1(on) => [c.(relay1 := on), ApplyCommand(c, cmd, now)]
    case Relay2(on) => [c.(relay2 := on), ApplyCommand(c, cmd, now)]
    case _ => [ApplyCommand(c, cmd, now)]
  }

  /** `checkAutoModeTimer`: auto mode comes back once a suspension is 30 s old. */
  function TimerStep(c: Control, now: u32): (r: Control)
    ensures r.relay1 == c.relay1 && r.relay2 == c.relay2
    ensures r.energyTotal == c.energyTotal && r.disabledTime == c.disabledTime
    ensures r != c <==> c.tempDisabled && !c.autoMode && Elapsed(now, c.disabledTime) >= AUTO_MODE_TIMEOUT
    ensures r != c ==> r.autoMode && !r.tempDisabled
    ensures c.Valid() ==> r.Valid()
  {
    if c.tempDisabled && !c.autoMode && Elapsed(now, c.disabledTime) >= AUTO_MODE_TIMEOUT then
      c.(autoMode := true, tempDisabled := false)
    else c
  }

  /** The timer checked at each of the given instants in turn. */
  function TimerRun(c: Control, times: seq<u32>): Control
    decreases |times|
  {
    if |times| == 0 then c else TimerRun(TimerStep(c, times[0]), times[1..])
  }

  /** After `auto_off` the timer never turns auto mode back on. */
  lemma {:induction false} AutoOffIsFinal(c: Control, now: u32, times: seq<u32>)
    ensures TimerRun(ApplyCommand(c, AutoOff, now), times) == ApplyCommand(c, AutoOff, now)
    ensures !TimerRun(ApplyCommand(c, AutoOff, now), times).autoMode
    decreases |times|
  {
    var off := ApplyCommand(c, AutoOff, now);
    if |times| > 0 {
      assert TimerStep(off, times[0]) == off;
      AutoOffIsFinalFrom(off, times[1..]);
    }
  }

  /** A state with auto mode off and no suspension is a fixed point of the timer. */
  lemma {:induction false} AutoOffIsFinalFrom(c: Control, times: seq<u32>)
    requires !c.autoMode && !c.tempDisabled
    ensures TimerRun(c, times) == c
    decreases |times|
  {
    if |times| > 0 {
      assert TimerStep(c, times[0]) == c;
      AutoOffIsFinalFrom(c, times[1..]);
    }
  }

  /**
   * A manual relay command suspends auto mode for 30 s: a timer check
   * restores it exactly when at least 30000 ms (modulo 2^32) have passed.
   */
  lemma {:induction false} ManualOverrideLapses(c: Control, cmd: Command, at: u32, later: u32)
    requires cmd.Relay1? || cmd.Relay2?
    ensures var after := TimerStep(ApplyCommand(c, cmd, at), later);
      && (after.autoMode <==> Elapsed(later, at) >= AUTO_MODE_TIMEOUT)
      && after.relay1 == ApplyCommand(c, cmd, at).relay1 && after.relay2 == ApplyCommand(c, cmd, at).relay2
  {
  }

  /**
   * A worked example of the wrap of `millis()` after 49.7 days: a manual
   * command 4096 ms before the wrap keeps auto mode off at a check 28672 ms
   * later (24576 ms after the wrap) and lets it back on at a check 32768 ms
   * later; the suspension ends 25904 ms after the wrap.
   */
  lemma {:induction false} TimerAcrossWrap(c: Control)
    ensures var manual := ApplyCommand(c, Relay1(true), 0xFFFF_F000);
      && !TimerStep(manual, 0x0000_6000).autoMode
      && TimerStep(manual, 0x0000_7000).autoMode
  {
  }

  // -------------------------------------------------------------- automation

  /** Rules 1-3 of `runAutomation`: the light relay after the rules. */
  function LightTarget(presence: bool, light: int, relay2: bool): (on: bool)
    ensures !presence ==> !on
    ensures presence && light < LOW_LIGHT ==> on
    ensures presence && light > BRIGHT_LIGHT ==> !on
    ensures presence && LOW_LIGHT <= light <= BRIGHT_LIGHT ==> on == relay2
  {
    var r := relay2;
    var r := if !presence && r then false else r;
    var r := if presence && light < LOW_LIGHT && !r then true else r;
    if presence && light > BRIGHT_LIGHT && r then false else r
  }

  /** Rule 4 of `runAutomation`: the climate relay, with a dead band between the on and off thresholds. */
  function HvacTarget(presence: bool, temperature: real, relay1: bool): (on: bool)
    ensures !presence ==> !on
    ensures presence && (temperature > HOT || temperature < COLD) ==> on
    ensures presence && COMFORT_LOW <= temperature <= COMFORT_HIGH ==> !on
    ensures presence && (COLD <= temperature < COMFORT_LOW || COMFORT_HIGH < temperature <= HOT) ==> on == relay1
  {
    if presence then
      if temperature > HOT && !relay1 then true
      else if temperature < COLD && !relay1 then true
      else if temperature >= COMFORT_LOW && temperature <= COMFORT_HIGH && relay1 then false
      else relay1
    else
      if relay1 then false else relay1
  }

  /** The relays after `runAutomation`; nothing else changes. */
  function Automate(c: Control, presence: bool, light: int, temperature: real): (r: Control)
    ensures r.autoMode == c.autoMode && r.tempDisabled == c.tempDisabled
    ensures r.disabledTime == c.disabledTime && r.energyTotal == c.energyTotal
    ensures r.relay1 == HvacTarget(presence, temperature, c.relay1)
    ensures r.relay2 == LightTarget(presence, light, c.relay2)
    ensures !presence ==> !r.relay1 && !r.relay2
    ensures c.Valid() ==> r.Valid()
  {
    c.(relay2 := LightTarget(presence, light, c.relay2), relay1 := HvacTarget(presence, temperature, c.relay1))
  }

  /** Running the rules again on the same readings changes nothing. */
  lemma {:induction false} AutomateIdempotent(c: Control, presence: bool, light: int, temperature: real)
    ensures Automate(Automate(c, presence, light, temperature), presence, light, temperature)
         == Automate(c, presence, light, temperature)
  {
  }

  /** The states `runAutomation` publishes: one per relay it switches, the light relay first. */
  function AutomationSteps(c: Control, presence: bool, light: int, temperature: real): (steps: seq<Control>)
    ensures |steps| == (if LightTarget(presence, light, c.relay2) != c.relay2 then 1 else 0)
                     + (if HvacTarget(presence, temperature, c.relay1) != c.relay1 then 1 else 0)
    ensures |steps| == 0 <==> Automate(c, presence, light, temperature) == c
    ensures LightTarget(presence, light, c.relay2) != c.relay2 ==> steps[0] == c.(relay2 := LightTarget(presence, light, c.relay2))
    ensures |steps| > 0 ==> steps[|steps| - 1] == Automate(c, presence, light, temperature)
  {
    var lit := c.(relay2 := LightTarget(presence, light, c.relay2));
    (if lit.relay2 != c.relay2 then [lit] else [])
    + (if HvacTarget(presence, temperature, c.relay1) != c.relay1 then [Automate(c, presence, light, temperature)] else [])
  }

  /**
   * The control part of one pass of `loop()`: the re-enable timer, then the
   * rules only while auto mode is (again) on.
   */
  function ControlPass(c: Control, presence: bool, light: int, temperature: real, now: u32): (r: Control)
    ensures r.autoMode == TimerStep(c, now).autoMode && r.tempDisabled == TimerStep(c, now).tempDisabled
    ensures r.autoMode ==>
      r.relay1 == HvacTarget(presence, temperature, c.relay1) && r.relay2 == LightTarget(presence, light, c.relay2)
    ensures !r.autoMode ==> r.relay1 == c.relay1 && r.relay2 == c.relay2
    ensures r.disabledTime == c.disabledTime && r.energyTotal == c.energyTotal
    ensures c.Valid() ==> r.Valid()
  {
    var t := TimerStep(c, now);
    if t.autoMode then Automate(t, presence, light, temperature) else t
  }

  /**
   * The statuses one control pass of `loop()` publishes: the re-enable of the
   * timer, if any, then one per relay the rules switch while auto mode is on.
   */
  function ControlSteps(c: Control, presence: bool, light: int, temperature: real, now: u32): (steps: seq<Control>)
    ensures |steps| <= 3
    ensures |steps| == (if TimerStep(c, now) != c then 1 else 0)
                     + (if TimerStep(c, now).autoMode then |AutomationSteps(TimerStep(c, now), presence, light, temperature)| else 0)
    ensures steps == [] <==> ControlPass(c, presence, light, temperature, now) == c
    ensures TimerStep(c, now) != c ==> steps[0] == TimerStep(c, now)
    ensures TimerStep(c, now) == c && c.autoMode ==> steps == AutomationSteps(c, presence, light, temperature)
    ensures !c.autoMode && !c.tempDisabled ==> steps == []
    ensures forall k :: 0 <= k < |steps| ==>
      steps[k].autoMode == TimerStep(c, now).autoMode && steps[k].energyTotal == c.energyTotal
    ensures |steps| > 0 ==> steps[|steps| - 1] == ControlPass(c, presence, light, temperature, now)
  {
    var t := TimerStep(c, now);
    (if t != c then [t] else []) + (if t.autoMode then AutomationSteps(t, presence, light, temperature) else [])
  }

  // ------------------------------------------------------------------ sensors

  /** `abs(...)` and the 0.1 A noise filter applied to the sensed current. */
  function FilteredCurrent(amps: real): (i: real)
    ensures i >= 0.0 && (i == 0.0 || i >= NOISE_FLOOR)
    ensures i == 0.0 <==> -NOISE_FLOOR < amps < NOISE_FLOOR
    ensures i != 0.0 ==> i == amps || i == -amps
  {
    var a := if amps < 0.0 then -amps else amps;
    if a < NOISE_FLOOR then 0.0 else a
  }

  /**
   * kWh added for `power` watts since the previous read at `last`: none on
   * the first read (`last` still 0) or when no time has passed.
   */
  function EnergyGain(power: real, last: u32, now: u32): (kwh: real)
    ensures power >= 0.0 ==> kwh >= 0.0
    ensures last == 0 || now == last ==> kwh == 0.0
  {
    var timeDiff := Elapsed(now, last);
    if last > 0 && timeDiff > 0 then
      var hours := timeDiff as real / 3600000.0;
      power * hours / 1000.0
    else 0.0
  }

  /** After the first read, the energy added is `power` watts times the elapsed milliseconds, in kWh. */
  lemma {:induction false} EnergyGainRate(power: real, last: u32, now: u32)
    requires last != 0 && now != last
    ensures EnergyGain(power, last, now) * 3600000.0 * 1000.0 == power * Elapsed(now, last) as real
  {
    var hours := Elapsed(now, last) as real / 3600000.0;
    assert hours * 3600000.0 == Elapsed(now, last) as real;
  }

  type Adc = x: int | 0 <= x <= 4095

  /** `map(raw, 0, 4095, 0, 100)`: the integer percentage, rounded down. */
  function LightPercent(raw: Adc): (pct: int)
    ensures 0 <= pct <= 100
    ensures pct * ADC_MAX <= raw * 100 < (pct + 1) * ADC_MAX
  {
    raw * 100 / ADC_MAX
  }

  /**
   * The PIR rule: a high reading marks presence at `now`; a low one clears
   * it only once more than 3000 ms have passed since the last high reading.
   */
  function PresenceStep(presence: bool, lastSeen: u32, pir: bool, now: u32): (r: (bool, u32))
    ensures pir ==> r == (true, now)
    ensures !pir ==> r.1 == lastSeen
    ensures !pir ==> (r.0 <==> presence && Elapsed(now, lastSeen) <= PRESENCE_TIMEOUT)
  {
    if pir then (true, now)
    else if Elapsed(now, lastSeen) > PRESENCE_TIMEOUT then (false, lastSeen)
    else (presence, lastSeen)
  }

  /** Presence stays for 3000 ms after the last high reading, whatever the wrap of `millis()`. */
  lemma {:induction false} PresenceHolds(presence: bool, seen: u32, now: u32)
    requires Elapsed(now, seen) <= PRESENCE_TIMEOUT
    ensures PresenceStep(PresenceStep(presence, seen, true, seen).0, seen, false, now) == (true, seen)
  {
  }

  /** One sensor sample: the DHT pair (`None` when either is NaN), the sensed current, the light ADC and the PIR pin. */
  datatype Climate = Climate(humidity: real, temperature: real)
  datatype Reading = Reading(climate: Option<Climate>, amps: real, rawLight: Adc, pir: bool)

  /** The globals `readSensors` and the 100 ms gate of `loop()` change. */
  datatype Sensed = Sensed(temperature: real, humidity: real, current: real, power: real, energyTotal: real,
                           energyLastUpdate: u32, lightLevel: int, presence: bool, lastPresenceTime: u32,
                           lastSensorRead: u32)

  /**
   * `readSensors` on one sample: the DHT pair only when both are numbers, the
   * filtered current and its power, the energy since the previous read, the
   * light percentage and the PIR rule.
   */
  function Sample(s: Sensed, reading: Reading, now: u32): (r: Sensed)
    ensures reading.climate.Some? ==>
      r.temperature == reading.climate.value.temperature && r.humidity == reading.climate.value.humidity
    ensures reading.climate.None? ==> r.temperature == s.temperature && r.humidity == s.humidity
    ensures r.current == FilteredCurrent(reading.amps) && r.power == VOLTAGE * r.current && r.power >= 0.0
    ensures r.energyTotal == s.energyTotal + EnergyGain(r.power, s.energyLastUpdate, now)
    ensures r.energyTotal >= s.energyTotal && r.energyLastUpdate == now
    ensures r.lightLevel == LightPercent(reading.rawLight) && 0 <= r.lightLevel <= 100
    ensures (r.presence, r.lastPresenceTime) == PresenceStep(s.presence, s.lastPresenceTime, reading.pir, now)
    ensures r.lastSensorRead == s.lastSensorRead
  {
    var climate := if reading.climate.Some? then reading.climate.value else Climate(s.humidity, s.temperature);
    var current := FilteredCurrent(reading.amps);
    var seen := PresenceStep(s.presence, s.lastPresenceTime, reading.pir, now);
    Sensed(climate.temperature, climate.humidity, current, VOLTAGE * current,
           s.energyTotal + EnergyGain(VOLTAGE * current, s.energyLastUpdate, now), now,
           LightPercent(reading.rawLight), seen.0, seen.1, s.lastSensorRead)
  }

  /** The 100 ms gate of `loop()`: a sample once 100 ms have passed since the previous one. */
  function SensorPass(s: Sensed, reading: Reading, now: u32): (r: Sensed)
    ensures r == s <==> Elapsed(now, s.lastSensorRead) < SENSOR_READ_INTERVAL
    ensures Elapsed(now, s.lastSensorRead) >= SENSOR_READ_INTERVAL ==> r == Sample(s, reading, now).(lastSensorRead := now)
    ensures r != s ==> r.lastSensorRead == now
    ensures r.energyTotal >= s.energyTotal
  {
    if Elapsed(now, s.lastSensorRead) >= SENSOR_READ_INTERVAL then Sample(s, reading, now).(lastSensorRead := now) else s
  }

  /** A message on `home/actuators/status`. */
  datatype Status = Status(timestamp: u32, relay1: bool, relay2: bool, autoMode: bool)

  function Report(c: Control, now: u32): Status
  {
    Status(now, c.relay1, c.relay2, c.autoMode)
  }

  /** The log after publishing `steps` at `now`: publishing is skipped while the client is disconnected. */
  function Logged(log: seq<Status>, connected: bool, steps: seq<Control>, now: u32): seq<Status>
  {
    if connected then log + seq(|steps|, k requires 0 <= k < |steps| => Report(steps[k], now)) else log
  }

  lemma {:induction false} LoggedConcat(log: seq<Status>, connected: bool, s1: seq<Control>, s2: seq<Control>, now: u32)
    ensures Logged(Logged(log, connected, s1, now), connected, s2, now) == Logged(log, connected, s1 + s2, now)
  {
    if connected {
      var a, b := Logged(Logged(log, connected, s1, now), connected, s2, now), Logged(log, connected, s1 + s2, now);
      assert |a| == |b|;
      forall k | 0 <= k < |a| ensures a[k] == b[k] {
        if k < |log| {
        } else if k < |log| + |s1| {
          assert a[k] == Logged(log, connected, s1, now)[k];
        } else {
          assert (s1 + s2)[k - |log|] == s2[k - |log| - |s1|];
        }
      }
    }
  }

  /** The handler's log: what the command's own steps published, then the final status. */
  lemma {:induction false} PublishedSteps(log: seq<Status>, mid: seq<Status>, connected: bool, c: Control, cmd: Command, now: u32)
    requires cmd.Relay1? || cmd.Relay2? ==> mid == Logged(log, connected, [CommandSteps(c, cmd, now)[0]], now)
    requires !cmd.Relay1? && !cmd.Relay2? ==> mid == log
    ensures Logged(mid, connected, [ApplyCommand(c, cmd, now)], now) == Logged(log, connected, CommandSteps(c, cmd, now), now)
  {
  }

  // -------------------------------------------------------------- controller

  class Controller {
    var relay1State: bool
    var relay2State: bool
    var autoMode: bool
    var autoModeTemporarilyDisabled: bool
    var autoModeDisabledTime: u32
    var energyTotal: real
    var presenceDetected: bool
    var lastPresenceTime: u32
    var temperature: real
    var humidity: real
    var current: real
    var power: real
    var lightLevel: int
    var energyLastUpdate: u32
    var lastSensorRead: u32
    /** `mqtt.connected()`. */
    var connected: bool
    /** Every status message published so far. */
    var published: seq<Status>

    function Mode(): Control
      reads this
    {
      Control(relay1State, relay2State, autoMode, autoModeTemporarilyDisabled, autoModeDisabledTime, energyTotal)
    }

    function Sensors(): Sensed
      reads this`temperature, this`humidity, this`current, this`power, this`energyTotal, this`energyLastUpdate,
            this`lightLevel, this`presenceDetected, this`lastPresenceTime, this`lastSensorRead
    {
      Sensed(temperature, humidity, current, power, energyTotal, energyLastUpdate, lightLevel,
             presenceDetected, lastPresenceTime, lastSensorRead)
    }

    ghost predicate Valid()
      reads this
    {
      Mode().Valid() && current >= 0.0 && power >= 0.0 && 0 <= lightLevel <= 100
    }

    /** The globals' initial values: auto mode on, everything else off or zero, nothing published. */
    constructor (connected: bool)
      ensures Valid()
      ensures Mode() == Control(false, false, true, false, 0, 0.0)
      ensures !presenceDetected && lastPresenceTime == 0 && energyLastUpdate == 0 && lastSensorRead == 0
      ensures temperature == 0.0 && humidity == 0.0 && lightLevel == 0
      ensures this.connected == connected && published == []
    {
      relay1State, relay2State := false, false;
      autoMode, autoModeTemporarilyDisabled, autoModeDisabledTime := true, false, 0;
      energyTotal, presenceDetected, lastPresenceTime := 0.0, false, 0;
      temperature, humidity, current, power, lightLevel := 0.0, 0.0, 0.0, 0.0, 0;
      energyLastUpdate, lastSensorRead := 0, 0;
      this.connected := connected;
      published := [];
    }

    method PublishActuatorStatus(now: u32)
      modifies this`published
      ensures published == Logged(old(published), connected, [Mode()], now)
    {
      if connected {
        published := published + [Report(Mode(), now)];
      }
    }

    method SetRelay1(state: bool, now: u32)
      modifies this`relay1State, this`published
      ensures relay1State == state
      ensures published == Logged(old(published), connected, [Mode()], now)
    {
      relay1State := state;
      PublishActuatorStatus(now);
    }

    method SetRelay2(state: bool, now: u32)
      modifies this`relay2State, this`published
      ensures relay2State == state
      ensures published == Logged(old(published), connected, [Mode()], now)
    {
      relay2State := state;
      PublishActuatorStatus(now);
    }

    /** The handler's `manualRelayControl` lambda: switch one relay, then suspend auto mode from `now`. */
    method ManualRelayControl(cmd: Command, now: u32)
      requires cmd.Relay1? || cmd.Relay2?
      modifies this`relay1State, this`relay2State, this`autoMode, this`autoModeTemporarilyDisabled,
               this`autoModeDisabledTime, this`published
      ensures Mode() == ApplyCommand(old(Mode()), cmd, now)
      ensures published == Logged(old(published), connected, [CommandSteps(old(Mode()), cmd, now)[0]], now)
    {
      if cmd.Relay1? {
        SetRelay1(cmd.on, now);
      } else {
        SetRelay2(cmd.on, now);
      }
      autoMode := false;
      autoModeTemporarilyDisabled := true;
      autoModeDisabledTime := now;
    }

    /** The branch of the handler's `strcmp` chain that a recognised command selects. */
    method Execute(cmd: Command, now: u32)
      requires Valid()
      modifies this`relay1State, this`relay2State, this`autoMode, this`autoModeTemporarilyDisabled,
               this`autoModeDisabledTime, this`energyTotal, this`published
      ensures Valid()
      ensures Mode() == ApplyCommand(old(Mode()), cmd, now)
      ensures cmd.Relay1? || cmd.Relay2? ==> published == Logged(old(published), connected, [CommandSteps(old(Mode()), cmd, now)[0]], now)
      ensures !cmd.Relay1? && !cmd.Relay2? ==> published == old(published)
    {
      match cmd
      case Relay1(on) =>
        ManualRelayControl(cmd, now);
      case Relay2(on) =>
        ManualRelayControl(cmd, now);
      case AutoOn =>
        autoMode := true;
        autoModeTemporarilyDisabled := false;
      case AutoOff =>
        autoMode := false;
        autoModeTemporarilyDisabled := false;
      case ResetEnergy =>
        energyTotal := 0.0;
    }

    /**
     * `mqttCallback` for a message that decoded to `decoded` (`None`: parse
     * error). A missing command or an unknown one changes nothing and
     * publishes nothing; a recognised one is carried out and the final status
     * published.
     */
    method MqttCallback(decoded: Option<Json>, now: u32)
      requires Valid()
      modifies this`relay1State, this`relay2State, this`autoMode, this`autoModeTemporarilyDisabled,
               this`autoModeDisabledTime, this`energyTotal, this`published
      ensures Valid()
      ensures Received(decoded).None? ==> Mode() == old(Mode()) && published == old(published)
      ensures Received(decoded).Some? ==>
        && Mode() == ApplyCommand(old(Mode()), Received(decoded).value, now)
        && published == Logged(old(published), connected, CommandSteps(old(Mode()), Received(decoded).value, now), now)
    {
      var text := CommandOf(decoded);
      if text.None? {
        return;
      }
      var cmd := ParseCommand(text.value);
      if cmd.None? {
        return;
      }
      ghost var before, log := Mode(), published;
      Execute(cmd.value, now);
      ghost var mid := published;
      PublishActuatorStatus(now);
      PublishedSteps(log, mid, connected, before, cmd.value, now);
    }

    method CheckAutoModeTimer(now: u32)
      requires Valid()
      modifies this`autoMode, this`autoModeTemporarilyDisabled, this`published
      ensures Valid()
      ensures Mode() == TimerStep(old(Mode()), now)
      ensures published == Logged(old(published), connected, if Mode() != old(Mode()) then [Mode()] else [], now)
    {
      if autoModeTemporarilyDisabled && !autoMode {
        var elapsed := Elapsed(now, autoModeDisabledTime);
        if elapsed >= AUTO_MODE_TIMEOUT {
          autoMode := true;
          autoModeTemporarilyDisabled := false;
          PublishActuatorStatus(now);
        }
      }
    }

    method RunAutomation(now: u32)
      requires Valid()
      modifies this`relay1State, this`relay2State, this`published
      ensures Valid()
      ensures Mode() == Automate(old(Mode()), presenceDetected, lightLevel, temperature)
      ensures published == Logged(old(published), connected,
                                  AutomationSteps(old(Mode()), presenceDetected, lightLevel, temperature), now)
    {
      ghost var before, log := Mode(), published;
      LightRules(now);
      ghost var lit, mid := Mode(), published;
      ClimateRules(now);
      ghost var s1 := if lit.relay2 != before.relay2 then [lit] else [];
      ghost var s2 := if Mode().relay1 != before.relay1 then [Mode()] else [];
      LoggedConcat(log, connected, s1, s2, now);
    }

    /** Rules 1-3: the light relay. */
    method LightRules(now: u32)
      modifies this`relay2State, this`published
      ensures relay2State == LightTarget(presenceDetected, lightLevel, old(relay2State))
      ensures published == Logged(old(published), connected, if relay2State != old(relay2State) then [Mode()] else [], now)
    {
      if !presenceDetected && relay2State {
        SetRelay2(false, now);
      }
      if presenceDetected && lightLevel < LOW_LIGHT && !relay2State {
        SetRelay2(true, now);
      }
      if presenceDetected && lightLevel > BRIGHT_LIGHT && relay2State {
        SetRelay2(false, now);
      }
    }

    /** Rule 4: the climate relay. */
    method ClimateRules(now: u32)
      modifies this`relay1State, this`published
      ensures relay1State == HvacTarget(presenceDetected, temperature, old(relay1State))
      ensures published == Logged(old(published), connected, if relay1State != old(relay1State) then [Mode()] else [], now)
    {
      if presenceDetected {
        if temperature > HOT && !relay1State {
          SetRelay1(true, now);
        } else if temperature < COLD && !relay1State {
          SetRelay1(true, now);
        } else if temperature >= COMFORT_LOW && temperature <= COMFORT_HIGH && relay1State {
          SetRelay1(false, now);
        }
      } else {
        if relay1State {
          SetRelay1(false, now);
        }
      }
    }

    /** `readSensors`: the climate pair when both readings are numbers, then current, energy, light and presence. */
    method ReadSensors(reading: Reading, now: u32)
      requires Valid()
      modifies this`temperature, this`humidity, this`current, this`power, this`energyTotal,
               this`energyLastUpdate, this`lightLevel, this`presenceDetected, this`lastPresenceTime
      ensures Valid()
      ensures reading.climate.Some? ==>
        temperature == reading.climate.value.temperature && humidity == reading.climate.value.humidity
      ensures reading.climate.None? ==> temperature == old(temperature) && humidity == old(humidity)
      ensures current == FilteredCurrent(reading.amps) && power == VOLTAGE * current
      ensures energyTotal == old(energyTotal) + EnergyGain(power, old(energyLastUpdate), now) && energyLastUpdate == now
      ensures energyTotal >= old(energyTotal) && lightLevel == LightPercent(reading.rawLight)
      ensures (presenceDetected, lastPresenceTime) == PresenceStep(old(presenceDetected), old(lastPresenceTime), reading.pir, now)
    {
      if reading.climate.Some? {
        humidity := reading.climate.value.humidity;
        temperature := reading.climate.value.temperature;
      }
      current := FilteredCurrent(reading.amps);
      power := VOLTAGE * current;
      AccumulateEnergy(now);
      lightLevel := LightPercent(reading.rawLight);
      TrackPresence(reading.pir, now);
    }

    /** The cumulative energy: `power` watts over the time since the previous read, in kWh. */
    method AccumulateEnergy(now: u32)
      requires power >= 0.0
      modifies this`energyTotal, this`energyLastUpdate
      ensures energyTotal == old(energyTotal) + EnergyGain(power, old(energyLastUpdate), now)
      ensures energyTotal >= old(energyTotal) && energyLastUpdate == now
    {
      var timeDiff := Elapsed(now, energyLastUpdate);
      if energyLastUpdate > 0 && timeDiff > 0 {
        var hours := timeDiff as real / 3600000.0;
        energyTotal := energyTotal + power * hours / 1000.0;
      }
      energyLastUpdate := now;
    }

    /** The PIR part of `readSensors`. */
    method TrackPresence(pir: bool, now: u32)
      modifies this`presenceDetected, this`lastPresenceTime
      ensures (presenceDetected, lastPresenceTime) == PresenceStep(old(presenceDetected), old(lastPresenceTime), pir, now)
    {
      if pir {
        presenceDetected := true;
        lastPresenceTime := now;
      } else {
        if Elapsed(now, lastPresenceTime) > PRESENCE_TIMEOUT {
          presenceDetected := false;
        }
      }
    }

    /** The first timed step of `loop()`: read the sensors when 100 ms have passed since the last read. */
    method SensorTick(reading: Reading, now: u32)
      requires Valid()
      modifies this`temperature, this`humidity, this`current, this`power, this`energyTotal,
               this`energyLastUpdate, this`lightLevel, this`presenceDetected, this`lastPresenceTime, this`lastSensorRead
      ensures Valid()
      ensures Sensors() == SensorPass(old(Sensors()), reading, now)
    {
      if Elapsed(now, lastSensorRead) >= SENSOR_READ_INTERVAL {
        ReadSensors(reading, now);
        lastSensorRead := now;
      }
    }

    /** The control part of `loop()`: the re-enable timer, then the rules only while auto mode is on. */
    method ControlTick(now: u32)
      requires Valid()
      modifies this`relay1State, this`relay2State, this`autoMode, this`autoModeTemporarilyDisabled, this`published
      ensures Valid() && Mode() == ControlPass(old(Mode()), presenceDetected, lightLevel, temperature, now)
      ensures published == Logged(old(published), connected,
                                  ControlSteps(old(Mode()), presenceDetected, lightLevel, temperature, now), now)
    {
      ghost var before, log := Mode(), published;
      CheckAutoModeTimer(now);
      ghost var s1 := if Mode() != before then [Mode()] else [];
      ghost var mid := published;
      if autoMode {
        RunAutomation(now);
        LoggedConcat(log, connected, s1, AutomationSteps(TimerStep(before, now), presenceDetected, lightLevel, temperature), now);
      } else {
        assert s1 + [] == s1;
      }
    }

    /**
     * One pass of `loop()`: the connection state `link` left by the reconnect
     * step, a sensor read every 100 ms at `readAt`, then the timer and the
     * rules (only while auto mode is on) at `checkAt`, which comes at least
     * 500 ms later when `publishData` ran in between.
     */
    method Loop(link: bool, reading: Reading, readAt: u32, checkAt: u32)
      requires Valid()
      modifies this`connected, this`temperature, this`humidity, this`current, this`power, this`energyTotal,
               this`energyLastUpdate, this`lightLevel, this`presenceDetected, this`lastPresenceTime, this`lastSensorRead,
               this`relay1State, this`relay2State, this`autoMode, this`autoModeTemporarilyDisabled, this`published
      ensures Valid() && connected == link
      ensures Sensors() == SensorPass(old(Sensors()), reading, readAt)
      ensures Mode() == ControlPass(old(Mode()).(energyTotal := energyTotal), presenceDetected, lightLevel, temperature, checkAt)
      ensures published == Logged(old(published), link,
                                  ControlSteps(old(Mode()).(energyTotal := energyTotal), presenceDetected, lightLevel, temperature, checkAt),
                                  checkAt)
    {
      connected := link;
      ghost var before := Mode();
      SensorTick(reading, readAt);
      assert Mode() == before.(energyTotal := energyTotal);
      ghost var sensed := Sensors();
      ControlTick(checkAt);
      assert Sensors() == sensed;
    }
  }
}
