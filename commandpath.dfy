/**
 * The path of a relay command from the dashboard to the relays: the backend's
 * `control_relay` publishes `{"command": c}` on `home/control/command`, the
 * topic the firmware subscribes to, and the firmware's handler reads the
 * `command` member back.
 */
module CommandPath {

  import opened Json
  import Backend
  import Firmware

  /**
   * Whatever `control_relay` publishes reaches the handler as the command it
   * was given when that is a string, and as no command otherwise: a number,
   * a list or an object passes the backend's check yet the firmware ignores it.
   */
  lemma {:induction false} RelayCommandReachesDevice(body: Option<Json>)
    requires Backend.ControlRelay(body).CommandSent?
    ensures var sent := Backend.ControlRelay(body);
      && sent.topic == Backend.CONTROL_TOPIC
      && (sent.command.JStr? ==> Firmware.CommandOf(Some(sent.payload)) == Some(sent.command.s))
      && (!sent.command.JStr? ==> Firmware.Received(Some(sent.payload)).None?)
  {
  }

  /** A dashboard button's word arrives as the command it names. */
  lemma {:induction false} DashboardCommandArrives(cmd: Firmware.Command)
    ensures var sent := Backend.ControlRelay(Some(JObject(map["command" := JStr(Firmware.CommandName(cmd))])));
      && sent.CommandSent?
      && Firmware.Received(Some(sent.payload)) == Some(cmd)
  {
    var word := Firmware.CommandName(cmd);
    var sent := Backend.ControlRelay(Some(JObject(map["command" := JStr(word)])));
    assert |word| > 0;
    assert sent.payload.fields["command"] == JStr(word);
    Firmware.CommandNameParses(cmd);
  }
}
