/**
 * Values as the JSON decoders of both programs hand them over: `json.loads`
 * in the backend and ArduinoJson's `deserializeJson` in the firmware. The
 * decoders themselves are library code and are not modelled; a message that
 * fails to decode is `None`.
 */
module Json {

  datatype Option<+T> = None | Some(value: T)

  datatype Json =
    | JNull
    | JBool(b: bool)
    | JNum(n: real)
    | JStr(s: string)
    | JArray(items: seq<Json>)
    | JObject(fields: map<string, Json>)
}
