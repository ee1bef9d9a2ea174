/** What both handlers share: reading the fields of a decoded JSON payload with
    `getValue`, requiring `number`, `date` and `message` to be non-empty once
    stripped, and the reply they publish on the send topic. */
module Envelope {
  import opened PyStr

  datatype Option<T> = None | Some(value: T)

  /** A decoded JSON object: every key maps to a string, or to `None` for JSON `null`. */
  type Fields = map<string, Option<string>>

  /** The MQTT payload once `json.loads` has run on it. */
  datatype Payload = Undecodable | Object(fields: Fields)

  /** The three required fields, stripped. */
  datatype Envelope = Envelope(number: string, date: string, message: string)

  /** The reply payload `{"number": ..., "message": ...}`. */
  datatype Reply = Reply(number: string, message: string)

  /** One `mqttClient.publish(topic, payload)` call. */
  datatype Publication = Publication(topic: string, reply: Reply)

  /** `MQTT_SEND_TOPIC`. */
  const SendTopic: string := "smsServer/toSend"

  /** `getValue(dict, key, default)`: the stored value, or `default` when the key is
      missing or holds `None`. */
  function GetValue<V>(d: map<string, Option<V>>, key: string, default: V): (v: V)
    ensures key !in d || d[key].None? ==> v == default
    ensures key in d && d[key].Some? ==> v == d[key].value
  {
    if key in d then
      match d[key]
      case None => default
      case Some(x) => x
    else default
  }

  /** `getValue(jsonData, key).strip()`. */
  function Field(fields: Fields, key: string): string {
    Strip(GetValue(fields, key, ""))
  }

  /** A field that `getValue(...).strip()` turns into `''`: missing, `None`, or only whitespace. */
  predicate Blank(fields: Fields, key: string) {
    key !in fields || fields[key].None? || AllSpace(fields[key].value)
  }

  /** `getValue(d, key)` is `''` exactly when the key is missing, holds `None`, or holds `''`. */
  lemma GetValueEmptyIff(fields: Fields, key: string)
    ensures GetValue(fields, key, "") == "" <==>
      key !in fields || fields[key] == None || fields[key] == Some("")
  {
  }

  /** A stripped field is empty exactly when the raw field is blank. */
  lemma FieldEmptyIff(fields: Fields, key: string)
    ensures Field(fields, key) == "" <==> Blank(fields, key)
  {
    StripEmptyIff(GetValue(fields, key, ""));
  }

  /** The decode-and-validate prefix both handlers share: a payload that is not JSON, or
      in which one of the three fields is empty after stripping, yields no envelope. */
  function Parse(p: Payload): (r: Option<Envelope>)
    ensures r.Some? ==> p.Object?
    ensures r.Some? ==> r.value.number != "" && r.value.date != "" && r.value.message != ""
    ensures r.Some? ==> Strip(r.value.number) == r.value.number && Strip(r.value.message) == r.value.message
  {
    match p
    case Undecodable => None
    case Object(fields) =>
      var number := Field(fields, "number");
      var date := Field(fields, "date");
      var message := Field(fields, "message");
      if message == "" || date == "" || number == "" then None
      else
        StripIdempotent(GetValue(fields, "number", ""));
        StripIdempotent(GetValue(fields, "message", ""));
        Some(Envelope(number, date, message))
  }

  /** Validation stated on the raw payload: it is rejected exactly when it is not JSON
      or one of `number`, `date`, `message` is missing, `None` or only whitespace;
      an accepted payload gives the stripped values. */
  lemma ParseIff(p: Payload)
    ensures Parse(p).None? <==>
      p.Undecodable? || Blank(p.fields, "number") || Blank(p.fields, "date") || Blank(p.fields, "message")
    ensures Parse(p).Some? ==>
      Parse(p).value == Envelope(Field(p.fields, "number"), Field(p.fields, "date"), Field(p.fields, "message"))
  {
    if p.Object? {
      FieldEmptyIff(p.fields, "number");
      FieldEmptyIff(p.fields, "date");
      FieldEmptyIff(p.fields, "message");
    }
  }
}
