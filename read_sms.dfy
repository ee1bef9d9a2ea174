/** The echo handler: every valid, non-retained envelope is answered on the send
    topic with `"Received: "` followed by its message. */
module ReadSms {
  import opened PyStr
  import opened Envelope

  /** `on_message`: the one publication it makes, if any. */
  function OnMessage(retain: bool, payload: Payload): Option<Publication> {
    if retain then None
    else match Parse(payload)
      case None => None
      case Some(env) => Some(Publication(SendTopic, Reply(env.number, "Received: " + env.message)))
  }

  /** Retained messages are never answered. */
  lemma RetainedIsIgnored(payload: Payload)
    ensures OnMessage(true, payload) == None
  {
  }

  /** A payload `json.loads` rejects is never answered. */
  lemma UndecodableIsIgnored(retain: bool)
    ensures OnMessage(retain, Undecodable) == None
  {
  }

  /** A reply is published exactly when the message is fresh, decodes, and carries
      `number`, `date` and `message` that are not missing, `None` or only whitespace. */
  lemma RepliesIff(retain: bool, payload: Payload)
    ensures OnMessage(retain, payload).Some? <==>
      !retain && payload.Object? && !Blank(payload.fields, "number")
      && !Blank(payload.fields, "date") && !Blank(payload.fields, "message")
  {
    ParseIff(payload);
  }

  /** The reply goes to the send topic, to the stripped number, and echoes the
      stripped message after `"Received: "`; the number needs no further stripping. */
  lemma ReplyEchoes(retain: bool, payload: Payload)
    requires OnMessage(retain, payload).Some?
    ensures var p := OnMessage(retain, payload).value;
      && p.topic == SendTopic
      && p.reply.number == Field(payload.fields, "number") != ""
      && p.reply.message == "Received: " + Field(payload.fields, "message")
      && Strip(p.reply.number) == p.reply.number
      && |p.reply.message| > |"Received: "|
  {
    ParseIff(payload);
  }
}
