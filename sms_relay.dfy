/** The relay script's own state and its `on_message` callback, step by step as the
    script runs it; each method is proved to do what the functions of `SmsHandler`
    describe. */
module SmsRelay {
  import opened PyStr
  import opened Envelope
  import opened SmsHandler

  /** The node: its settings and every publication and mail it has made so far. */
  class Relay {
    const settings: Settings
    var effects: seq<Effect>

    constructor (settings: Settings)
      ensures this.settings == settings && effects == []
    {
      this.settings := settings;
      effects := [];
    }

    /** `mqttClient.publish(topic, answer)`. */
    method Publish(topic: string, reply: Reply)
      modifies this
      ensures effects == old(effects) + [SmsHandler.Effect.Publish(Publication(topic, reply))]
    {
      effects := effects + [SmsHandler.Effect.Publish(Publication(topic, reply))];
    }

    /** `sendMail(subject, message, to)`: the mail is handed over, and `deliver` says
        how that went. */
    method SendMail(subject: string, message: string, to: string, deliver: Mail -> MailOutcome)
      returns (outcome: MailOutcome)
      modifies this
      ensures effects == old(effects) + [SmsHandler.Effect.SendMail(MailFor(settings, subject, message, to))]
      ensures outcome == deliver(MailFor(settings, subject, message, to))
    {
      var msg := MailFor(settings, subject, message, to);
      effects := effects + [SmsHandler.Effect.SendMail(msg)];
      outcome := deliver(msg);
    }

    /** `on_message`, step by step; `raised` tells whether an exception escapes. */
    method OnMessage(retain: bool, payload: Payload, split: string -> SplitOutcome,
                     run: seq<string> -> RunOutcome, deliver: Mail -> MailOutcome)
      returns (raised: bool)
      modifies this
      ensures effects == old(effects) + Handle(settings, retain, payload, split, run, deliver).effects
      ensures raised == Handle(settings, retain, payload, split, run, deliver).raised
    {
      var accepted, number, command := Accept(retain, payload);
      if accepted {
        raised := Execute(number, command, split, run, deliver);
      } else {
        raised := false;
      }
    }

    /** The checks `on_message` makes before it runs anything: not retained, decodes,
        the three fields non-empty once stripped, the message starts with the host
        name; then the number and the command that the message gives. */
    method Accept(retain: bool, payload: Payload) returns (accepted: bool, number: string, command: string)
      ensures accepted == Authorised(settings, retain, payload)
      ensures accepted ==> number == NumberOf(payload) && command == Command(settings, payload)
    {
      accepted, number, command := false, "", "";
      if retain {
        return;
      }
      // `json.loads`, then `getValue(...).strip()` of the three fields and the empty tests
      var envelope := Parse(payload);
      if envelope.None? {
        return;
      }
      var message := envelope.value.message;
      if !Addressed(settings.hostName, message) {
        return;
      }
      accepted, number, command := true, envelope.value.number, CommandOf(settings.hostName, message);
    }

    /** The body of `on_message` once the message is authorised: tokenize and run the
        command, mail the outcome, publish the reply. */
    method Execute(number: string, command: string, split: string -> SplitOutcome,
                   run: seq<string> -> RunOutcome, deliver: Mail -> MailOutcome)
      returns (raised: bool)
      modifies this
      ensures effects == old(effects) + Respond(settings, number, command, split, run, deliver).effects
      ensures raised == Respond(settings, number, command, split, run, deliver).raised
    {
      var response: string;
      match split(command) {
        case SplitError(reason) =>
          response := "Error: " + reason;
          var sent := SendMail(command, response, "", deliver);
          if !sent.Delivered? { return true; }
        case Tokens(args) =>
          // whether the `except OSError` clause is entered, and with which strerror
          var caught: Option<Option<string>> := None;
          match run(args) {
            case OtherError => return true;
            case OsError(strerror) => caught := Some(strerror);
            case Completed(returnCode, log) =>
              response := "Result: " + FormatInt(returnCode);
              if |log| < 70 {
                response := log;
              }
              var sent := SendMail(command, log, "", deliver);
              match sent {
                case Delivered =>
                case MailOsError(strerror) => caught := Some(strerror);
                case MailOtherError => return true;
              }
          }
          if caught.Some? {
            if caught.value.None? { return true; }
            response := "Error: " + caught.value.value;
            var sent := SendMail(command, response, "", deliver);
            if !sent.Delivered? { return true; }
          }
      }
      Publish(SendTopic, Reply(number, response));
      raised := false;
    }
  }
}
