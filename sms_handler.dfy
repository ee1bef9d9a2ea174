/** The command relay: a message whose text starts with this node's host name has
    the rest run as a local command; the output is mailed, and a short reply goes
    back on the send topic.

    The tokenizer (`shlex.split`), the process runner (`subprocess.run` followed by
    decoding its output) and the mail transport (`smtplib`) are not modelled: each
    is a function parameter that gives its outcome. */
module SmsHandler {
  import opened PyStr
  import opened Envelope

  /** The node's fixed settings: `hostName` and `mailSender`. */
  datatype Settings = Settings(hostName: string, mailSender: string)

  /** What `shlex.split(command)` does: return the arguments, or raise `ValueError`
      whose text is `reason`. */
  datatype SplitOutcome = Tokens(argv: seq<string>) | SplitError(reason: string)

  /** What running the arguments does: the process completes with its exit code and
      its decoded combined output, or an `OSError` is raised (whose `strerror` may be
      `None`), or some other exception escapes (an empty argument list raises
      `IndexError`, output that is not UTF-8 raises `UnicodeDecodeError`). */
  datatype RunOutcome =
    | Completed(returnCode: int, log: string)
    | OsError(strerror: Option<string>)
    | OtherError

  /** What handing a mail to the SMTP server does: it is accepted, or an `OSError`
      (which every `smtplib` and socket error is) is raised, or some other exception.
      The exceptions `smtplib` raises itself (a refused sender, a failed login, a
      dropped connection) have no `strerror`; socket and SSL errors have one. */
  datatype MailOutcome = Delivered | MailOsError(strerror: Option<string>) | MailOtherError

  /** The message `sendMail` builds: its `From` and `To` headers, the envelope
      recipients given to `server.sendmail`, the subject, and the body. */
  datatype Mail = Mail(sender: string, to: string, recipients: set<string>, subject: string, body: string)

  /** One side effect of the handler. A `SendMail` records a mail handed to the
      transport, whether or not the server then accepts it. */
  datatype Effect = Publish(publication: Publication) | SendMail(mail: Mail)

  /** The effects of one call of `on_message`, in order, and whether it ended by an
      exception escaping from it (a mail that raised is still among the effects). */
  datatype Trace = Trace(effects: seq<Effect>, raised: bool)

  const Silent := Trace([], false)

  /** `sendMail(subject, message, to)`: the subject is prefixed with the host name,
      `To` is `to` unless that is empty, and the sender always gets a copy. */
  function MailFor(s: Settings, subject: string, message: string, to: string): Mail {
    var header := if to != "" then to else s.mailSender;
    Mail(s.mailSender, header, {header, s.mailSender}, s.hostName + ": " + subject, message)
  }

  lemma MailAddressing(s: Settings, subject: string, message: string, to: string)
    ensures var m := MailFor(s, subject, message, to);
      && m.subject == s.hostName + ": " + subject && m.body == message && m.sender == s.mailSender
      && m.to == (if to == "" then s.mailSender else to)
      && s.mailSender in m.recipients && m.to in m.recipients && m.recipients <= {to, s.mailSender}
      && |m.recipients| == (if to == "" || to == s.mailSender then 1 else 2)
  {
  }

  /** The authorisation test: the first `|hostName|` characters of the message,
      lower-cased, equal the lower-cased host name. */
  predicate Addressed(hostName: string, message: string) {
    Lower(Take(message, |hostName|)) == Lower(hostName)
  }

  /** The command: what follows the first `|hostName|` characters, stripped. */
  function CommandOf(hostName: string, message: string): string {
    Strip(Drop(message, |hostName|))
  }

  /** Authorisation is a case-insensitive prefix test; a message shorter than the
      host name is never addressed to it. */
  lemma AddressedIff(hostName: string, message: string)
    ensures Addressed(hostName, message) <==>
      |hostName| <= |message| && forall i :: 0 <= i < |hostName| ==> LowerChar(message[i]) == LowerChar(hostName[i])
  {
    var p := Take(message, |hostName|);
    if |hostName| <= |message| && forall i :: 0 <= i < |hostName| ==> LowerChar(message[i]) == LowerChar(hostName[i]) {
      assert forall i :: 0 <= i < |hostName| ==> Lower(p)[i] == Lower(hostName)[i];
    }
    if Addressed(hostName, message) {
      assert |p| == |hostName|;
      forall i | 0 <= i < |hostName| ensures LowerChar(message[i]) == LowerChar(hostName[i]) {
        assert Lower(p)[i] == Lower(hostName)[i];
      }
    }
  }

  /** The command of an addressed message is the rest of it after the host name,
      stripped, and needs no further stripping. */
  lemma CommandFollowsName(hostName: string, message: string)
    requires Addressed(hostName, message)
    ensures |hostName| <= |message|
    ensures CommandOf(hostName, message) == Strip(message[|hostName|..])
    ensures Strip(CommandOf(hostName, message)) == CommandOf(hostName, message)
  {
    AddressedIff(hostName, message);
    StripIdempotent(Drop(message, |hostName|));
  }

  /** A message made of a host-name lookalike and a rest is addressed to the node and
      carries the stripped rest as its command. */
  lemma AddressedConcat(hostName: string, name: string, rest: string)
    requires |name| == |hostName| && Lower(name) == Lower(hostName)
    ensures Addressed(hostName, name + rest) && CommandOf(hostName, name + rest) == Strip(rest)
  {
    assert Take(name + rest, |hostName|) == name;
    assert Drop(name + rest, |hostName|) == rest;
  }

  /** No separator is needed after the host name: node `NODE1` takes `NODE10 ls`
      as the command `0 ls`. */
  lemma NameNeedsNoSeparator()
    ensures Addressed("NODE1", "NODE10 ls") && CommandOf("NODE1", "NODE10 ls") == "0 ls"
  {
    assert Take("NODE10 ls", 5) == "NODE1";
    assert Drop("NODE10 ls", 5) == "0 ls";
    assert !IsSpace('0') && !IsSpace('s');
  }

  /** A message shorter than the host name is not addressed to it. */
  lemma ShortMessageIgnored()
    ensures !Addressed("NODE1", "NODE")
  {
    assert Take("NODE", 5) == "NODE";
  }

  /** Case does not matter: node `NODE1` takes `node1 ls` as addressed to it. */
  lemma NameIgnoresCase()
    ensures Addressed("NODE1", "node1 ls")
  {
    assert Take("node1 ls", 5) == "node1";
    assert Lower("node1") == "node1" == Lower("NODE1");
  }

  /** The blank between the host name and the command is stripped: `node1 ls` gives
      node `NODE1` the command `ls`. */
  lemma CommandIsStripped()
    ensures CommandOf("NODE1", "node1 ls") == "ls"
  {
    assert Drop("node1 ls", 5) == " ls";
    assert LeadingSpaces(" ls") == 1;
    assert TrailingSpaces("ls") == 0;
  }

  /** The text of a diagnostic reply. */
  function ErrorReply(text: string): string {
    "Error: " + text
  }

  /** The reply for a completed run: the output when it is shorter than 70
      characters, else `"Result: "` and the exit code. */
  function ShortReply(returnCode: int, log: string): string {
    if |log| < 70 then log else "Result: " + FormatInt(returnCode)
  }

  /** Output of 69 characters is sent as it is; output of 70 is replaced by the code. */
  lemma ShortReplyBoundary(returnCode: int, log: string)
    ensures |log| == 69 ==> ShortReply(returnCode, log) == log
    ensures |log| == 70 ==> ShortReply(returnCode, log) == "Result: " + FormatInt(returnCode)
  {
  }

  /** For an exit code in the signed or the unsigned 32-bit range, the reply to a
      completed run always fits in 69 characters, and is either the whole output or
      names the exit code. */
  lemma ShortReplyFits(returnCode: int, log: string)
    requires -0x8000_0000 <= returnCode < 0x1_0000_0000
    ensures |ShortReply(returnCode, log)| < 70
    ensures var r := ShortReply(returnCode, log);
      r == log || (r[..8] == "Result: " && FormatInt(returnCode) == r[8..])
  {
    FormatIntLength32(returnCode);
  }

  /** The message has come through validation and names this node. */
  predicate Authorised(s: Settings, retain: bool, payload: Payload) {
    !retain && Parse(payload).Some? && Addressed(s.hostName, Parse(payload).value.message)
  }

  /** Mail `body` about `command`; once it is accepted, publish `reply` to `number`.
      A mail that fails raises out of the handler before anything is published. */
  function Report(s: Settings, number: string, command: string, reply: string, body: string,
                  deliver: Mail -> MailOutcome): Trace
  {
    var m := MailFor(s, command, body, "");
    if deliver(m).Delivered? then Trace([SendMail(m), Publish(Publication(SendTopic, Reply(number, reply)))], false)
    else Trace([SendMail(m)], true)
  }

  /** The `except OSError` clause: report `"Error: " + strerror`; `"{:s}"` cannot
      format a `strerror` of `None`, so that raises. */
  function Recover(s: Settings, number: string, command: string, strerror: Option<string>,
                   deliver: Mail -> MailOutcome): Trace
  {
    match strerror
    case None => Trace([], true)
    case Some(text) => Report(s, number, command, ErrorReply(text), ErrorReply(text), deliver)
  }

  /** Tokenize, run and report the command of an authorised message. */
  function Respond(s: Settings, number: string, command: string, split: string -> SplitOutcome,
                   run: seq<string> -> RunOutcome, deliver: Mail -> MailOutcome): Trace
  {
    match split(command)
    case SplitError(reason) => Report(s, number, command, ErrorReply(reason), ErrorReply(reason), deliver)
    case Tokens(argv) =>
      match run(argv)
      case OtherError => Trace([], true)
      case OsError(strerror) => Recover(s, number, command, strerror, deliver)
      case Completed(returnCode, log) =>
        var m := MailFor(s, command, log, "");
        match deliver(m)
        case MailOsError(strerror) =>
          var t := Recover(s, number, command, strerror, deliver);
          Trace([SendMail(m)] + t.effects, t.raised)
        case _ => Report(s, number, command, ShortReply(returnCode, log), log, deliver)
  }

  /** The whole handler: ignore retained, undecodable, invalid and unaddressed messages,
      and respond to the rest. */
  function Handle(s: Settings, retain: bool, payload: Payload, split: string -> SplitOutcome,
                  run: seq<string> -> RunOutcome, deliver: Mail -> MailOutcome): Trace
  {
    if !Authorised(s, retain, payload) then Silent
    else Respond(s, NumberOf(payload), Command(s, payload), split, run, deliver)
  }

  /** The number of a validated message. */
  function NumberOf(payload: Payload): string
    requires Parse(payload).Some?
  {
    Parse(payload).value.number
  }

  /** The command of a validated message. */
  function Command(s: Settings, payload: Payload): string
    requires Parse(payload).Some?
  {
    CommandOf(s.hostName, Parse(payload).value.message)
  }

  /** An authorised message is answered to its stripped `number`, about the command
      that follows the host name in its stripped `message`. */
  lemma HandleResponds(s: Settings, retain: bool, payload: Payload, split: string -> SplitOutcome,
                       run: seq<string> -> RunOutcome, deliver: Mail -> MailOutcome)
    requires Authorised(s, retain, payload)
    ensures payload.Object? && |s.hostName| <= |Field(payload.fields, "message")|
    ensures NumberOf(payload) == Field(payload.fields, "number") != ""
    ensures Command(s, payload) == Strip(Field(payload.fields, "message")[|s.hostName|..])
    ensures Handle(s, retain, payload, split, run, deliver)
      == Respond(s, Field(payload.fields, "number"), Command(s, payload), split, run, deliver)
  {
    ParseIff(payload);
    CommandFollowsName(s.hostName, Parse(payload).value.message);
  }

  /** A retained message has no effect at all. */
  lemma RetainedIsSilent(s: Settings, payload: Payload, split: string -> SplitOutcome,
                         run: seq<string> -> RunOutcome, deliver: Mail -> MailOutcome)
    ensures Handle(s, true, payload, split, run, deliver) == Silent
  {
  }

  /** A payload that is not JSON, or whose `number`, `date` or `message` is missing,
      `None` or only whitespace, has no effect at all. */
  lemma InvalidIsSilent(s: Settings, retain: bool, payload: Payload, split: string -> SplitOutcome,
                        run: seq<string> -> RunOutcome, deliver: Mail -> MailOutcome)
    requires payload.Undecodable? || Blank(payload.fields, "number")
      || Blank(payload.fields, "date") || Blank(payload.fields, "message")
    ensures Handle(s, retain, payload, split, run, deliver) == Silent
  {
    ParseIff(payload);
  }

  /** A message whose stripped text does not start with the host name has no effect at all. */
  lemma UnaddressedIsSilent(s: Settings, retain: bool, payload: Payload, split: string -> SplitOutcome,
                            run: seq<string> -> RunOutcome, deliver: Mail -> MailOutcome)
    requires payload.Object?
    requires !Addressed(s.hostName, Field(payload.fields, "message"))
    ensures Handle(s, retain, payload, split, run, deliver) == Silent
  {
    ParseIff(payload);
  }

  /** A message that is only the host name gives the empty command; `shlex.split('')`
      is `[]`, and running no arguments raises, so the exception escapes before any
      mail or publication. */
  lemma NameAloneRaises(s: Settings, retain: bool, payload: Payload, split: string -> SplitOutcome,
                        run: seq<string> -> RunOutcome, deliver: Mail -> MailOutcome)
    requires Authorised(s, retain, payload)
    requires |Field(payload.fields, "message")| == |s.hostName|
    requires split("") == Tokens([]) && run([]) == OtherError
    ensures Command(s, payload) == ""
    ensures Handle(s, retain, payload, split, run, deliver) == Trace([], true)
  {
    HandleResponds(s, retain, payload, split, run, deliver);
    var message := Field(payload.fields, "message");
    assert message[|s.hostName|..] == [];
  }

  /** The handler mails and publishes nothing, and raises nothing, exactly when the
      message is not authorised. */
  lemma SilentIff(s: Settings, retain: bool, payload: Payload, split: string -> SplitOutcome,
                  run: seq<string> -> RunOutcome, deliver: Mail -> MailOutcome)
    ensures Handle(s, retain, payload, split, run, deliver) == Silent <==> !Authorised(s, retain, payload)
  {
    if Authorised(s, retain, payload) {
      HandleResponds(s, retain, payload, split, run, deliver);
      RespondShape(s, NumberOf(payload), Command(s, payload), split, run, deliver);
    }
  }

  /** A tokenizer error is reported as `"Error: " + reason`, by mail and then on the
      send topic, and the process runner is never consulted. */
  lemma SplitErrorReply(s: Settings, number: string, command: string, split: string -> SplitOutcome,
                        run: seq<string> -> RunOutcome, run': seq<string> -> RunOutcome,
                        deliver: Mail -> MailOutcome)
    requires split(command).SplitError?
    ensures Respond(s, number, command, split, run, deliver) == Respond(s, number, command, split, run', deliver)
    ensures var text := "Error: " + split(command).reason;
      var m := MailFor(s, command, text, "");
      deliver(m) == Delivered ==>
        Respond(s, number, command, split, run, deliver)
        == Trace([SendMail(m), Publish(Publication(SendTopic, Reply(number, text)))], false)
  {
  }

  /** An `OSError` from running the command is reported as `"Error: " + strerror`,
      by mail and then on the send topic. */
  lemma OsErrorReply(s: Settings, number: string, command: string, split: string -> SplitOutcome,
                     run: seq<string> -> RunOutcome, deliver: Mail -> MailOutcome, strerror: string)
    requires split(command).Tokens?
    requires run(split(command).argv) == OsError(Some(strerror))
    ensures var m := MailFor(s, command, "Error: " + strerror, "");
      deliver(m) == Delivered ==>
        Respond(s, number, command, split, run, deliver)
        == Trace([SendMail(m), Publish(Publication(SendTopic, Reply(number, "Error: " + strerror)))], false)
  {
  }

  /** A completed run mails its whole output and replies with the output when it is
      shorter than 70 characters, else with `"Result: "` and the exit code. */
  lemma CompletedReply(s: Settings, number: string, command: string, split: string -> SplitOutcome,
                       run: seq<string> -> RunOutcome, deliver: Mail -> MailOutcome, returnCode: int, log: string)
    requires split(command).Tokens?
    requires run(split(command).argv) == Completed(returnCode, log)
    ensures var m := MailFor(s, command, log, "");
      var reply := if |log| < 70 then log else "Result: " + FormatInt(returnCode);
      deliver(m) == Delivered ==>
        Respond(s, number, command, split, run, deliver)
        == Trace([SendMail(m), Publish(Publication(SendTopic, Reply(number, reply)))], false)
  {
  }

  /** Unlike the two independent channels the docstring (smsHandler.py:9-13) suggests,
      a mail of the output that fails with an `OSError` carrying a `strerror` (a refused
      connection, a failed name lookup, an SSL error) is caught by the same `except` as
      a failed launch, so the reply becomes `"Error: " + strerror` and a second mail is
      sent. */
  lemma MailFailureReplacesReply(s: Settings, number: string, command: string, split: string -> SplitOutcome,
                                 run: seq<string> -> RunOutcome, deliver: Mail -> MailOutcome,
                                 returnCode: int, log: string, strerror: string)
    requires split(command).Tokens?
    requires run(split(command).argv) == Completed(returnCode, log)
    requires deliver(MailFor(s, command, log, "")) == MailOsError(Some(strerror))
    ensures var m := MailFor(s, command, log, "");
      var m' := MailFor(s, command, "Error: " + strerror, "");
      deliver(m') == Delivered ==>
        Respond(s, number, command, split, run, deliver)
        == Trace([SendMail(m), SendMail(m'), Publish(Publication(SendTopic, Reply(number, "Error: " + strerror)))], false)
  {
  }

  /** Unlike the two independent channels the docstring (smsHandler.py:9-13) suggests,
      when the mail of a tokenizer error fails, the exception escapes from the handler
      and no reply is published. */
  lemma MailFailureSuppressesReply(s: Settings, number: string, command: string, split: string -> SplitOutcome,
                                   run: seq<string> -> RunOutcome, deliver: Mail -> MailOutcome)
    requires split(command).SplitError?
    requires !deliver(MailFor(s, command, "Error: " + split(command).reason, "")).Delivered?
    ensures Respond(s, number, command, split, run, deliver) == Trace([SendMail(MailFor(s, command, "Error: " + split(command).reason, ""))], true)
  {
  }

  /** An `OSError` from running the command that has no `strerror` cannot be formatted
      by `"{:s}"`, so the handler raises before any mail or publication. */
  lemma OsErrorNoneRaises(s: Settings, number: string, command: string, split: string -> SplitOutcome,
                          run: seq<string> -> RunOutcome, deliver: Mail -> MailOutcome)
    requires split(command).Tokens?
    requires run(split(command).argv) == OsError(None)
    ensures Respond(s, number, command, split, run, deliver) == Trace([], true)
  {
  }

  /** A mail of the output that fails with an `smtplib` error, which has no `strerror`,
      reaches the same unformattable `"{:s}"`: the one mail attempt, then the exception
      escapes and nothing is published. */
  lemma LogMailNoneRaises(s: Settings, number: string, command: string, split: string -> SplitOutcome,
                          run: seq<string> -> RunOutcome, deliver: Mail -> MailOutcome,
                          returnCode: int, log: string)
    requires split(command).Tokens?
    requires run(split(command).argv) == Completed(returnCode, log)
    requires deliver(MailFor(s, command, log, "")) == MailOsError(None)
    ensures Respond(s, number, command, split, run, deliver) == Trace([SendMail(MailFor(s, command, log, ""))], true)
  {
  }

  /** Every mail in `effects` goes to the sender address alone, under the subject
      `hostName: command`. */
  predicate MailsToSender(s: Settings, command: string, effects: seq<Effect>) {
    forall i :: 0 <= i < |effects| && effects[i].SendMail? ==>
      effects[i].mail.to == s.mailSender && effects[i].mail.recipients == {s.mailSender}
      && effects[i].mail.subject == s.hostName + ": " + command
  }

  /** No publication except the last effect, and none at all in a trace that raises. */
  predicate PublishesLastOrNever(t: Trace) {
    && (forall i :: 0 <= i < |t.effects| - 1 ==> !t.effects[i].Publish?)
    && (t.raised ==> forall i :: 0 <= i < |t.effects| ==> !t.effects[i].Publish?)
  }

  /** The shape of every response: a publication comes only last, only when nothing
      was raised, and then exactly once, to `number` on the send topic, after at
      least one mail; every mail goes to the sender about the command. */
  lemma {:induction false} RespondShape(s: Settings, number: string, command: string, split: string -> SplitOutcome,
                                        run: seq<string> -> RunOutcome, deliver: Mail -> MailOutcome)
    ensures var t := Respond(s, number, command, split, run, deliver);
      && PublishesLastOrNever(t)
      && (!t.raised ==> |t.effects| >= 2 && t.effects[0].SendMail?)
      && (!t.raised ==> t.effects[|t.effects| - 1].Publish?)
      && (!t.raised ==> t.effects[|t.effects| - 1].publication.topic == SendTopic)
      && (!t.raised ==> t.effects[|t.effects| - 1].publication.reply.number == number)
      && MailsToSender(s, command, t.effects)
  {
    match split(command)
    case SplitError(reason) =>
    case Tokens(argv) =>
      match run(argv)
      case OtherError =>
      case OsError(strerror) =>
      case Completed(returnCode, log) =>
        var m := MailFor(s, command, log, "");
        if deliver(m).MailOsError? {
          var t := Recover(s, number, command, deliver(m).strerror, deliver);
          assert Respond(s, number, command, split, run, deliver).effects == [SendMail(m)] + t.effects;
        }
  }

  /** When every mail is accepted and the command is tokenized and run (or fails to
      launch, with a reason), the response is exactly one mail and then one publication. */
  lemma DeliveredDispatch(s: Settings, number: string, command: string, split: string -> SplitOutcome,
                          run: seq<string> -> RunOutcome, deliver: Mail -> MailOutcome)
    requires forall m :: deliver(m) == Delivered
    requires split(command).Tokens? ==> !run(split(command).argv).OtherError? && run(split(command).argv) != OsError(None)
    ensures var t := Respond(s, number, command, split, run, deliver);
      && !t.raised && |t.effects| == 2 && t.effects[0].SendMail? && t.effects[1].Publish?
      && t.effects[0].mail.recipients == {s.mailSender}
      && t.effects[1].publication.topic == SendTopic && t.effects[1].publication.reply.number == number
  {
    RespondShape(s, number, command, split, run, deliver);
  }
}
