# FF_SmsServer: the SMS command relay, modelled in Dafny

FF_SmsServer relays SMS through MQTT. Two scripts subscribe to the topic of received
messages, and each message is a JSON object with `number`, `date` and `message`.

- `smsHandler.py` looks for messages whose text starts with this node's host name. It runs the
  rest of the text as a local command, mails the output to the configured sender address,
  and publishes a short reply on `smsServer/toSend`. The reply is the output when that is
  shorter than 70 characters, otherwise `Result: <exit code>`; a failure gives
  `Error: <reason>`.
- `readSms.py` is the echo variant: it answers every valid message with
  `Received: <message>`.

The project has five modules:

- `PyStr` (`py_str.dfy`): the Python string operations the handlers use.
  - `str.strip()` with Python's own whitespace set, as a pair of slices found by counting
    the leading and trailing whitespace.
  - `str.lower()` on ASCII.
  - The clamped slices `s[:n]` and `s[n:]`.
  - `"{:d}".format(n)`, with a reader back for the round trip.
- `Envelope` (`envelope.dfy`): shared by both scripts.
  - `getValue`.
  - The decode-and-validate prefix of `on_message`: `json.loads`, `getValue(...).strip()` of
    the three fields, and the empty tests.
  - The reply payload and the send topic.
- `ReadSms` (`read_sms.dfy`): the echo handler, as a function from the retain flag and the
  decoded payload to the publication it makes, if any.
- `SmsHandler` (`sms_handler.dfy`): the command relay as a function `Handle`.
  - It maps the retain flag, the decoded payload and the node's settings to a `Trace`.
  - A `Trace` is the ordered mails handed to the transport and publications, plus
    whether an exception escaped from the callback.
  - The lemmas state each branch of the response policy, and the authorisation test.
- `SmsRelay` (`sms_relay.dfy`): the same callback, written step by step as the script
  runs it.
  - It is a class `Relay` whose `effects` field records every mail and publication so far.
  - `sendMail` and `mqttClient.publish` are methods that append to `effects`.
  - `OnMessage` and `Execute` follow the branches, the early returns and the reassignment
    of `response` in `on_message`.
  - Each is proved to append exactly what `SmsHandler.Handle` / `Respond` describe.

Four things are inputs to the model, not code it models:

- **The host name and the mail sender address** are parameters: `Settings`.
- **`shlex.split(command)`** is a function parameter `split`. It returns the arguments or
  a `ValueError` text.
- **`subprocess.run(args)` followed by decoding its output** is a function parameter
  `run`. It gives the exit code and output, or an `OSError` with its `strerror`, or some
  other exception.
- **Handing a mail to the SMTP server** is a function parameter `deliver`. The mail is
  accepted, or raises an `OSError` (every `smtplib` and socket error is one), or raises
  some other exception. The exceptions `smtplib` raises itself (a refused sender, a
  failed login, a dropped connection) carry no `strerror`. Socket and SSL errors (a
  refused connection, a failed name lookup) carry one.

Two points where the code behaves differently from what one might expect; the model
follows the code:

- **Mail failures change the SMS reply.** The script's docstring
  (`smsHandler.py:9-13`) presents the mail and the SMS reply as two channels for the
  same result, so one might expect a failed mail to leave the reply alone. It does not,
  in three cases.
  - The mail of a completed run (`smsHandler.py:82`) is inside the `try` whose
    `except OSError` (`:83`) also catches the failure to launch the command.
    - A failure that carries a `strerror` (a socket or SSL error) sends a second mail,
      and turns the reply into `Error: <strerror>`.
    - A failure raised by `smtplib` itself has no `strerror`, and takes the next path.
  - A `strerror` of `None` makes `"{:s}".format` raise, so nothing is published.
  - A failed mail of a tokenizer error (`:69`) or of an `OSError` (`:87`) raises out of the
    callback before the publish.
- **No per-sender mail routing.** `sendMail` is always called with `to=''`, so every
  mail goes to the sender address alone. `MailFor` still models the `to` argument as
  `sendMail` defines it.

A `SendMail` effect records a mail handed to the transport, not a delivered one. A mail
that raised is still in the trace: `Trace([SendMail(m)], true)` is a mail attempt that
failed and ended the callback.

## Model

| member | source | states |
|---|---|---|
| Envelope.GetValue | examples/smsHandler.py:116-123 | a missing key or a `None` value gives the default; a present value is returned unchanged |
| Envelope.Field | examples/smsHandler.py:53-55 | `getValue(jsonData, key).strip()`; specified by FieldEmptyIff, and what it returns by the PyStr strip lemmas |
| Envelope.GetValueEmptyIff | examples/readSms.py:60-67 | `getValue(d, key)` is `''` exactly when the key is missing, holds `None`, or holds `''` |
| Envelope.FieldEmptyIff | examples/smsHandler.py:53-56 | a field is empty after `.strip()` exactly when it is missing, `None`, or only whitespace |
| Envelope.Parse | examples/smsHandler.py:47-58 | an accepted payload was decoded, its three fields are non-empty, and the number and message need no further stripping |
| Envelope.ParseIff | examples/readSms.py:34-45 | a payload is rejected exactly when `json.loads` fails or one of the three fields is blank; an accepted one yields the three stripped fields |
| ReadSms.OnMessage | examples/readSms.py:30-54 | the echo `on_message`: the one publication it makes, if any; specified by RetainedIsIgnored, UndecodableIsIgnored, RepliesIff and ReplyEchoes |
| ReadSms.RetainedIsIgnored | examples/readSms.py:31 | a retained message is never answered |
| ReadSms.UndecodableIsIgnored | examples/readSms.py:34-39 | a payload that is not JSON is never answered |
| ReadSms.RepliesIff | examples/readSms.py:30-54 | a reply is published exactly when the message is not retained, decodes, and has non-blank `number`, `date` and `message` |
| ReadSms.ReplyEchoes | examples/readSms.py:48-54 | the one reply goes to the send topic, to the stripped number, with `"Received: "` followed by the stripped message |
| PyStr.LeadingSpaces | examples/smsHandler.py:53-55 | the count of leading characters removed by `strip()` is maximal: all of them are whitespace and the next one is not |
| PyStr.TrailingSpaces | examples/smsHandler.py:53-55 | the count of trailing characters removed by `strip()` is maximal: all of them are whitespace and the one before is not |
| PyStr.Strip | examples/smsHandler.py:53-55 | `str.strip()`; specified by LeadingSpaces and TrailingSpaces (what is cut) and by StripEdges, StripIdempotent and StripEmptyIff |
| PyStr.StripEdges | examples/smsHandler.py:53-55 | a stripped string neither begins nor ends with whitespace |
| PyStr.StripIdempotent | examples/smsHandler.py:60 | stripping a stripped string changes nothing |
| PyStr.StripEmptyIff | examples/smsHandler.py:56 | a string strips to `''` exactly when it is all whitespace |
| PyStr.Lower | examples/smsHandler.py:59 | `lower()` keeps the length and lower-cases character by character |
| PyStr.Take | examples/smsHandler.py:59 | `s[:n]` has length `min(n, len(s))` and is a prefix of `s` |
| PyStr.Drop | examples/smsHandler.py:60 | `s[:n] + s[n:]` is `s` |
| PyStr.NatToDecimal | examples/smsHandler.py:76 | the decimal numeral of a natural number is non-empty, all digits, with no leading zero |
| PyStr.FormatInt | examples/smsHandler.py:76 | `"{:d}".format(n)` is non-empty, starts with `-` exactly when `n` is negative, and has no leading zero after the sign or for a non-zero number |
| PyStr.NatToDecimalRoundTrip | examples/smsHandler.py:76 | reading the numeral back gives the number |
| PyStr.FormatIntRoundTrip | examples/smsHandler.py:76 | reading `"{:d}".format(n)` back gives `n` |
| PyStr.NatToDecimalLength | examples/smsHandler.py:76 | a number below `10^k` takes at most `k` digits |
| PyStr.FormatIntLength32 | examples/smsHandler.py:76 | an exit code in the signed or unsigned 32-bit range takes at most 11 characters |
| SmsHandler.MailFor | examples/smsHandler.py:102-113 | the mail `sendMail` builds; specified by MailAddressing |
| SmsHandler.MailAddressing | examples/smsHandler.py:102-113 | the subject is `hostName + ": " + subject`; `To` is `to` or else the sender; the recipients are `{To, mailSender}`, so the sender always gets a copy, and there are one or two of them |
| SmsHandler.Addressed | examples/smsHandler.py:59 | the authorisation test; specified by AddressedIff, AddressedConcat, NameNeedsNoSeparator, ShortMessageIgnored and NameIgnoresCase |
| SmsHandler.CommandOf | examples/smsHandler.py:60 | the command after the host name; specified by CommandFollowsName, AddressedConcat, NameNeedsNoSeparator and CommandIsStripped |
| SmsHandler.AddressedIff | examples/smsHandler.py:59 | a message is addressed to the node exactly when it is at least as long as the host name and agrees with it, ignoring ASCII case, on the first `len(hostName)` characters |
| SmsHandler.CommandFollowsName | examples/smsHandler.py:59-60 | the command of an addressed message is the stripped rest after the host name, and needs no further stripping |
| SmsHandler.AddressedConcat | examples/smsHandler.py:59-60 | any text whose first `len(hostName)` characters match the host name up to case is addressed to it, and its command is the stripped remainder, with no separator required |
| SmsHandler.NameNeedsNoSeparator | examples/smsHandler.py:59-60 | node `NODE1` accepts `NODE10 ls` and runs `0 ls` |
| SmsHandler.ShortMessageIgnored | examples/smsHandler.py:59 | node `NODE1` ignores `NODE` |
| SmsHandler.NameIgnoresCase | examples/smsHandler.py:59 | node `NODE1` accepts `node1 ls` |
| SmsHandler.CommandIsStripped | examples/smsHandler.py:60 | `node1 ls` gives node `NODE1` the command `ls` |
| SmsHandler.ShortReply | examples/smsHandler.py:76-80 | the reply to a completed run; specified by ShortReplyBoundary, ShortReplyFits and CompletedReply |
| SmsHandler.ShortReplyBoundary | examples/smsHandler.py:76-80 | output of 69 characters is the reply; output of 70 is replaced by `Result: ` and the code |
| SmsHandler.ShortReplyFits | examples/smsHandler.py:76-80 | with an exit code in the signed or unsigned 32-bit range the reply to a completed run is under 70 characters, and is the output or `Result: ` followed by the code |
| SmsHandler.Report | examples/smsHandler.py:64-69 | mail the body, then publish the reply unless the mail raised; specified through SplitErrorReply, OsErrorReply, CompletedReply, MailFailureSuppressesReply and RespondShape |
| SmsHandler.Recover | examples/smsHandler.py:83-87 | the `except OSError` clause, which raises for a `strerror` of `None`; specified through OsErrorReply, MailFailureReplacesReply, OsErrorNoneRaises, LogMailNoneRaises and RespondShape |
| SmsHandler.Respond | examples/smsHandler.py:62-94 | tokenize, run, mail and publish for an authorised message; specified by SplitErrorReply, OsErrorReply, CompletedReply, MailFailureReplacesReply, MailFailureSuppressesReply, RespondShape and DeliveredDispatch, and implemented step by step by SmsRelay.Relay.Execute |
| SmsHandler.Handle | examples/smsHandler.py:43-96 | the whole `on_message`; specified by RetainedIsSilent, InvalidIsSilent, UnaddressedIsSilent, SilentIff, HandleResponds and NameAloneRaises, and implemented step by step by SmsRelay.Relay.OnMessage |
| SmsHandler.HandleResponds | examples/smsHandler.py:53-60 | an authorised message is answered to its stripped number, about the stripped text after the host name |
| SmsHandler.RetainedIsSilent | examples/smsHandler.py:44 | a retained message has no effect |
| SmsHandler.InvalidIsSilent | examples/smsHandler.py:47-58 | an undecodable payload, or one with a blank `number`, `date` or `message`, has no effect |
| SmsHandler.UnaddressedIsSilent | examples/smsHandler.py:59-96 | a message not addressed to the node has no effect |
| SmsHandler.NameAloneRaises | examples/smsHandler.py:59-73 | a message that is only the host name gives the empty command; with `shlex.split('') == []` and `subprocess.run([])` raising, the exception escapes before any mail or publication |
| SmsHandler.SilentIff | examples/smsHandler.py:43-96 | the callback mails nothing, publishes nothing and raises nothing exactly when the message is not authorised |
| SmsHandler.SplitErrorReply | examples/smsHandler.py:62-69 | a tokenizer error gives the reply `"Error: " + err`, mailed and then published, and the process runner is not consulted |
| SmsHandler.OsErrorReply | examples/smsHandler.py:83-94 | an `OSError` from the run gives the reply `"Error: " + strerror`, mailed and then published |
| SmsHandler.CompletedReply | examples/smsHandler.py:72-94 | a completed run mails its whole output and publishes the output if it is shorter than 70 characters, else `Result: ` and the code |
| SmsHandler.MailFailureReplacesReply | examples/smsHandler.py:82-87 | an `OSError` from mailing the output is caught like a launch failure: a second mail, and the reply `"Error: " + strerror` |
| SmsHandler.MailFailureSuppressesReply | examples/smsHandler.py:64-69 | when the mail of a tokenizer error fails, the exception escapes and nothing is published |
| SmsHandler.OsErrorNoneRaises | examples/smsHandler.py:83-85 | an `OSError` from the run with no `strerror` makes `"{:s}"` raise: no mail, no publication, and the exception escapes |
| SmsHandler.LogMailNoneRaises | examples/smsHandler.py:82-85 | a mail of the output failing with an `smtplib` error (no `strerror`) leaves that one mail attempt, then the exception escapes and nothing is published |
| SmsHandler.RespondShape | examples/smsHandler.py:62-94 | a publication comes only last and only when nothing was raised, and then it is the only one; it goes to the number on the send topic, after at least one mail; every mail goes to the sender alone, about the command |
| SmsHandler.DeliveredDispatch | examples/smsHandler.py:62-94 | when mails are accepted and the command is tokenized and run or fails to launch with a reason, the response is exactly one mail to the sender and then one publication to the number |
| SmsRelay.Relay.constructor | examples/smsHandler.py:133-155 | a new node has its settings and has made no mail and no publication |
| SmsRelay.Relay.Publish | examples/smsHandler.py:94 | `mqttClient.publish` appends one publication to the effects |
| SmsRelay.Relay.SendMail | examples/smsHandler.py:102-113 | `sendMail` appends the mail that `MailFor` builds, and reports what the transport did with it |
| SmsRelay.Relay.Accept | examples/smsHandler.py:44-60 | the step-by-step checks accept exactly the authorised messages, and give their number and command |
| SmsRelay.Relay.Execute | examples/smsHandler.py:62-94 | the step-by-step tokenize, run, mail and publish appends exactly the effects of `Respond` and raises exactly when it does |
| SmsRelay.Relay.OnMessage | examples/smsHandler.py:43-96 | the step-by-step callback appends exactly the effects of `Handle` and raises exactly when it does |

## Left out

- The MQTT client is not modelled. This covers connecting, subscribing, the last-will
  message, the retained up/down presence publishes and `loop_forever`. It is network
  plumbing: a publication is recorded as an effect, and `mqttClient.publish` is assumed
  never to raise.
- The SMTP transport is not modelled: TLS, `login`, MIME encoding and the `Date` header.
  Only the subject, the headers and the recipient set of each mail are kept. Whether the
  server accepts a mail is an input (`deliver`).
- The internals of `shlex.split` and `subprocess.run`, and the UTF-8 decoding of the
  command's output, are not modelled. They are library code, so they are inputs
  (`split`, `run`). A decoding failure of the output is one of `run`'s "other exception"
  outcomes.
- JSON is not modelled, in either direction: neither parsing the payload nor serialising
  the reply. The payload is taken as already decoded:
  - either "not JSON";
  - or an object whose values are strings or `null`.
- The UTF-8 decoding of the MQTT payload, which raises before the `try` on invalid bytes,
  is not modelled: the payload is taken as text.
- Lone surrogates are not represented. A Python `str` can hold one (JSON `"\ud800"`
  decodes to it), but a Dafny `char` is a Unicode scalar value. An envelope field
  containing one is outside the model.
- JSON values that are neither strings nor `null`, and JSON documents that are not
  objects, are not modelled. In the scripts:
  - a field value that is not a string makes `.strip()` raise;
  - a number, boolean or `null` document makes `key in jsonData` raise;
  - a list or string document makes `jsonData[key]` raise when it contains one of the
    key names, as an element or a substring;
  - a list or string document containing none of them reads every field as `''`, so the
    message is dropped silently, like a blank envelope.
- Logging, `os.chdir`, `socket.gethostname`, the random client name and the settings
  block are not modelled; they are environment and I/O. The host name and the sender
  address are parameters.
- `copyFirmware.py` is not part of this model. It is an interactive copy script, not part
  of the message handling.
- Per-sender mail routing (`mailReceivers`) is not modelled, because the code has none.
- `PyStr.Lower` lower-cases only the ASCII letters, which is weaker than Python's
  `str.lower()`. A host name or message with non-ASCII capitals is compared differently
  from Python.
- `PyStr.FormatIntLength32` and `SmsHandler.ShortReplyFits` bound the exit code to
  -2^31 .. 2^32-1. That range covers signed POSIX statuses and unsigned Windows codes.
  For integers outside it, the `Result:` reply can reach 70 characters.
- `SmsRelay.Relay.SendMail` takes the transport's outcome as a function of the mail. Two
  identical mails in one callback therefore always fare the same, which the real server
  need not do.
