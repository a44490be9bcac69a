/**
  The send operation `_send_email_core` (server.py, lines 30-170): resolve the
  configuration, check the recipients, compose the message, deliver it, and turn every
  failure into a False result — except the three exceptions the source raises outside its
  `try` blocks.
 */
module Mailer {
  import opened Wrappers
  import Text
  import Config
  import Message
  import Delivery

  /** Exceptions the send lets escape instead of returning False. */
  datatype Uncaught =
    | PortNotInteger       // int(SMTP_PORT), line 44
    | FromAddressNotAscii  // formataddr((from_name, from_email)) encodes the address as ASCII, line 69
    | RecipientNotString   // ", ".join(recipients), line 77

  datatype Reason =
    | MissingCredentials                          // lines 60-62
    | InvalidRecipients                           // lines 72-74
    | TransportFailure(kind: Delivery.ErrorKind)  // lines 151-163

  datatype Outcome = Delivered | Failed(reason: Reason) | Raised(error: Uncaught) {
    /** The Python return value; `None` when the call raises instead of returning. */
    function Returned(): Option<bool> {
      match this
      case Delivered => Some(true)
      case Failed(_) => Some(false)
      case Raised(_) => None
    }
  }

  /** The arguments of `_send_email_core`. */
  datatype EmailRequest = EmailRequest(
    to: Message.PyValue,
    subject: string,
    body: string,
    attachmentPaths: Message.PyValue,   // None by default
    bodyType: string)                   // "plain" by default

  /** The message the send composes for a resolved configuration and checked recipients. */
  function ComposedMessage(cfg: Config.DeliveryConfig, recipients: seq<string>, request: EmailRequest, fs: Message.FileSystem): Message.MailMessage {
    Message.MailMessage(
      [Message.From(cfg.fromName, cfg.fromAddress), Message.ToHeader(recipients), Message.Subject(request.subject)],
      [Message.Body(request.body, request.bodyType)]
      + Message.SelectAttachments(Message.AttachmentEntries(request.attachmentPaths), fs))
  }

  function OutcomeOf(r: Delivery.Result): Outcome {
    match r
    case Sent => Delivered
    case Caught(kind) => Failed(TransportFailure(kind))
  }

  /** The outcome and the transport trace of one send. */
  function Send(env: Config.Env, request: EmailRequest, fs: Message.FileSystem, t: Delivery.Transport): (Outcome, seq<Delivery.Action>) {
    match Config.Resolve(env)
    case PortNotInteger => (Raised(PortNotInteger), [])
    case MissingCredentials => (Failed(MissingCredentials), [])
    case Resolved(cfg) =>
      if !Text.IsAscii(cfg.fromAddress) then (Raised(FromAddressNotAscii), [])
      else match Message.CheckRecipients(request.to)
      case NotANonEmptyList => (Failed(InvalidRecipients), [])
      case EntryNotString => (Raised(RecipientNotString), [])
      case Recipients(recipients) =>
        var msg := ComposedMessage(cfg, recipients, request, fs);
        (OutcomeOf(Delivery.DeliveryResult(cfg, t)), Delivery.DeliveryTrace(cfg, recipients, msg, t))
  }

  method SendEmailCore(env: Config.Env, request: EmailRequest, fs: Message.FileSystem, t: Delivery.Transport)
    returns (outcome: Outcome, trace: seq<Delivery.Action>)
    ensures (outcome, trace) == Send(env, request, fs, t)
  {
    var resolution := Config.Resolve(env);
    if resolution.PortNotInteger? {
      return Raised(PortNotInteger), [];
    }
    if resolution.MissingCredentials? {
      return Failed(MissingCredentials), [];
    }
    var cfg := resolution.config;
    var msg := new Message.MimeMultipart();
    if !Text.IsAscii(cfg.fromAddress) {
      return Raised(FromAddressNotAscii), [];
    }
    msg.SetHeader(Message.From(cfg.fromName, cfg.fromAddress));
    var check := Message.CheckRecipients(request.to);
    if check.NotANonEmptyList? {
      return Failed(InvalidRecipients), [];
    }
    if check.EntryNotString? {
      return Raised(RecipientNotString), [];
    }
    var recipients := check.addresses;
    msg.SetHeader(Message.ToHeader(recipients));
    msg.SetHeader(Message.Subject(request.subject));
    msg.Attach(Message.Body(request.body, request.bodyType));
    Message.AttachFiles(msg, request.attachmentPaths, fs);
    var composed := msg.Snapshot();       // msg.as_string()
    assert composed == ComposedMessage(cfg, recipients, request, fs);
    var result;
    result, trace := Delivery.Deliver(cfg, recipients, composed, t);
    outcome := OutcomeOf(result);
  }

  // ---------------------------------------------------------------------------
  // Properties of the send
  // ---------------------------------------------------------------------------

  /** A non-numeric SMTP_PORT raises before anything else is checked. */
  lemma BadPortRaises(env: Config.Env, request: EmailRequest, fs: Message.FileSystem, t: Delivery.Transport)
    requires "SMTP_PORT" in env && Text.ParseInt(env["SMTP_PORT"]).None?
    ensures Send(env, request, fs, t) == (Raised(PortNotInteger), [])
  {
  }

  /**
    Without host, user or password the send returns False and makes no transport call,
    whatever the recipients are.
   */
  lemma MissingCredentialsNeverConnect(env: Config.Env, request: EmailRequest, fs: Message.FileSystem, t: Delivery.Transport)
    requires !Config.IsSet(env, "SMTP_HOST") || !Config.IsSet(env, "SMTP_USER") || !Config.IsSet(env, "SMTP_PASS")
    requires "SMTP_PORT" !in env || Text.ParseInt(env["SMTP_PORT"]).Some?
    ensures Send(env, request, fs, t) == (Failed(MissingCredentials), [])
  {
  }

  /**
    A from-address that is not ASCII raises in `formataddr` before the recipients are
    looked at, with no transport call, whatever the recipients are.
   */
  lemma NonAsciiFromAddressRaises(env: Config.Env, request: EmailRequest, fs: Message.FileSystem, t: Delivery.Transport)
    requires Config.IsSet(env, "SMTP_HOST") && Config.IsSet(env, "SMTP_USER") && Config.IsSet(env, "SMTP_PASS")
    requires "SMTP_PORT" !in env || Text.ParseInt(env["SMTP_PORT"]).Some?
    requires var address := if "DEFAULT_FROM_EMAIL" in env then env["DEFAULT_FROM_EMAIL"] else env["SMTP_USER"];
      exists i :: 0 <= i < |address| && address[i] as int >= 128
    ensures Send(env, request, fs, t) == (Raised(FromAddressNotAscii), [])
  {
  }

  /** The send raises exactly in three cases, and then it has made no transport call. */
  lemma RaisesIffOneOfThree(env: Config.Env, request: EmailRequest, fs: Message.FileSystem, t: Delivery.Transport)
    ensures Send(env, request, fs, t).0.Returned().None? <==>
      || ("SMTP_PORT" in env && Text.ParseInt(env["SMTP_PORT"]).None?)
      || (Config.Resolve(env).Resolved? && !Text.IsAscii(Config.Resolve(env).config.fromAddress))
      || (&& Config.Resolve(env).Resolved?
          && request.to.PyList? && |request.to.items| > 0
          && exists i :: 0 <= i < |request.to.items| && !request.to.items[i].PyStr?)
    ensures Send(env, request, fs, t).0.Returned().None? ==> Send(env, request, fs, t).1 == []
  {
  }

  /** A recipients value that is not a non-empty list: False, and no transport call. */
  lemma InvalidRecipientsNeverConnect(env: Config.Env, request: EmailRequest, fs: Message.FileSystem, t: Delivery.Transport)
    requires Config.Resolve(env).Resolved?
    requires Text.IsAscii(Config.Resolve(env).config.fromAddress)
    requires !(request.to.PyList? && |request.to.items| > 0)
    ensures Send(env, request, fs, t) == (Failed(InvalidRecipients), [])
  {
  }

  /** The send returns True iff configuration, recipients and every transport call succeed. */
  lemma TrueIffEveryStepSucceeds(env: Config.Env, request: EmailRequest, fs: Message.FileSystem, t: Delivery.Transport)
    ensures Send(env, request, fs, t).0.Returned() == Some(true) <==>
      && Config.Resolve(env).Resolved?
      && Text.IsAscii(Config.Resolve(env).config.fromAddress)
      && request.to.PyList? && |request.to.items| > 0
      && (forall i :: 0 <= i < |request.to.items| ==> request.to.items[i].PyStr?)
      && t.connect.Ok?
      && (Config.Resolve(env).config.secure || !t.advertisesStartTls || t.starttls.Ok?)
      && t.login.Ok? && t.sendmail.Ok?
  {
    if Config.Resolve(env).Resolved? {
      Delivery.SentIffEveryStepSucceeds(Config.Resolve(env).config, t);
    }
  }

  /** Whenever a transport call is made, `quit` follows exactly once iff the connect created a server. */
  lemma QuitExactlyOnceAfterConnecting(env: Config.Env, request: EmailRequest, fs: Message.FileSystem, t: Delivery.Transport)
    ensures var trace := Send(env, request, fs, t).1;
      trace != [] ==> multiset(trace)[Delivery.Quit] == (if t.connect.Ok? then 1 else 0)
  {
    var r := Config.Resolve(env);
    if r.Resolved? && Text.IsAscii(r.config.fromAddress) && Message.CheckRecipients(request.to).Recipients? {
      var recipients := Message.CheckRecipients(request.to).addresses;
      Delivery.QuitOnceIffConnected(r.config, recipients, ComposedMessage(r.config, recipients, request, fs), t);
    }
  }

  /**
    The one `sendmail` uses the resolved from-address (DEFAULT_FROM_EMAIL, else SMTP_USER),
    the recipient list as given, and the composed message: From, To (", "-joined) and
    Subject headers, the body part first, then the accepted attachments in order.
   */
  lemma SentEnvelopeAndMessage(env: Config.Env, request: EmailRequest, fs: Message.FileSystem, t: Delivery.Transport)
    ensures var trace := Send(env, request, fs, t).1;
      forall i :: 0 <= i < |trace| && trace[i].SendMail? ==>
        var mail := trace[i];
        var cfg := Config.Resolve(env).config;
        && mail.fromAddress == (if "DEFAULT_FROM_EMAIL" in env then env["DEFAULT_FROM_EMAIL"] else env["SMTP_USER"])
        && request.to == Message.PyList(seq(|mail.recipients|, k requires 0 <= k < |mail.recipients| => Message.PyStr(mail.recipients[k])))
        && mail.message.headers == [
             Message.From(cfg.fromName, mail.fromAddress),
             Message.To(Text.Join(", ", mail.recipients)),
             Message.Subject(request.subject)]
        && mail.message.parts ==
             [Message.Body(request.body, request.bodyType)]
             + Message.PartsFor(
                 Message.AcceptedPaths(Message.AttachmentEntries(request.attachmentPaths), fs), fs)
  {
    var r := Config.Resolve(env);
    var trace := Send(env, request, fs, t).1;
    if r.Resolved? && Message.CheckRecipients(request.to).Recipients? {
      var recipients := Message.CheckRecipients(request.to).addresses;
      var msg := ComposedMessage(r.config, recipients, request, fs);
      Delivery.EnvelopeIsExact(r.config, recipients, msg, t);
      Message.SelectAttachmentsAreAcceptedEntries(Message.AttachmentEntries(request.attachmentPaths), fs);
      assert request.to == Message.PyList(seq(|recipients|, k requires 0 <= k < |recipients| => Message.PyStr(recipients[k])));
    }
  }

  /** Attachments never decide the result: any attachment list and any files give the same outcome. */
  lemma AttachmentsNeverDecideOutcome(env: Config.Env, request: EmailRequest, fs: Message.FileSystem,
                                      paths: Message.PyValue, otherFs: Message.FileSystem, t: Delivery.Transport)
    ensures Send(env, request, fs, t).0 == Send(env, request.(attachmentPaths := paths), otherFs, t).0
    ensures |Send(env, request, fs, t).1| == |Send(env, request.(attachmentPaths := paths), otherFs, t).1|
  {
  }

  /** A single non-list attachment value is sent as a one-entry list. */
  lemma NonListAttachmentIsSingleton(env: Config.Env, request: EmailRequest, fs: Message.FileSystem, t: Delivery.Transport)
    requires Message.Truthy(request.attachmentPaths) && !request.attachmentPaths.PyList?
    ensures Send(env, request, fs, t) == Send(env, request.(attachmentPaths := Message.PyList([request.attachmentPaths])), fs, t)
  {
  }

  // ---------------------------------------------------------------------------
  // Scenarios
  // ---------------------------------------------------------------------------

  const ScenarioEnv: Config.Env :=
    map["SMTP_HOST" := "smtp.example.com", "SMTP_USER" := "me@example.com", "SMTP_PASS" := "app-token"]

  const ScenarioRequest: EmailRequest :=
    EmailRequest(Message.PyList([Message.PyStr("a@example.com")]), "S", "B", Message.PyNone, "plain")

  const NoFiles: Message.FileSystem := Message.FileSystem(map[], _ => Message.MimeGuess(None, None))

  const AcceptingServer: Delivery.Transport :=
    Delivery.Transport(Delivery.Ok, false, Delivery.Ok, Delivery.Ok, Delivery.Ok, Delivery.Ok)

  /** The scenario's configuration: SSL on port 465, sent from SMTP_USER, an ASCII address. */
  lemma ScenarioResolves()
    ensures Config.Resolve(ScenarioEnv) == Config.Resolved(Config.DeliveryConfig(
      "smtp.example.com", 465, true, "me@example.com", "app-token", "Sender", "me@example.com"))
    ensures Text.IsAscii("me@example.com")
  {
  }

  /** Every step accepted: True, over SSL on port 465, with one `sendmail` to ["a@example.com"]. */
  lemma ScenarioAllAccepted()
    ensures var (outcome, trace) := Send(ScenarioEnv, ScenarioRequest, NoFiles, AcceptingServer);
      && outcome.Returned() == Some(true)
      && |trace| == 4
      && trace[0] == Delivery.ConnectSsl("smtp.example.com", 465)
      && trace[1] == Delivery.Login("me@example.com", "app-token")
      && trace[2].SendMail? && trace[2].fromAddress == "me@example.com" && trace[2].recipients == ["a@example.com"]
      && trace[3] == Delivery.Quit
  {
    ScenarioResolves();
  }

  /** Login rejected: False, and the connection is still torn down. */
  lemma ScenarioLoginRejected()
    ensures var (outcome, trace) := Send(ScenarioEnv, ScenarioRequest, NoFiles,
                                         AcceptingServer.(login := Delivery.Raises(Delivery.AuthenticationError)));
      && outcome == Failed(TransportFailure(Delivery.AuthenticationError))
      && outcome.Returned() == Some(false)
      && trace == [Delivery.ConnectSsl("smtp.example.com", 465), Delivery.Login("me@example.com", "app-token"), Delivery.Quit]
  {
    ScenarioResolves();
  }

  /** A path that does not exist is skipped: the mail still goes out, with the body part only. */
  lemma ScenarioMissingAttachment()
    ensures var request := ScenarioRequest.(attachmentPaths := Message.PyList([Message.PyStr("/tmp/missing.pdf")]));
      var (outcome, trace) := Send(ScenarioEnv, request, NoFiles, AcceptingServer);
      && outcome == Delivered
      && |trace| == 4 && trace[2].SendMail?
      && trace[2].message.parts == [Message.Body("B", "plain")]
  {
    ScenarioResolves();
  }
}
