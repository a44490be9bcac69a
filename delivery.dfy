/**
  The delivery block of the send (server.py, lines 116-170): connect (implicit TLS or
  plain, then STARTTLS when the server advertises it), log in, send once, and in a
  `finally` quit when a server object was created. The transport is a script of
  per-step outcomes; the method emits the trace of transport actions it performs.
 */
module Delivery {
  import Text
  import Config
  import Message

  /** The class of the exception a step raises, which decides the `except` clause that catches it. */
  datatype ErrorKind =
    | AuthenticationError   // smtplib.SMTPAuthenticationError (line 151)
    | ConnectError          // smtplib.SMTPConnectError (line 154)
    | OtherSmtpError        // any other smtplib.SMTPException (line 158)
    | OtherError            // any other Exception, e.g. socket errors (line 161)

  datatype Step = Ok | Raises(kind: ErrorKind)

  /** The scripted server: what each transport call does when it is made. */
  datatype Transport = Transport(
    connect: Step,               // SMTP_SSL(...) or SMTP(...): Ok means a server object exists
    advertisesStartTls: bool,    // server.has_extn('STARTTLS') once the EHLO reply is known
    starttls: Step,
    login: Step,
    sendmail: Step,
    quit: Step)                  // its failure is swallowed (lines 169-170)

  datatype Action =
    | ConnectSsl(host: string, port: int)
    | ConnectPlain(host: string, port: int)
    | StartTls
    | Login(user: string, password: string)
    | SendMail(fromAddress: string, recipients: seq<string>, message: Message.MailMessage)
    | Quit

  /** The value of the delivery block: returned True, or caught an exception of this kind. */
  datatype Result = Sent | Caught(kind: ErrorKind)

  // ---------------------------------------------------------------------------
  // Specification: steps run in order and stop at the first that raises
  // ---------------------------------------------------------------------------

  function ConnectAction(cfg: Config.DeliveryConfig): Action {
    if cfg.secure then ConnectSsl(cfg.host, cfg.port) else ConnectPlain(cfg.host, cfg.port)
  }

  predicate UsesStartTls(cfg: Config.DeliveryConfig, t: Transport) {
    !cfg.secure && t.advertisesStartTls
  }

  /** The transport calls of a successful delivery, in order. */
  function Plan(cfg: Config.DeliveryConfig, recipients: seq<string>, msg: Message.MailMessage, t: Transport): seq<Action> {
    [ConnectAction(cfg)]
    + (if UsesStartTls(cfg, t) then [StartTls] else [])
    + [Login(cfg.user, cfg.password), SendMail(cfg.fromAddress, recipients, msg)]
  }

  /** What each planned call does, position by position. */
  function Responses(cfg: Config.DeliveryConfig, t: Transport): (r: seq<Step>)
    ensures |r| == if UsesStartTls(cfg, t) then 4 else 3
  {
    [t.connect] + (if UsesStartTls(cfg, t) then [t.starttls] else []) + [t.login, t.sendmail]
  }

  /** The position of the first step that raises, or the length when none does. */
  function FirstFailure(steps: seq<Step>): (k: nat)
    ensures k <= |steps|
    ensures forall i :: 0 <= i < k ==> steps[i].Ok?
    ensures k < |steps| ==> steps[k].Raises?
  {
    if steps == [] || steps[0].Raises? then 0 else 1 + FirstFailure(steps[1..])
  }

  /** The number of planned calls made: up to and including the first that raises. */
  function Attempted(steps: seq<Step>): nat {
    var k := FirstFailure(steps);
    if k < |steps| then k + 1 else k
  }

  /** The trace of the delivery block: the attempted prefix of the plan, then `quit` iff connected. */
  function DeliveryTrace(cfg: Config.DeliveryConfig, recipients: seq<string>, msg: Message.MailMessage, t: Transport): seq<Action> {
    Plan(cfg, recipients, msg, t)[..Attempted(Responses(cfg, t))] + (if t.connect.Ok? then [Quit] else [])
  }

  /** The result of the delivery block: sent iff no planned call raised, else the first exception. */
  function DeliveryResult(cfg: Config.DeliveryConfig, t: Transport): Result {
    var steps := Responses(cfg, t);
    var k := FirstFailure(steps);
    if k == |steps| then Sent else Caught(steps[k].kind)
  }

  // ---------------------------------------------------------------------------
  // The delivery block
  // ---------------------------------------------------------------------------

  method Deliver(cfg: Config.DeliveryConfig, recipients: seq<string>, msg: Message.MailMessage, t: Transport)
    returns (result: Result, trace: seq<Action>)
    ensures result == DeliveryResult(cfg, t)
    ensures trace == DeliveryTrace(cfg, recipients, msg, t)
  {
    FailureIsFirstRaisingStep(cfg, t);
    TraceByFirstRaisingStep(cfg, recipients, msg, t);
    var serverCreated := false;           // server = None
    var raised: Step := Ok;               // the exception in flight, if any
    trace := [];
    // try:
    if cfg.secure {
      trace := trace + [ConnectSsl(cfg.host, cfg.port)];
      if t.connect.Raises? { raised := t.connect; } else { serverCreated := true; }
    } else {
      trace := trace + [ConnectPlain(cfg.host, cfg.port)];
      if t.connect.Raises? {
        raised := t.connect;
      } else {
        serverCreated := true;
        if t.advertisesStartTls {
          trace := trace + [StartTls];
          if t.starttls.Raises? { raised := t.starttls; }
        }
      }
    }
    if raised.Ok? {
      trace := trace + [Login(cfg.user, cfg.password)];
      if t.login.Raises? { raised := t.login; }
    }
    if raised.Ok? {
      trace := trace + [SendMail(cfg.fromAddress, recipients, msg)];
      if t.sendmail.Raises? { raised := t.sendmail; }
    }
    // return True, or the except clause for the exception's kind returns False
    result := if raised.Ok? then Sent else Caught(raised.kind);
    // finally: quit when a server object exists; a failing quit is swallowed
    if serverCreated {
      trace := trace + [Quit];
    }
  }

  // ---------------------------------------------------------------------------
  // Properties of the delivery block
  // ---------------------------------------------------------------------------

  /** The first transport call is the connect, over SSL exactly when `secure`. */
  lemma ConnectsFirst(cfg: Config.DeliveryConfig, recipients: seq<string>, msg: Message.MailMessage, t: Transport)
    ensures var trace := DeliveryTrace(cfg, recipients, msg, t);
      |trace| > 0 && trace[0] == (if cfg.secure then ConnectSsl(cfg.host, cfg.port) else ConnectPlain(cfg.host, cfg.port))
  {
  }

  /** STARTTLS is issued iff the connection is plain, connected, and the server advertises it. */
  lemma StartTlsIffAdvertised(cfg: Config.DeliveryConfig, recipients: seq<string>, msg: Message.MailMessage, t: Transport)
    ensures StartTls in DeliveryTrace(cfg, recipients, msg, t) <==> !cfg.secure && t.connect.Ok? && t.advertisesStartTls
  {
    var plan := Plan(cfg, recipients, msg, t);
    var n := Attempted(Responses(cfg, t));
    var trace := DeliveryTrace(cfg, recipients, msg, t);
    assert trace == plan[..n] + (if t.connect.Ok? then [Quit] else []);
    if UsesStartTls(cfg, t) && t.connect.Ok? {
      assert n >= 2 && trace[1] == StartTls;
    } else if UsesStartTls(cfg, t) {
      assert n == 1;
      assert trace == [plan[0]];
    } else {
      assert forall i :: 0 <= i < |plan| ==> plan[i] != StartTls;
    }
  }

  /** `quit` is called exactly once iff a server object was created, and then it is the last call. */
  lemma QuitOnceIffConnected(cfg: Config.DeliveryConfig, recipients: seq<string>, msg: Message.MailMessage, t: Transport)
    ensures var trace := DeliveryTrace(cfg, recipients, msg, t);
      && multiset(trace)[Quit] == (if t.connect.Ok? then 1 else 0)
      && (t.connect.Ok? ==> trace[|trace| - 1] == Quit)
  {
  }

  /** At most one `sendmail`, always with the configured from-address, the recipients and the message. */
  lemma EnvelopeIsExact(cfg: Config.DeliveryConfig, recipients: seq<string>, msg: Message.MailMessage, t: Transport)
    ensures var trace := DeliveryTrace(cfg, recipients, msg, t);
      && (forall i :: 0 <= i < |trace| && trace[i].SendMail? ==>
            trace[i] == SendMail(cfg.fromAddress, recipients, msg) && i > 0 && trace[i - 1] == Login(cfg.user, cfg.password))
      && multiset(trace)[SendMail(cfg.fromAddress, recipients, msg)] <= 1
  {
    TraceByFirstRaisingStep(cfg, recipients, msg, t);
  }

  /** The delivery block returns True iff every transport call it makes succeeds. */
  lemma SentIffEveryStepSucceeds(cfg: Config.DeliveryConfig, t: Transport)
    ensures DeliveryResult(cfg, t) == Sent <==>
      t.connect.Ok? && (cfg.secure || !t.advertisesStartTls || t.starttls.Ok?) && t.login.Ok? && t.sendmail.Ok?
  {
    var steps := Responses(cfg, t);
    var k := FirstFailure(steps);
    if k == |steps| {
      assert steps[0].Ok? && steps[|steps| - 1].Ok? && steps[|steps| - 2].Ok?;
      assert UsesStartTls(cfg, t) ==> steps[1].Ok?;
    } else {
      assert steps[k].Raises?;
    }
  }

  /** A failed delivery is classified by the first call that raised. */
  lemma FailureIsFirstRaisingStep(cfg: Config.DeliveryConfig, t: Transport)
    ensures DeliveryResult(cfg, t) ==
      if t.connect.Raises? then Caught(t.connect.kind)
      else if UsesStartTls(cfg, t) && t.starttls.Raises? then Caught(t.starttls.kind)
      else if t.login.Raises? then Caught(t.login.kind)
      else if t.sendmail.Raises? then Caught(t.sendmail.kind)
      else Sent
  {
    var steps := Responses(cfg, t);
    var k := FirstFailure(steps);
    assert steps[0] == t.connect;
    if UsesStartTls(cfg, t) {
      assert steps[1] == t.starttls && steps[2] == t.login && steps[3] == t.sendmail;
    } else {
      assert steps[1] == t.login && steps[2] == t.sendmail;
    }
  }

  /** The trace, case by case on the first call that raises. */
  lemma TraceByFirstRaisingStep(cfg: Config.DeliveryConfig, recipients: seq<string>, msg: Message.MailMessage, t: Transport)
    ensures var connect := ConnectAction(cfg);
      var tls := if UsesStartTls(cfg, t) then [StartTls] else [];
      var login := Login(cfg.user, cfg.password);
      DeliveryTrace(cfg, recipients, msg, t) ==
        if t.connect.Raises? then [connect]
        else if UsesStartTls(cfg, t) && t.starttls.Raises? then [connect, StartTls, Quit]
        else if t.login.Raises? then [connect] + tls + [login, Quit]
        else [connect] + tls + [login, SendMail(cfg.fromAddress, recipients, msg), Quit]
  {
    var steps := Responses(cfg, t);
    var plan := Plan(cfg, recipients, msg, t);
    assert steps[0] == t.connect;
    if UsesStartTls(cfg, t) {
      assert steps[1] == t.starttls && steps[2] == t.login && steps[3] == t.sendmail;
    } else {
      assert steps[1] == t.login && steps[2] == t.sendmail;
    }
  }

  /** What `quit` does changes neither the result nor the trace. */
  lemma QuitOutcomeIsIgnored(cfg: Config.DeliveryConfig, recipients: seq<string>, msg: Message.MailMessage, t: Transport, q: Step)
    ensures DeliveryResult(cfg, t.(quit := q)) == DeliveryResult(cfg, t)
    ensures DeliveryTrace(cfg, recipients, msg, t.(quit := q)) == DeliveryTrace(cfg, recipients, msg, t)
  {
  }

  // ---------------------------------------------------------------------------
  // has_extn before EHLO
  // ---------------------------------------------------------------------------

  /**
    smtplib's `has_extn(name)`: whether the lower-cased name is among the extension keywords
    of the last EHLO reply. smtplib records no keyword until `ehlo()` runs.
   */
  predicate HasExtn(features: set<string>, name: string) {
    Text.ToLower(name) in features
  }

  /** The extensions smtplib knows right after connecting, before any EHLO. */
  const FeaturesBeforeEhlo: set<string> := {}

  lemma StartTlsKeyword()
    ensures Text.ToLower("STARTTLS") == "starttls"
  {
    var lower := Text.ToLower("STARTTLS");
    assert |lower| == 8;
    assert lower[0] == 's' && lower[1] == 't' && lower[2] == 'a' && lower[3] == 'r';
    assert lower[4] == 't' && lower[5] == 't' && lower[6] == 'l' && lower[7] == 's';
  }

  /**
    As written (line 129): `has_extn('STARTTLS')` is asked before any EHLO, so STARTTLS is
    never issued and a plain connection goes straight to `login`, unencrypted.
   */
  lemma StartTlsNeverSentBeforeEhlo(cfg: Config.DeliveryConfig, recipients: seq<string>, msg: Message.MailMessage, t: Transport)
    requires t.advertisesStartTls == HasExtn(FeaturesBeforeEhlo, "STARTTLS")
    ensures StartTls !in DeliveryTrace(cfg, recipients, msg, t)
    ensures !cfg.secure && t.connect.Ok? ==>
      DeliveryTrace(cfg, recipients, msg, t)[..2] == [ConnectPlain(cfg.host, cfg.port), Login(cfg.user, cfg.password)]
  {
    StartTlsIffAdvertised(cfg, recipients, msg, t);
    TraceByFirstRaisingStep(cfg, recipients, msg, t);
  }

  /**
    As intended: with the answer taken from the EHLO reply, STARTTLS is issued on a plain
    connection exactly when the server lists the extension.
   */
  lemma StartTlsAfterEhlo(cfg: Config.DeliveryConfig, recipients: seq<string>, msg: Message.MailMessage, t: Transport, features: set<string>)
    requires t.advertisesStartTls == HasExtn(features, "STARTTLS")
    ensures StartTls in DeliveryTrace(cfg, recipients, msg, t) <==> !cfg.secure && t.connect.Ok? && "starttls" in features
  {
    StartTlsKeyword();
    StartTlsIffAdvertised(cfg, recipients, msg, t);
  }

  /** A delivery that returns True has issued its one `sendmail`. */
  lemma SentMeansMailWasSent(cfg: Config.DeliveryConfig, recipients: seq<string>, msg: Message.MailMessage, t: Transport)
    requires DeliveryResult(cfg, t) == Sent
    ensures SendMail(cfg.fromAddress, recipients, msg) in DeliveryTrace(cfg, recipients, msg, t)
  {
    var plan := Plan(cfg, recipients, msg, t);
    var steps := Responses(cfg, t);
    assert Attempted(steps) == |plan|;
    assert DeliveryTrace(cfg, recipients, msg, t)[|plan| - 1] == SendMail(cfg.fromAddress, recipients, msg);
  }
}
