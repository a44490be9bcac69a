/**
  Resolution of the delivery settings from the process environment
  (server.py, lines 42-62 and 67-68): every variable is looked up once per send,
  with the defaults the mailer applies.
 */
module Config {
  import opened Wrappers
  import Text

  /** The process environment: variable name to value. */
  type Env = map<string, string>

  datatype DeliveryConfig = DeliveryConfig(
    host: string,
    port: int,
    secure: bool,        // implicit TLS from the first byte
    user: string,
    password: string,
    fromName: string,
    fromAddress: string)

  datatype Resolution =
    | Resolved(config: DeliveryConfig)
    | PortNotInteger      // int(SMTP_PORT) raises ValueError: an exception, not a False result
    | MissingCredentials  // the send returns False before any connection

  const DefaultPort: int := 465
  const DefaultFromName: string := "Sender"

  /** `os.getenv(key)`. */
  function GetEnv(env: Env, key: string): Option<string> {
    if key in env then Some(env[key]) else None
  }

  /** A variable that is set to a non-empty value. */
  predicate IsSet(env: Env, key: string) {
    key in env && env[key] != ""
  }

  /** `int(os.getenv("SMTP_PORT", 465))`; `None` when `int()` raises. */
  function ResolvePort(env: Env): Option<int> {
    match GetEnv(env, "SMTP_PORT")
    case None => Some(DefaultPort)
    case Some(text) => Text.ParseInt(text)
  }

  /** The secure flag: inferred from the port unless SMTP_SECURE is set. */
  function ResolveSecure(env: Env, port: int): bool {
    match GetEnv(env, "SMTP_SECURE")
    case None => port == DefaultPort
    case Some(flag) => Text.ToLower(flag) == "true"
  }

  /** The whole configuration block of the send. */
  function Resolve(env: Env): (r: Resolution)
    ensures r.PortNotInteger? <==> "SMTP_PORT" in env && Text.ParseInt(env["SMTP_PORT"]).None?
    ensures r.MissingCredentials? <==>
      !r.PortNotInteger? && !(IsSet(env, "SMTP_HOST") && IsSet(env, "SMTP_USER") && IsSet(env, "SMTP_PASS"))
    ensures r.Resolved? ==>
      && r.config.host == env["SMTP_HOST"] != ""
      && r.config.user == env["SMTP_USER"] != ""
      && r.config.password == env["SMTP_PASS"] != ""
    // the port: 465 when unset, otherwise the parsed value
    ensures r.Resolved? && "SMTP_PORT" !in env ==> r.config.port == 465
    ensures r.Resolved? && "SMTP_PORT" in env ==> Text.ParseInt(env["SMTP_PORT"]) == Some(r.config.port)
    // the secure flag: port 465 when SMTP_SECURE is unset, otherwise a case variant of "true"
    ensures r.Resolved? && "SMTP_SECURE" !in env ==> (r.config.secure <==> r.config.port == 465)
    ensures r.Resolved? && "SMTP_SECURE" in env ==>
      var flag := env["SMTP_SECURE"];
      (r.config.secure <==>
        |flag| == 4 && (flag[0] == 't' || flag[0] == 'T') && (flag[1] == 'r' || flag[1] == 'R')
                    && (flag[2] == 'u' || flag[2] == 'U') && (flag[3] == 'e' || flag[3] == 'E'))
    // the display name: "Sender" when unset or empty
    ensures r.Resolved? ==>
      r.config.fromName == if IsSet(env, "DEFAULT_FROM_NAME") then env["DEFAULT_FROM_NAME"] else "Sender"
    // the from-address: DEFAULT_FROM_EMAIL as given, SMTP_USER when it is unset
    ensures r.Resolved? ==>
      r.config.fromAddress == if "DEFAULT_FROM_EMAIL" in env then env["DEFAULT_FROM_EMAIL"] else r.config.user
  {
    match ResolvePort(env)
    case None => PortNotInteger
    case Some(port) =>
      if !(IsSet(env, "SMTP_HOST") && IsSet(env, "SMTP_USER") && IsSet(env, "SMTP_PASS")) then MissingCredentials
      else
        var fromName := if "DEFAULT_FROM_NAME" in env then env["DEFAULT_FROM_NAME"] else DefaultFromName;
        // from_email is never None here, since SMTP_USER is set, so `from_email or ""` keeps it
        var fromEmail := if "DEFAULT_FROM_EMAIL" in env then env["DEFAULT_FROM_EMAIL"] else env["SMTP_USER"];
        Text.LowerIsTrueIffCaseVariant(if "SMTP_SECURE" in env then env["SMTP_SECURE"] else "");
        Resolved(DeliveryConfig(
          env["SMTP_HOST"], port, ResolveSecure(env, port), env["SMTP_USER"], env["SMTP_PASS"],
          if fromName != "" then fromName else DefaultFromName,   // from_name or "Sender"
          fromEmail))
  }

  /** The environment variables the mailer reads. */
  const Variables: set<string> :=
    {"SMTP_HOST", "SMTP_PORT", "SMTP_SECURE", "SMTP_USER", "SMTP_PASS", "DEFAULT_FROM_NAME", "DEFAULT_FROM_EMAIL"}

  /** Variables other than the seven above have no influence on the configuration. */
  lemma ResolveReadsOnlyItsVariables(env: Env, other: Env)
    requires forall k :: k in Variables ==> (k in env <==> k in other)
    requires forall k :: k in Variables && k in env ==> env[k] == other[k]
    ensures Resolve(env) == Resolve(other)
  {
  }

  /**
    A port written in decimal in SMTP_PORT is the port used; written with more digits
    than `int()` converts, it raises.
   */
  lemma PortFromDecimal(env: Env, port: int)
    requires "SMTP_PORT" in env && env["SMTP_PORT"] == Text.IntToString(port)
    ensures |Text.Decimal(if port < 0 then -port else port)| <= Text.MaxStrDigits ==>
      && !Resolve(env).PortNotInteger?
      && (Resolve(env).Resolved? ==> Resolve(env).config.port == port)
    ensures |Text.Decimal(if port < 0 then -port else port)| > Text.MaxStrDigits ==> Resolve(env).PortNotInteger?
  {
    Text.ParseIntOfIntToString(port);
  }

  /** SMTP_PORT=587 with SMTP_SECURE unset resolves to a plain (STARTTLS-capable) connection. */
  lemma Port587IsNotSecure(env: Env)
    requires "SMTP_PORT" in env && env["SMTP_PORT"] == "587" && "SMTP_SECURE" !in env
    requires IsSet(env, "SMTP_HOST") && IsSet(env, "SMTP_USER") && IsSet(env, "SMTP_PASS")
    ensures Resolve(env).Resolved? && Resolve(env).config.port == 587 && !Resolve(env).config.secure
  {
    assert Text.Decimal(587) == "587" by {
      assert Text.Decimal(58) == "58" by { assert Text.Decimal(5) == "5"; }
    }
    PortFromDecimal(env, 587);
  }
}
