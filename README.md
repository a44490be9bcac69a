# send_mail_mcp: a Dafny model of the send operation

The repository is a small tool server with one tool: send an email, optionally with
file attachments. All of its logic is in `_send_email_core` in `server.py`. This project
models that function in five steps:

1. **Configuration** (`Config`, `config.dfy`). The seven environment variables become a
   `DeliveryConfig`, or one of two failures:
   - `PortNotInteger`: `int(SMTP_PORT)` raises;
   - `MissingCredentials`: host, user or password is absent or empty.

   Defaults: port 465; `secure` inferred from the port unless `SMTP_SECURE` is set;
   display name "Sender"; from-address = `SMTP_USER`.
2. **Recipients and headers** (`Message`, `message.dfy`). The recipients value must be a
   non-empty list. The `To` header is the `", "`-join of the recipients. `From` and
   `Subject` are set on a `MimeMultipart` object that is filled in place.
3. **Attachments** (`Message.AttachFiles`). A loop goes over the attachment paths. It
   skips non-strings, missing files, types it cannot split and files it cannot read. Each
   kept file is attached with its basename and its content type. The content type falls
   back to `application/octet-stream`.
4. **Delivery** (`Delivery`, `delivery.dfy`). The server is a script of per-step outcomes.
   `Deliver` runs the steps in order and emits the trace of transport calls it makes:
   - connect, over SSL or plain;
   - STARTTLS, only when the server advertises it;
   - login, then sendmail;
   - in the emulated `finally`, `quit`, but only when a server object was created.

   Every exception becomes a False result, classified by the `except` clause that
   catches it.
5. **The send** (`Mailer`, `mailer.dfy`). `SendEmailCore` chains the four steps. Between
   the credentials check and the recipients check, `formataddr` rejects a from-address
   that is not ASCII by raising. It is
   proved equal to the specification function `Send`, and the lemmas about `Send` state
   the end-to-end properties.

Files: `wrappers.dfy` (Option), `text.dfy` (Python string behaviour the mailer relies
on), `config.dfy`, `message.dfy`, `delivery.dfy`, `mailer.dfy`.

The inputs outside the program are parameters:
- the process environment is a `map<string, string>`;
- `os.path.exists`, reading a file and `mimetypes.guess_type` form the `FileSystem`
  oracle;
- the SMTP server is a `Transport` script.

### Where the code departs from its own comments (the model follows the code)

The tool's docstring (server.py:193-194) says the send returns True on success and False
on failure. Three inputs make `_send_email_core` raise instead, outside every `try`:
- a non-numeric `SMTP_PORT`: `int()` raises `ValueError` (line 44), before the
  credentials are checked;
- a from-address with a character outside ASCII: `formataddr` raises
  `UnicodeEncodeError` (line 69), before the recipients are checked;
- a recipient list with a non-string entry: `", ".join` raises `TypeError` (line 77).

A recipients value that is not a list returns False, just as an empty list does.

The comment at line 66 says the from-address is made non-empty. If `DEFAULT_FROM_EMAIL`
is set to the empty string, the from-address is still empty (lines 57 and 68). It does
not fall back to the user name.

## Model

| member | source | states |
|---|---|---|
| Config.Resolve | server.py:42-68 | A non-numeric SMTP_PORT gives PortNotInteger. Otherwise a missing or empty host, user or password gives MissingCredentials. Otherwise the config carries those three values, and: port 465 when unset, else the parsed value; secure == (port == 465) when SMTP_SECURE is unset, else secure iff it is one of the 16 case variants of "true"; display name "Sender" when unset or empty; from-address DEFAULT_FROM_EMAIL when set, else SMTP_USER |
| Config.ResolvePort | server.py:44 | Defines the port: 465 when SMTP_PORT is unset, else int() of its value, None when int() raises |
| Config.ResolveSecure | server.py:46-51 | Defines the secure flag: port == 465 when SMTP_SECURE is unset, else its lower-cased value equals "true" |
| Config.ResolveReadsOnlyItsVariables | server.py:42-57 | Two environments that agree on the seven variables resolve to the same result |
| Config.PortFromDecimal | server.py:44 | An SMTP_PORT holding the decimal form of p, with at most 4300 digits, never raises and gives port p. With more digits it raises |
| Config.Port587IsNotSecure | server.py:44-51 | SMTP_PORT=587 with SMTP_SECURE unset resolves to a plain connection on port 587 |
| Text.ParseInt | server.py:44 | Defines Python's int() on a string: surrounding whitespace stripped, an optional sign, then at most 4300 ASCII digits (the default of sys.get_int_max_str_digits()); None where int() raises ValueError |
| Text.ToLower | server.py:51 | Defines str.lower() on ASCII letters |
| Text.IsAscii | server.py:69 | Defines when encoding a string as ASCII succeeds: every code point below 128 |
| Text.Join | server.py:77 | Defines sep.join(xs) |
| Text.Basename | server.py:97 | Defines POSIX os.path.basename: what follows the last '/' |
| Text.SplitAtFirst | server.py:102 | Defines the unpacking of s.split(c, 1): the parts around the first c, None where the unpacking raises |
| Text.ParseIntOfIntToString | server.py:44 | The model's decimal rendering of an integer parses back to that integer when it has at most 4300 digits, and is refused when it has more |
| Text.LowerIsTrueIffCaseVariant | server.py:51 | s.lower() == "true" iff s is one of the 16 case variants of "true" |
| Text.SplitJoin | server.py:77 | Splitting the ", "-joined list at ", " gives the list back when no item contains ", " |
| Text.BasenameIsLastComponent | server.py:97 | The basename holds no '/', is a suffix of the path, and is preceded by '/' unless it is the whole path |
| Text.SplitAtFirstCharacterized | server.py:102 | split('/', 1) unpacks iff '/' occurs; then the head holds no '/' and head + "/" + tail is the input |
| Text.SplitAtFirstOfJoined | server.py:102 | For a head without '/', splitting head + "/" + tail gives back exactly (head, tail) |
| Message.MimeMultipart.constructor | server.py:65 | A new message has no headers and no parts |
| Message.MimeMultipart.SetHeader | server.py:69-79 | Assigning a header appends it and leaves the parts alone |
| Message.MimeMultipart.Attach | server.py:80-110 | attach appends the part and leaves the headers alone |
| Message.ToHeader | server.py:77 | Defines the To header: the recipients joined by ", ", in order |
| Message.CheckRecipients | server.py:72-77 | Not a list, or empty: rejected. A non-empty list with an entry that is not a string: the join raises. Otherwise: the addresses, entry for entry |
| Message.ToHeaderListsRecipients | server.py:77 | The To header lists the recipients in order. Splitting it at ", " recovers them when no address contains ", " |
| Message.ContentType | server.py:98-100 | Defines the attachment's content type: application/octet-stream when no type is guessed or an encoding is, otherwise the guessed type |
| Message.OctetStreamSplits | server.py:99-102 | The fallback type always splits, into "application" and "octet-stream" |
| Message.AttachmentFor | server.py:88-112 | Defines one iteration of the loop: None for a non-string, a missing file, a type without '/' or a read that raises, checked in that order; otherwise the part |
| Message.AttachmentEntries | server.py:83-86 | Defines the entries the loop runs over: none for a falsy value, the items of a list, otherwise the value itself as the one entry |
| Message.SelectAttachments | server.py:88-114 | Defines the loop's output: the parts of the entries, in order |
| Message.AttachedContentType | server.py:97-110 | An accepted path is attached with the guessed type, or application/octet-stream when no type is guessed or an encoding is, cut at its first '/' |
| Message.FallbackAlwaysAttaches | server.py:98-110 | A readable file with no guessed type, or with an encoding, is always attached, as application/octet-stream |
| Message.RejectedEntryAttachesNothing | server.py:89-112 | An entry that is not accepted attaches nothing |
| Message.PartFor | server.py:97-110 | An accepted path gives an attachment whose main type has no '/' and whose main/sub types recombine to the content type |
| Message.AcceptedPaths | server.py:88-114 | Every path it returns is accepted: a string, an existing and readable file, and a content type with a '/' |
| Message.SelectAttachmentsAppend | server.py:88-114 | The loop's output over a + b is its output over a followed by its output over b |
| Message.SelectAttachmentsAreAcceptedEntries | server.py:88-114 | The attached parts are exactly the accepted entries' parts, in input order |
| Message.SkippedEntryChangesNothingElse | server.py:89-95 | Removing a rejected entry leaves the attached parts unchanged: a bad entry affects only itself |
| Message.AttachFiles | server.py:83-114 | The loop appends to the message exactly the parts for the accepted entries of the normalised path list (a falsy value gives no entries; a non-list value gives one). The headers do not change |
| Delivery.DeliveryTrace | server.py:116-170 | Defines the transport calls of the delivery block: the planned calls up to and including the first that raises, then quit iff a server object was created |
| Delivery.DeliveryResult | server.py:118-163 | Defines the block's value: sent iff no planned call raises, else the kind of the first exception |
| Delivery.FirstFailure | server.py:118-149 | The position returned is the first step that raises, or the length when no step raises |
| Delivery.Deliver | server.py:116-170 | The result is Sent iff no planned call raised, else the kind of the first exception. The trace is the attempted prefix of connect, [STARTTLS], login, sendmail, then quit iff connected |
| Delivery.ConnectsFirst | server.py:122-127 | The first transport call is the connect: over SSL iff secure, to the configured host and port |
| Delivery.StartTlsIffAdvertised | server.py:125-134 | STARTTLS is issued iff the connection is plain, the connect succeeded and the server advertises it |
| Delivery.QuitOnceIffConnected | server.py:164-170 | quit appears exactly once iff the connect created a server object, and it is then the last call |
| Delivery.EnvelopeIsExact | server.py:137-146 | sendmail is issued at most once, always right after login, with the configured from-address, the recipient list and the composed message |
| Delivery.SentIffEveryStepSucceeds | server.py:118-149 | The delivery returns True iff connect, the STARTTLS it needs, login and sendmail all succeed |
| Delivery.FailureIsFirstRaisingStep | server.py:151-163 | A failed delivery is classified by the first call that raised: connect, then STARTTLS, login, sendmail |
| Delivery.TraceByFirstRaisingStep | server.py:117-170 | The trace, case by case on which call raises first, with quit after every connected case |
| Delivery.QuitOutcomeIsIgnored | server.py:164-170 | What quit does changes neither the result nor the trace |
| Delivery.SentMeansMailWasSent | server.py:146-149 | A delivery that returns True has issued its sendmail |
| Delivery.HasExtn | server.py:129 | Defines smtplib's has_extn: the lower-cased name is among the keywords of the last EHLO reply |
| Delivery.StartTlsNeverSentBeforeEhlo | server.py:124-139 | As written, has_extn is asked before any EHLO: no STARTTLS is ever issued, and a plain connection goes from connect straight to login |
| Delivery.StartTlsAfterEhlo | server.py:124-134 | With the answer taken from the EHLO reply, STARTTLS is issued iff the connection is plain, the connect succeeded and the reply lists "starttls" |
| Mailer.ComposedMessage | server.py:65-114 | Defines the message handed to sendmail at line 146: From, To and Subject headers, the body part, then the loop's attachments |
| Mailer.Send | server.py:30-170 | Defines the outcome and the transport calls of one send, check by check in the source's order |
| Mailer.SendEmailCore | server.py:30-170 | The imperative send (in-place message, attachment loop, delivery) produces exactly the outcome and trace of Send |
| Mailer.BadPortRaises | server.py:44 | A non-numeric SMTP_PORT raises before any other check, with no transport call |
| Mailer.MissingCredentialsNeverConnect | server.py:59-62 | A missing or empty host, user or password gives False with no transport call, whatever the recipients |
| Mailer.NonAsciiFromAddressRaises | server.py:60-74 | With valid credentials, a from-address holding a character outside ASCII raises before the recipients check, with no transport call |
| Mailer.RaisesIffOneOfThree | server.py:44-77 | The send raises iff SMTP_PORT is not an integer, or the config resolves and the from-address is not ASCII, or it resolves and the recipients are a non-empty list with a non-string entry. A raising send has made no transport call |
| Mailer.InvalidRecipientsNeverConnect | server.py:69-74 | With a resolved config and an ASCII from-address, a recipients value that is not a non-empty list gives False with no transport call |
| Mailer.TrueIffEveryStepSucceeds | server.py:60-163 | The send returns True iff the config resolves, the from-address is ASCII, the recipients are a non-empty list of strings, and connect, the STARTTLS it needs, login and sendmail all succeed |
| Mailer.QuitExactlyOnceAfterConnecting | server.py:116-170 | Whenever any transport call is made, quit is made exactly once iff the connect created a server |
| Mailer.SentEnvelopeAndMessage | server.py:65-146 | The sendmail has: from-address DEFAULT_FROM_EMAIL, else SMTP_USER; the given recipient list; From, ", "-joined To and Subject headers; the body part followed by the accepted attachments in order |
| Mailer.AttachmentsNeverDecideOutcome | server.py:83-114 | Any attachment paths and any files give the same outcome and the same number of transport calls |
| Mailer.NonListAttachmentIsSingleton | server.py:83-86 | A truthy non-list attachment value is sent exactly as a one-entry list |
| Mailer.ScenarioResolves | server.py:42-68 | The scenario environment resolves to SSL on port 465, display name "Sender", from-address SMTP_USER |
| Mailer.ScenarioAllAccepted | server.py:116-149 | All steps accepted: True, SSL connect to port 465, login, one sendmail to ["a@example.com"], quit |
| Mailer.ScenarioLoginRejected | server.py:141-168 | Authentication rejected: False, and the trace is connect, login, quit |
| Mailer.ScenarioMissingAttachment | server.py:93-95 | A path that does not exist is skipped. The mail is still delivered, with the body part only |

## Findings

| source | as written | input that shows it | evidently intended | confidence | as-written member | corrected member |
|---|---|---|---|---|---|---|
| server.py:129 | `server.has_extn('STARTTLS')` is asked right after `smtplib.SMTP(...)`, before any `ehlo()`. smtplib records no extension until EHLO, so the answer is always False | SMTP_SECURE=false, SMTP_PORT=587, a server whose EHLO reply lists STARTTLS: the calls are connect, login, sendmail, quit, and the login goes out unencrypted | send EHLO first, so that STARTTLS is issued whenever the server offers it | not executed; follows from smtplib's behaviour | Delivery.StartTlsNeverSentBeforeEhlo | Delivery.StartTlsAfterEhlo |

The rest of the model uses the intended behaviour: `Transport.advertisesStartTls` is the
answer once the EHLO reply is known.

## Left out

- Loading `.env` (lines 15-22), the FastMCP instance and the tool wrapper (lines 26 and 175-205), `__main__` (lines 209-220) and `client_test.py`. The wrapper only forwards its arguments and returns the core's result.
- All `print` logging.
- MIME serialisation. The rendering done by `formataddr`, the UTF-8 charset of the body, base64 encoding, the `Content-Disposition` header and `as_string()` are library calls. The message is its list of headers plus its list of parts.
- The SMTP protocol itself and the 10-second connect timeouts. The server is a script: for each call, it either succeeds or raises an exception of one of the four classes the `except` clauses distinguish. A partial recipient refusal, which `sendmail` reports by returning, counts as success.
- The answer of `server.has_extn('STARTTLS')` is a script input (see Findings). The rest of smtplib is not part of this model.
- Delivery.Deliver: assumes `msg.as_string()` (line 146) does not raise. It is evaluated before `sendmail` is called, and recent versions of the email package raise `HeaderWriteError` for a header with an embedded line break. The source would then return False without calling `sendmail`, whereas the model's trace records a `SendMail` whose outcome the script decides.
- Mailer.SendEmailCore: of the header assignments, only `formataddr`'s ASCII check on the address is modelled as raising. Encoding the display name, the To header and the subject are assumed not to raise.
- The `mimetypes` table, `os.path.exists` and file reading are oracles: a map of files to their bytes or an unreadable state, and a guess function.
- `MIMEBase` construction and base64 encoding inside the attachment `try` are assumed not to raise. Only the unpacking of the type split and the file read raise.
- Text.ParseInt: Python's `int()` also accepts underscores between digits, non-ASCII decimal digits and Unicode whitespace. These are not modelled.
- Text.ToLower: maps ASCII letters only. For the comparison with "true" this is exact, since no other character lower-cases to t, r, u or e.
- Text.Basename: POSIX paths only.
- The subject and the body are strings. The default values of `attachment_paths` (None) and `body_type` ('plain') are passed explicitly by the caller.
- Mailer.AttachmentsNeverDecideOutcome: compares the outcome and the number of transport calls, not the message inside the sendmail call, which does depend on the attachments.
