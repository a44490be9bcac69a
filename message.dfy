/**
  Composition of the outgoing message (server.py, lines 65-114): the recipients check,
  the headers, the body part and the best-effort attachment loop. MIME serialisation
  is abstract: a message is its header list and its part list.
 */
module Message {
  import opened Wrappers
  import Text

  newtype byte = x: int | 0 <= x < 256

  /** The Python values the caller may pass for the recipients and the attachment paths. */
  datatype PyValue =
    | PyNone
    | PyStr(s: string)
    | PyList(items: seq<PyValue>)
    | PyOther(truthy: bool)     // any other object (tuple, dict, number, ...) with its truthiness

  /** Python truthiness. */
  predicate Truthy(v: PyValue) {
    match v
    case PyNone => false
    case PyStr(s) => s != ""
    case PyList(items) => items != []
    case PyOther(truthy) => truthy
  }

  datatype Header =
    | From(name: string, address: string)    // formataddr((from_name, from_email))
    | To(addresses: string)
    | Subject(text: string)

  datatype Part =
    | Body(text: string, subtype: string)    // MIMEText(body, body_type, 'utf-8')
    | Attachment(filename: string, mainType: string, subType: string, payload: seq<byte>)

  /** What `msg.as_string()` serialises. */
  datatype MailMessage = MailMessage(headers: seq<Header>, parts: seq<Part>)

  /**
    The `MIMEMultipart` object the send fills in place. `headers` holds only the headers
    the send sets; the Content-Type and MIME-Version headers that `MIMEMultipart()` adds
    itself belong to serialisation, which this model leaves out.
   */
  class MimeMultipart {
    var headers: seq<Header>
    var parts: seq<Part>

    constructor ()
      ensures headers == [] && parts == []
    {
      headers, parts := [], [];
    }

    /** The message the object currently holds. */
    function Snapshot(): MailMessage
      reads this
    {
      MailMessage(headers, parts)
    }

    /** `msg[name] = value`, which adds a header. */
    method SetHeader(h: Header)
      modifies this
      ensures headers == old(headers) + [h] && parts == old(parts)
    {
      headers := headers + [h];
    }

    /** `msg.attach(part)`. */
    method Attach(p: Part)
      modifies this
      ensures parts == old(parts) + [p] && headers == old(headers)
    {
      parts := parts + [p];
    }
  }

  // ---------------------------------------------------------------------------
  // Recipients (lines 72-77)
  // ---------------------------------------------------------------------------

  datatype RecipientCheck =
    | Recipients(addresses: seq<string>)
    | NotANonEmptyList    // not a list, or empty: the send returns False
    | EntryNotString      // ", ".join raises TypeError, outside the try block

  function CheckRecipients(v: PyValue): (r: RecipientCheck)
    ensures r.NotANonEmptyList? <==> !(v.PyList? && |v.items| > 0)
    ensures r.Recipients? <==> v.PyList? && |v.items| > 0 && forall i :: 0 <= i < |v.items| ==> v.items[i].PyStr?
    ensures r.Recipients? ==>
      |r.addresses| == |v.items| && forall i :: 0 <= i < |v.items| ==> v.items[i] == PyStr(r.addresses[i])
  {
    if !v.PyList? || v.items == [] then NotANonEmptyList
    else if forall i :: 0 <= i < |v.items| ==> v.items[i].PyStr? then
      Recipients(seq(|v.items|, i requires 0 <= i < |v.items| && v.items[i].PyStr? => v.items[i].s))
    else EntryNotString
  }

  /** The `To` header: the recipients joined by ", ", in order. */
  function ToHeader(recipients: seq<string>): Header {
    To(Text.Join(Text.ListSeparator, recipients))
  }

  /** The `To` header lists the recipients in order: splitting it at ", " gives them back. */
  lemma ToHeaderListsRecipients(recipients: seq<string>)
    requires |recipients| > 0
    requires forall i :: 0 <= i < |recipients| ==> Text.NoSeparator(recipients[i])
    ensures Text.SplitOnSeparator(ToHeader(recipients).addresses) == recipients
  {
    Text.SplitJoin(recipients);
  }

  // ---------------------------------------------------------------------------
  // Attachments (lines 83-114)
  // ---------------------------------------------------------------------------

  /** A file as the attachment loop finds it; `Unreadable` stands for `open`/`read` raising. */
  datatype FileState = Readable(content: seq<byte>) | Unreadable

  /** The answer of `mimetypes.guess_type(path)`. */
  datatype MimeGuess = MimeGuess(mimeType: Option<string>, encoding: Option<string>)

  /**
    The file-system and MIME-table oracles: `os.path.exists(p)` is `p in files`,
    reading a file gives `files[p]`, and `guess_type(p)` is `guess(p)`.
   */
  datatype FileSystem = FileSystem(files: map<string, FileState>, guess: string -> MimeGuess)

  const OctetStream: string := "application/octet-stream"

  /** The content type of an attachment (lines 98-100). */
  function ContentType(g: MimeGuess): string {
    if g.mimeType.None? || g.encoding.Some? then OctetStream else g.mimeType.value
  }

  /** The fallback type always splits, into "application" and "octet-stream". */
  lemma OctetStreamSplits()
    ensures Text.SplitAtFirst(OctetStream, '/') == Some(("application", "octet-stream"))
  {
    assert OctetStream == "application" + "/" + "octet-stream";
    Text.SplitAtFirstOfJoined("application", '/', "octet-stream");
  }

  /**
    One iteration of the attachment loop: the part it attaches, or `None` when it skips
    the entry (not a string, no such file, a content type without '/', or a read that raises).
   */
  function AttachmentFor(entry: PyValue, fs: FileSystem): Option<Part> {
    if !entry.PyStr? then None
    else if entry.s !in fs.files then None
    else
      match Text.SplitAtFirst(ContentType(fs.guess(entry.s)), '/')
      case None => None
      case Some((mainType, subType)) =>
        match fs.files[entry.s]
        case Unreadable => None
        case Readable(content) => Some(Attachment(Text.Basename(entry.s), mainType, subType, content))
  }

  /** What the loop attaches for one entry: nothing or one part. */
  function EntryParts(entry: PyValue, fs: FileSystem): seq<Part> {
    match AttachmentFor(entry, fs)
    case Some(p) => [p]
    case None => []
  }

  /** The parts the loop attaches for `entries`, in order. */
  function SelectAttachments(entries: seq<PyValue>, fs: FileSystem): seq<Part> {
    if entries == [] then []
    else
      EntryParts(entries[0], fs) + SelectAttachments(entries[1..], fs)
  }

  /** Lines 83-86: a falsy value attaches nothing, a non-list value is a one-entry list. */
  function AttachmentEntries(paths: PyValue): seq<PyValue> {
    if !Truthy(paths) then [] else if paths.PyList? then paths.items else [paths]
  }

  lemma {:induction false} SelectAttachmentsAppend(a: seq<PyValue>, b: seq<PyValue>, fs: FileSystem)
    ensures SelectAttachments(a + b, fs) == SelectAttachments(a, fs) + SelectAttachments(b, fs)
  {
    if a != [] {
      assert (a + b)[1..] == a[1..] + b;
      SelectAttachmentsAppend(a[1..], b, fs);
    } else {
      assert a + b == b;
    }
  }

  /** An entry the loop keeps, stated independently of the loop's order of checks. */
  predicate Accepted(entry: PyValue, fs: FileSystem) {
    && entry.PyStr?
    && entry.s in fs.files
    && fs.files[entry.s].Readable?
    && '/' in ContentType(fs.guess(entry.s))
  }

  /** The part for an accepted path: its basename, its content type split at the first '/', its bytes. */
  function PartFor(path: string, fs: FileSystem): (p: Part)
    requires Accepted(PyStr(path), fs)
    ensures p.Attachment? && '/' !in p.mainType
    ensures p.mainType + "/" + p.subType == ContentType(fs.guess(path))
  {
    Text.SplitAtFirstCharacterized(ContentType(fs.guess(path)), '/');
    var split := Text.SplitAtFirst(ContentType(fs.guess(path)), '/').value;
    Attachment(Text.Basename(path), split.0, split.1, fs.files[path].content)
  }

  /**
    The content type of what the loop attaches for an accepted path: the guessed type,
    or application/octet-stream when no type is guessed or the file is compressed, cut at
    its first '/'.
   */
  lemma AttachedContentType(path: string, fs: FileSystem)
    requires Accepted(PyStr(path), fs)
    ensures AttachmentFor(PyStr(path), fs).Some?
    ensures var a := AttachmentFor(PyStr(path), fs).value;
      var g := fs.guess(path);
      && a.Attachment?
      && '/' !in a.mainType
      && a.mainType + "/" + a.subType ==
           (if g.mimeType.None? || g.encoding.Some? then "application/octet-stream" else g.mimeType.value)
  {
    Text.SplitAtFirstCharacterized(ContentType(fs.guess(path)), '/');
  }

  /**
    A readable file whose type is not guessed, or that is compressed, is always attached,
    as application/octet-stream: the fallback never makes the split fail.
   */
  lemma FallbackAlwaysAttaches(path: string, fs: FileSystem)
    requires path in fs.files && fs.files[path].Readable?
    requires fs.guess(path).mimeType.None? || fs.guess(path).encoding.Some?
    ensures AttachmentFor(PyStr(path), fs) ==
      Some(Attachment(Text.Basename(path), "application", "octet-stream", fs.files[path].content))
  {
    OctetStreamSplits();
  }

  /** The accepted paths among `entries`, in order. */
  function AcceptedPaths(entries: seq<PyValue>, fs: FileSystem): (r: seq<string>)
    ensures forall k :: 0 <= k < |r| ==> Accepted(PyStr(r[k]), fs)
  {
    if entries == [] then []
    else (if Accepted(entries[0], fs) then [entries[0].s] else []) + AcceptedPaths(entries[1..], fs)
  }

  /** The parts for a list of accepted paths. */
  function PartsFor(paths: seq<string>, fs: FileSystem): seq<Part>
    requires forall k :: 0 <= k < |paths| ==> Accepted(PyStr(paths[k]), fs)
  {
    if paths == [] then [] else [PartFor(paths[0], fs)] + PartsFor(paths[1..], fs)
  }

  /**
    The attached parts are exactly the accepted entries, in input order; every other entry
    is skipped.
   */
  lemma {:induction false} SelectAttachmentsAreAcceptedEntries(entries: seq<PyValue>, fs: FileSystem)
    ensures SelectAttachments(entries, fs) == PartsFor(AcceptedPaths(entries, fs), fs)
  {
    if entries != [] {
      SelectAttachmentsAreAcceptedEntries(entries[1..], fs);
      var e := entries[0];
      var rest := AcceptedPaths(entries[1..], fs);
      if e.PyStr? {
        Text.SplitAtFirstCharacterized(ContentType(fs.guess(e.s)), '/');
      }
      if Accepted(e, fs) {
        assert AttachmentFor(e, fs) == Some(PartFor(e.s, fs));
        assert AcceptedPaths(entries, fs) == [e.s] + rest;
        assert ([e.s] + rest)[1..] == rest;
      } else {
        assert AttachmentFor(e, fs).None?;
        assert AcceptedPaths(entries, fs) == rest;
      }
    }
  }

  /** An entry that is not accepted attaches nothing. */
  lemma RejectedEntryAttachesNothing(entry: PyValue, fs: FileSystem)
    requires !Accepted(entry, fs)
    ensures AttachmentFor(entry, fs).None?
  {
    if entry.PyStr? {
      Text.SplitAtFirstCharacterized(ContentType(fs.guess(entry.s)), '/');
    }
  }

  /** One bad entry removes only itself: the other entries are attached as without it. */
  lemma SkippedEntryChangesNothingElse(before: seq<PyValue>, entry: PyValue, after: seq<PyValue>, fs: FileSystem)
    requires !Accepted(entry, fs)
    ensures SelectAttachments(before + [entry] + after, fs) == SelectAttachments(before + after, fs)
  {
    RejectedEntryAttachesNothing(entry, fs);
    assert SelectAttachments([entry], fs) == [] by { assert [entry][1..] == []; }
    SelectAttachmentsAppend(before + [entry], after, fs);
    SelectAttachmentsAppend(before, [entry], fs);
    SelectAttachmentsAppend(before, after, fs);
  }

  /** The attachment loop (lines 83-114), appending to `msg` in place. */
  method AttachFiles(msg: MimeMultipart, paths: PyValue, fs: FileSystem)
    modifies msg
    ensures msg.parts == old(msg.parts) + SelectAttachments(AttachmentEntries(paths), fs)
    ensures msg.headers == old(msg.headers)
  {
    if !Truthy(paths) {
      return;
    }
    var entries := if paths.PyList? then paths.items else [paths];
    var i := 0;
    while i < |entries|
      invariant 0 <= i <= |entries|
      invariant msg.parts == old(msg.parts) + SelectAttachments(entries[..i], fs)
      invariant msg.headers == old(msg.headers)
    {
      var entry := entries[i];
      SelectAttachmentsAppend(entries[..i], [entry], fs);
      assert entries[..i + 1] == entries[..i] + [entry];
      assert [entry][1..] == [];
      i := i + 1;
      if !entry.PyStr? {
        continue;
      }
      var path := entry.s;
      if path !in fs.files {
        continue;
      }
      var filename := Text.Basename(path);
      var ctype := ContentType(fs.guess(path));
      var split := Text.SplitAtFirst(ctype, '/');
      if split.None? {
        continue;      // ValueError from the unpacking, caught at line 112
      }
      var (mainType, subType) := split.value;
      var file := fs.files[path];
      if file.Unreadable? {
        continue;      // open/read raised, caught at line 112
      }
      msg.Attach(Attachment(filename, mainType, subType, file.content));
    }
    assert entries[..i] == entries;
  }
}
