/**
 * The scheduled fetch: `EmailFetchService.fetch_and_store_emails`.
 *
 * The run is created (flushed, not committed), the IMAP connection opened, INBOX
 * selected and searched; every message number found is fetched and the message
 * is stored unless the fetch failed, it has no `Message-ID` or an email with that
 * `Message-ID` exists.  The filter rules are never consulted.  Each attachment part
 * gets a row named "PENDING"; after its file is written under the name
 * `ID<email>-<attachment>-<original>` the row is renamed, and when the write fails
 * only that row is deleted: the email still counts as saved.  A decoding error
 * while collecting a body text aborts the walk: the session is rolled back and the
 * run finished as "error".  Close is attempted and logout sent on every path once
 * the connection is open.
 *
 * The reference definitions are the folds `StoreParts` and `StoreAll`: the store,
 * the folder and the remaining write outcomes after the accepted messages.
 */
module EmailFetchService {
  import opened Wrappers
  import opened Text
  import opened Seqs
  import opened Dedup
  import opened Models
  import opened StoredNames
  import opened Storage
  import opened Repositories
  import opened StoreInvariants
  import opened ImapSearch

  // ---------------- decoded messages ----------------

  /** One MIME part as `msg.walk()` yields it. */
  datatype Part = Part(
    contentType: string,          // get_content_type()
    disposition: Option<string>,  // the Content-Disposition header
    filename: Option<string>,     // get_filename()
    payload: Option<Bytes>,       // get_payload(decode=True)
    charset: string,              // get_content_charset() or "utf-8"
    text: Option<string>)         // the payload decoded with `charset`, or none when the codec is unknown

  /** A fetched message, parsed; `root` is the message itself, first in walk order. */
  datatype ParsedMessage = ParsedMessage(
    messageId: Option<string>,
    sender: Option<string>,
    to: Option<string>,
    cc: Option<string>,
    subject: Option<string>,
    date: Option<string>,          // the Date header
    parsedDate: Option<Timestamp>, // what parsing it gives, none when parsing raises
    multipart: bool,
    root: Part,
    subparts: seq<Part>)

  /** `msg.walk()`: the message itself, then its parts. */
  function PartsOf(m: ParsedMessage): (r: seq<Part>)
    ensures |r| >= 1 && r[0] == m.root
  {
    [m.root] + m.subparts
  }

  predicate HasPayload(p: Part) {
    p.payload.Some? && p.payload.value != []
  }

  predicate IsAttachmentDisposition(p: Part) {
    Contains(Lower(p.disposition.GetOr("")), "attachment")
  }

  /** A part whose text goes into the body: plain text, not marked as an attachment, non-empty. */
  predicate IsBodyPart(p: Part) {
    p.contentType == "text/plain" && !IsAttachmentDisposition(p) && HasPayload(p)
  }

  /** The outcome of decoding text: the text, or the text of the exception raised. */
  datatype Decoded = Decoded(text: string) | DecodeFailed(error: string)

  /** `bytes.decode` with an unknown codec raises a `LookupError` with this text. */
  function UnknownEncoding(charset: string): string {
    "unknown encoding: " + charset
  }

  function PartText(p: Part): Decoded {
    if p.text.Some? then Decoded(p.text.value) else DecodeFailed(UnknownEncoding(p.charset))
  }

  /** The body collected from the first parts of a walk, or the first decoding error. */
  function BodyOf(parts: seq<Part>): Decoded
    decreases |parts|
  {
    if parts == [] then Decoded("")
    else
      var prev := BodyOf(parts[..|parts| - 1]);
      var p := parts[|parts| - 1];
      if prev.DecodeFailed? || !IsBodyPart(p) then prev
      else
        match PartText(p)
        case Decoded(t) => Decoded(prev.text + t)
        case DecodeFailed(e) => DecodeFailed(e)
  }

  /** The body text of a message: the text parts of a multipart message, or the payload of a single part. */
  function BodyText(m: ParsedMessage): Decoded {
    if m.multipart then BodyOf(PartsOf(m))
    else if HasPayload(m.root) then PartText(m.root)
    else Decoded("")
  }

  /** `received_at`: the parsed Date header when there is one and it parses, otherwise the clock. */
  function ReceivedAt(m: ParsedMessage, now: Timestamp): (r: Timestamp)
    ensures Truthy(m.date) && m.parsedDate.Some? ==> r == m.parsedDate.value
    ensures !Truthy(m.date) || m.parsedDate.None? ==> r == now
  {
    if Truthy(m.date) && m.parsedDate.Some? then m.parsedDate.value else now
  }

  // ---------------- reference definitions ----------------

  /** A part the attachment walk stores: marked as an attachment and with a filename. */
  predicate IsAttachmentPart(p: Part) {
    IsAttachmentDisposition(p) && Truthy(p.filename)
  }

  /** `part.get_payload(decode=True) or b""`. */
  function PartData(p: Part): Bytes {
    p.payload.GetOr([])
  }

  /** The row of an attachment part once its file is written. */
  function StoredRow(id: nat, emailId: nat, p: Part, now: Timestamp): Attachment {
    Attachment(id, emailId, p.filename.GetOr(""), StoredName(emailId, id, ScheduledSeparator, p.filename.GetOr("")),
               Some(p.contentType), Some(|PartData(p)|), now)
  }

  /** The email row of a stored message. */
  function EmailRow(id: nat, m: ParsedMessage, body: string, now: Timestamp): Email {
    NewEmail(id, m.messageId.GetOr(""), m.sender.GetOr(""), m.to, m.cc, m.subject, Some(body), Some(ReceivedAt(m, now)), now)
  }

  /** The store, the folder and the write outcomes still to come, as the walk goes. */
  datatype Progress = Progress(db: Db, files: map<string, Bytes>, script: seq<WriteOutcome>)

  /**
   * One part of the attachment walk: an attachment part takes the next attachment
   * id and the next write outcome; its row stays (renamed) when the write succeeds
   * and is deleted when it fails.  Any other part changes nothing.
   */
  function StorePart(w: Progress, emailId: nat, p: Part, now: Timestamp): Progress {
    if !IsAttachmentPart(p) then w
    else
      var row := StoredRow(w.db.nextAttachmentId, emailId, p, now);
      var outcome := NextOutcome(w.script);
      Progress(
        if outcome.WriteOk?
        then w.db.(attachments := w.db.attachments + [row], nextAttachmentId := w.db.nextAttachmentId + 1)
        else w.db.(nextAttachmentId := w.db.nextAttachmentId + 1),
        AfterWrite(w.files, row.filenameStored, PartData(p), outcome),
        RestScript(w.script))
  }

  function StoreParts(w: Progress, emailId: nat, parts: seq<Part>, now: Timestamp): Progress
    decreases |parts|
  {
    if parts == [] then w
    else StorePart(StoreParts(w, emailId, parts[..|parts| - 1], now), emailId, parts[|parts| - 1], now)
  }

  /** A message (whose body decodes: the walk never gets past one that does not): its email row, then its attachment walk. */
  function StoreMessage(w: Progress, m: ParsedMessage, now: Timestamp): Progress {
    var body := if BodyText(m).Decoded? then BodyText(m).text else "";
    var e := EmailRow(w.db.nextEmailId, m, body, now);
    StoreParts(Progress(w.db.(emails := w.db.emails + [e], nextEmailId := w.db.nextEmailId + 1), w.files, w.script),
               e.id, PartsOf(m), now)
  }

  // ---------------- IMAP ----------------

  /** What `imap.fetch(num, "(RFC822)")` gives: a status other than OK, or the message. */
  datatype FetchReply = FetchFailed | Delivered(msg: ParsedMessage)

  /** A message number from the search and what fetching it gives. */
  datatype Found = Found(num: string, reply: FetchReply)

  /** What `imap.select` or `imap.search` gives: a status, or an exception (a BAD reply, a dropped connection) with its text. */
  datatype Reply = Answered(code: string) | Raises(detail: string)

  /** The replies of the mailbox: those of select and search, the search data and the messages found. */
  datatype Mailbox = Mailbox(select: Reply, search: Reply, searchData: string, found: seq<Found>)

  /** `open_imap_connection()`: a connection, or the text of the exception it raised. */
  datatype Connection = Opened(box: Mailbox) | OpenRaised(detail: string)

  datatype ImapCommand = Select(mailbox: string) | Search(args: seq<string>) | Fetch(num: string, items: string) | Close | Logout

  function FetchCommands(found: seq<Found>): (r: seq<ImapCommand>)
    ensures |r| == |found|
  {
    seq(|found|, k requires 0 <= k < |found| => Fetch(found[k].num, "(RFC822)"))
  }

  /** One more message number, one more fetch command at the end. */
  lemma FetchCommandsStep(found: seq<Found>, i: nat)
    requires i < |found|
    ensures FetchCommands(found[..i + 1]) == FetchCommands(found[..i]) + [Fetch(found[i].num, "(RFC822)")]
  {
    assert found[..i + 1][..i] == found[..i];
  }

  /** The `Message-ID` under which a found message is stored, if the fetch worked and it has one. */
  function KeyOf(f: Found): Option<string> {
    if f.reply.Delivered? && Truthy(f.reply.msg.messageId) then f.reply.msg.messageId else None
  }

  /** A delivered message whose body fails to decode: storing it raises. */
  predicate Aborts(f: Found) {
    f.reply.Delivered? && BodyText(f.reply.msg).DecodeFailed?
  }

  function StoreFound(w: Progress, f: Found, now: Timestamp): Progress {
    if f.reply.Delivered? then StoreMessage(w, f.reply.msg, now) else w
  }

  /** The walk over the accepted messages, in order. */
  function StoreAll(w: Progress, accepted: seq<Found>, now: Timestamp): Progress
    decreases |accepted|
  {
    if accepted == [] then w
    else StoreFound(StoreAll(w, accepted[..|accepted| - 1], now), accepted[|accepted| - 1], now)
  }

  const SelectError: string := "Não foi possível selecionar INBOX"

  function SearchError(data: string): string {
    "Erro ao buscar mensagens: " + data
  }

  // ---------------- properties of the reference definitions ----------------

  /** Walking the parts one more step. */
  lemma StorePartsSnoc(w: Progress, emailId: nat, parts: seq<Part>, p: Part, now: Timestamp)
    ensures StoreParts(w, emailId, parts + [p], now) == StorePart(StoreParts(w, emailId, parts, now), emailId, p, now)
  {
    assert (parts + [p])[..|parts|] == parts;
  }

  lemma StoreAllSnoc(w: Progress, accepted: seq<Found>, f: Found, now: Timestamp)
    ensures StoreAll(w, accepted + [f], now) == StoreFound(StoreAll(w, accepted, now), f, now)
  {
    assert (accepted + [f])[..|accepted|] == accepted;
  }

  /**
   * One attachment part keeps every constraint of the store and keeps every row
   * backed; the other tables and the files of the rows already there do not change.
   */
  lemma StorePartKeepsValid(w: Progress, emailId: nat, p: Part, now: Timestamp)
    requires ValidDb(w.db) && emailId in EmailIds(w.db) && BlobsBacked(w.db, w.files)
    ensures var r := StorePart(w, emailId, p, now);
            && ValidDb(r.db) && BlobsBacked(r.db, r.files) && emailId in EmailIds(r.db)
            && r.db.emails == w.db.emails && r.db.nextEmailId == w.db.nextEmailId
            && r.db.runs == w.db.runs && r.db.nextRunId == w.db.nextRunId && r.db.filters == w.db.filters
            && (forall n :: n in StoredNameSet(w.db) ==> n in r.files && r.files[n] == w.files[n])
  {
    if IsAttachmentPart(p) {
      var r := StorePart(w, emailId, p, now);
      var row := StoredRow(w.db.nextAttachmentId, emailId, p, now);
      FreshNameUnused(w.db, emailId, row.id, ScheduledSeparator, row.filenameOriginal);
      BlobsBackedFrame(w.db, w.files, r.files);
      if NextOutcome(w.script).WriteOk? {
        InsertAttachmentKeepsValid(w.db, row, ScheduledSeparator);
        BlobsBackedInsert(w.db, row, r.files);
      }
      assert EmailIds(r.db) == EmailIds(w.db);
      assert StoredNameSet(r.db.(nextAttachmentId := w.db.nextAttachmentId)) <= StoredNameSet(w.db) + {row.filenameStored};
    }
  }

  lemma {:induction false} StorePartsKeepsValid(w: Progress, emailId: nat, parts: seq<Part>, now: Timestamp)
    requires ValidDb(w.db) && emailId in EmailIds(w.db) && BlobsBacked(w.db, w.files)
    ensures var r := StoreParts(w, emailId, parts, now);
            && ValidDb(r.db) && BlobsBacked(r.db, r.files) && emailId in EmailIds(r.db)
            && r.db.emails == w.db.emails && r.db.nextEmailId == w.db.nextEmailId
            && r.db.runs == w.db.runs && r.db.nextRunId == w.db.nextRunId && r.db.filters == w.db.filters
            && (forall n :: n in StoredNameSet(w.db) ==> n in r.files && r.files[n] == w.files[n])
    decreases |parts|
  {
    if parts != [] {
      var init := parts[..|parts| - 1];
      StorePartsKeepsValid(w, emailId, init, now);
      var m := StoreParts(w, emailId, init, now);
      StorePartKeepsValid(m, emailId, parts[|parts| - 1], now);
      assert StoredNameSet(w.db) <= StoredNameSet(m.db) by {
        OldNamesKept(w, emailId, init, now);
      }
    }
  }

  /** The attachment walk only appends rows. */
  lemma {:induction false} OldNamesKept(w: Progress, emailId: nat, parts: seq<Part>, now: Timestamp)
    ensures StoredNameSet(w.db) <= StoredNameSet(StoreParts(w, emailId, parts, now).db)
    ensures w.db.attachments <= StoreParts(w, emailId, parts, now).db.attachments
    decreases |parts|
  {
    if parts != [] {
      OldNamesKept(w, emailId, parts[..|parts| - 1], now);
    }
  }

  /** The runs, the run counter and the filters play no part in the walk. */
  lemma StorePartRunsIrrelevant(d: Db, f: map<string, Bytes>, sc: seq<WriteOutcome>, emailId: nat, p: Part, now: Timestamp,
                                runs: seq<JobRun>, next: nat)
    ensures var x := StorePart(Progress(d, f, sc), emailId, p, now);
            && StorePart(Progress(d.(runs := runs, nextRunId := next), f, sc), emailId, p, now)
               == Progress(x.db.(runs := runs, nextRunId := next), x.files, x.script)
            && x.db.runs == d.runs && x.db.nextRunId == d.nextRunId
  {
  }

  lemma {:induction false} StorePartsRunsIrrelevant(d: Db, f: map<string, Bytes>, sc: seq<WriteOutcome>, emailId: nat,
                                                    parts: seq<Part>, now: Timestamp, runs: seq<JobRun>, next: nat)
    ensures var x := StoreParts(Progress(d, f, sc), emailId, parts, now);
            && StoreParts(Progress(d.(runs := runs, nextRunId := next), f, sc), emailId, parts, now)
               == Progress(x.db.(runs := runs, nextRunId := next), x.files, x.script)
            && x.db.runs == d.runs && x.db.nextRunId == d.nextRunId
    decreases |parts|
  {
    if parts != [] {
      var init := parts[..|parts| - 1];
      StorePartsRunsIrrelevant(d, f, sc, emailId, init, now, runs, next);
      var m := StoreParts(Progress(d, f, sc), emailId, init, now);
      StorePartRunsIrrelevant(m.db, m.files, m.script, emailId, parts[|parts| - 1], now, runs, next);
      assert m.db.(runs := runs, nextRunId := next) == m.db.(runs := runs, nextRunId := next);
    }
  }

  lemma StoreMessageRunsIrrelevant(d: Db, f: map<string, Bytes>, sc: seq<WriteOutcome>, m: ParsedMessage, now: Timestamp,
                                   runs: seq<JobRun>, next: nat)
    ensures var x := StoreMessage(Progress(d, f, sc), m, now);
            && StoreMessage(Progress(d.(runs := runs, nextRunId := next), f, sc), m, now)
               == Progress(x.db.(runs := runs, nextRunId := next), x.files, x.script)
            && x.db.runs == d.runs && x.db.nextRunId == d.nextRunId
  {
    var body := if BodyText(m).Decoded? then BodyText(m).text else "";
    var e := EmailRow(d.nextEmailId, m, body, now);
    var d1 := d.(emails := d.emails + [e], nextEmailId := d.nextEmailId + 1);
    StorePartsRunsIrrelevant(d1, f, sc, e.id, PartsOf(m), now, runs, next);
    assert d.(runs := runs, nextRunId := next).(emails := d.emails + [e], nextEmailId := d.nextEmailId + 1)
           == d1.(runs := runs, nextRunId := next);
  }

  lemma {:induction false} StoreAllRunsIrrelevant(d: Db, f: map<string, Bytes>, sc: seq<WriteOutcome>, acc: seq<Found>,
                                                  now: Timestamp, runs: seq<JobRun>, next: nat)
    ensures var x := StoreAll(Progress(d, f, sc), acc, now);
            && StoreAll(Progress(d.(runs := runs, nextRunId := next), f, sc), acc, now)
               == Progress(x.db.(runs := runs, nextRunId := next), x.files, x.script)
            && x.db.runs == d.runs && x.db.nextRunId == d.nextRunId
    decreases |acc|
  {
    if acc != [] {
      var init := acc[..|acc| - 1];
      StoreAllRunsIrrelevant(d, f, sc, init, now, runs, next);
      var m := StoreAll(Progress(d, f, sc), init, now);
      var g := acc[|acc| - 1];
      if g.reply.Delivered? {
        StoreMessageRunsIrrelevant(m.db, m.files, m.script, g.reply.msg, now, runs, next);
      }
    }
  }

  /** Storing a message with a new `Message-ID` keeps every constraint and adds exactly that `Message-ID`. */
  lemma StoreMessageKeepsValid(w: Progress, m: ParsedMessage, now: Timestamp)
    requires ValidDb(w.db) && BlobsBacked(w.db, w.files)
    requires Truthy(m.messageId) && m.messageId.value !in MessageIds(w.db.emails)
    ensures var r := StoreMessage(w, m, now);
            && ValidDb(r.db) && BlobsBacked(r.db, r.files)
            && MessageIds(r.db.emails) == MessageIds(w.db.emails) + {m.messageId.value}
            && r.db.runs == w.db.runs && r.db.nextRunId == w.db.nextRunId && r.db.filters == w.db.filters
            && StoredNameSet(w.db) <= StoredNameSet(r.db)
            && (forall n :: n in StoredNameSet(w.db) ==> n in r.files && r.files[n] == w.files[n])
  {
    var body := if BodyText(m).Decoded? then BodyText(m).text else "";
    var e := EmailRow(w.db.nextEmailId, m, body, now);
    InsertEmailKeepsValid(w.db, e);
    var w1 := Progress(w.db.(emails := w.db.emails + [e], nextEmailId := w.db.nextEmailId + 1), w.files, w.script);
    assert StoreMessage(w, m, now) == StoreParts(w1, e.id, PartsOf(m), now);
    assert BlobsBacked(w1.db, w1.files);
    assert StoredNameSet(w1.db) == StoredNameSet(w.db);
    assert e.id in EmailIds(w1.db);
    StorePartsKeepsValid(w1, e.id, PartsOf(m), now);
    OldNamesKept(w1, e.id, PartsOf(m), now);
  }

  /** None of the accepted messages raises. */
  ghost predicate NoAborts(acc: seq<Found>) {
    forall k :: 0 <= k < |acc| ==> !Aborts(acc[k])
  }

  /**
   * The walk state after the first `i` found messages, none of which raised: the
   * store, the folder and the remaining write outcomes are what `StoreAll` gives for
   * the accepted ones, the store meets its constraints, every row is backed, the
   * files of the rows already there are untouched, and the stored `Message-ID`s are
   * the known ones plus the new ones.
   */
  ghost predicate WalkedUpTo(w0: Progress, found: seq<Found>, i: nat, now: Timestamp, w: Progress) {
    && i <= |found|
    && var known := MessageIds(w0.db.emails);
       var acc := Accepted(found[..i], KeyOf, known);
       && NoAborts(acc)
       && w == StoreAll(w0, acc, now)
       && ValidDb(w.db) && BlobsBacked(w.db, w.files)
       && StoredNameSet(w0.db) <= StoredNameSet(w.db)
       && (forall n :: n in StoredNameSet(w0.db) ==> n in w0.files && n in w.files && w.files[n] == w0.files[n])
       && w.db.runs == w0.db.runs && w.db.nextRunId == w0.db.nextRunId && w.db.filters == w0.db.filters
       && MessageIds(w.db.emails) == known + Elems(NewIds(found[..i], KeyOf, known))
  }

  /** Message `i` is the first that raises: it would be stored, and its body does not decode. */
  ghost predicate AbortsAt(known: set<string>, found: seq<Found>, i: nat) {
    && i < |found|
    && NoAborts(Accepted(found[..i], KeyOf, known))
    && KeyOf(found[i]).Some? && KeyOf(found[i]).value !in known
    && KeyOf(found[i]).value !in NewIds(found[..i], KeyOf, known)
    && Aborts(found[i])
  }

  lemma StartWalk(w0: Progress, found: seq<Found>, now: Timestamp)
    requires ValidDb(w0.db) && BlobsBacked(w0.db, w0.files)
    ensures WalkedUpTo(w0, found, 0, now, w0)
  {
    assert found[..0] == [];
    forall n | n in StoredNameSet(w0.db) ensures n in w0.files {
      var a :| a in w0.db.attachments && a.filenameStored == n;
    }
  }

  /** A message that is not stored (fetch failed, no `Message-ID`, or a stored one) changes nothing. */
  lemma SkipFound(w0: Progress, found: seq<Found>, i: nat, now: Timestamp, w: Progress)
    requires i < |found| && WalkedUpTo(w0, found, i, now, w)
    requires KeyOf(found[i]).Some? ==> KeyOf(found[i]).value in MessageIds(w.db.emails)
    ensures WalkedUpTo(w0, found, i + 1, now, w)
    ensures NewIds(found[..i + 1], KeyOf, MessageIds(w0.db.emails)) == NewIds(found[..i], KeyOf, MessageIds(w0.db.emails))
  {
    var known := MessageIds(w0.db.emails);
    assert found[..i + 1] == found[..i] + [found[i]];
    NewIdsSnoc(found[..i], found[i], KeyOf, known);
    AcceptedSnoc(found[..i], found[i], KeyOf, known);
  }

  /** A message with a new `Message-ID` whose body decodes is stored. */
  lemma StoreFoundStep(w0: Progress, found: seq<Found>, i: nat, now: Timestamp, w: Progress)
    requires i < |found| && WalkedUpTo(w0, found, i, now, w)
    requires KeyOf(found[i]).Some? && KeyOf(found[i]).value !in MessageIds(w.db.emails)
    requires !Aborts(found[i])
    ensures WalkedUpTo(w0, found, i + 1, now, StoreMessage(w, found[i].reply.msg, now))
    ensures |NewIds(found[..i + 1], KeyOf, MessageIds(w0.db.emails))| == |NewIds(found[..i], KeyOf, MessageIds(w0.db.emails))| + 1
  {
    var known := MessageIds(w0.db.emails);
    var f := found[i];
    var acc := Accepted(found[..i], KeyOf, known);
    AcceptedStep(found, i, known);
    StoreAllSnoc(w0, acc, f, now);
    StoreMessageKeepsValid(w, f.reply.msg, now);
    var r := StoreMessage(w, f.reply.msg, now);
    assert forall n :: n in StoredNameSet(w0.db) ==> n in w0.files && n in r.files && r.files[n] == w0.files[n];
  }

  /** The dedup fold at a message with a new key that does not raise. */
  lemma AcceptedStep(found: seq<Found>, i: nat, known: set<string>)
    requires i < |found| && KeyOf(found[i]).Some? && KeyOf(found[i]).value !in known + Elems(NewIds(found[..i], KeyOf, known))
    requires !Aborts(found[i])
    requires NoAborts(Accepted(found[..i], KeyOf, known))
    ensures Accepted(found[..i + 1], KeyOf, known) == Accepted(found[..i], KeyOf, known) + [found[i]]
    ensures NewIds(found[..i + 1], KeyOf, known) == NewIds(found[..i], KeyOf, known) + [KeyOf(found[i]).value]
    ensures Elems(NewIds(found[..i + 1], KeyOf, known)) == Elems(NewIds(found[..i], KeyOf, known)) + {KeyOf(found[i]).value}
    ensures NoAborts(Accepted(found[..i + 1], KeyOf, known))
  {
    var f := found[i];
    var ids := NewIds(found[..i], KeyOf, known);
    var acc := Accepted(found[..i], KeyOf, known);
    assert found[..i + 1] == found[..i] + [f];
    NewIdsSnoc(found[..i], f, KeyOf, known);
    AcceptedSnoc(found[..i], f, KeyOf, known);
    assert Elems(ids + [KeyOf(f).value]) == Elems(ids) + {KeyOf(f).value};
    var acc' := acc + [f];
    forall k | 0 <= k < |acc'| ensures !Aborts(acc'[k]) {
      if k < |acc| {
        assert acc'[k] == acc[k];
      }
    }
  }

  // ---------------- the walk ----------------

  /** Once a part fails to decode, the body stays that failure. */
  lemma {:induction false} BodyFailureSticks(parts: seq<Part>, j: nat)
    requires j <= |parts| && BodyOf(parts[..j]).DecodeFailed?
    ensures BodyOf(parts) == BodyOf(parts[..j])
    decreases |parts| - j
  {
    if j < |parts| {
      assert parts[..j + 1][..j] == parts[..j];
      BodyFailureSticks(parts, j + 1);
    } else {
      assert parts[..j] == parts;
    }
  }

  /** The loop collecting the body text (`body_text += ...`), which raises at the first unknown codec. */
  method ExtractBody(m: ParsedMessage) returns (body: Decoded)
    ensures body == BodyText(m)
  {
    if !m.multipart {
      var root := m.root;
      if root.payload.Some? && root.payload.value != [] {
        if root.text.None? {
          return DecodeFailed(UnknownEncoding(root.charset));
        }
        return Decoded(root.text.value);
      }
      return Decoded("");
    }
    var parts := PartsOf(m);
    var text := "";
    var j := 0;
    while j < |parts|
      invariant 0 <= j <= |parts|
      invariant BodyOf(parts[..j]) == Decoded(text)
      decreases |parts| - j
    {
      var p := parts[j];
      assert parts[..j + 1][..j] == parts[..j];
      if p.contentType == "text/plain" && !Contains(Lower(p.disposition.GetOr("")), "attachment") {
        if p.payload.Some? && p.payload.value != [] {
          if p.text.None? {
            BodyFailureSticks(parts, j + 1);
            return DecodeFailed(UnknownEncoding(p.charset));
          }
          text := text + p.text.value;
        }
      }
      j := j + 1;
    }
    assert parts[..j] == parts;
    body := Decoded(text);
  }

  lemma StorePartKeepsKeys(w: Progress, emailId: nat, p: Part, now: Timestamp)
    requires AttachmentsKeyed(w.db)
    ensures AttachmentsKeyed(StorePart(w, emailId, p, now).db)
  {
  }

  /**
   * The loop over the parts storing attachments: a part marked as an attachment
   * and with a filename gets a "PENDING" row and a file write; the row is renamed
   * to the derived name after the write, or deleted when the write fails.
   */
  method StoreAttachments(s: Session, blobs: BlobStore, emailId: nat, parts: seq<Part>, now: Timestamp)
    requires AttachmentsKeyed(s.pending)
    modifies s, blobs
    ensures Progress(s.pending, blobs.files, blobs.writeScript)
            == StoreParts(Progress(old(s.pending), old(blobs.files), old(blobs.writeScript)), emailId, parts, now)
    ensures AttachmentsKeyed(s.pending)
    ensures s.committed == old(s.committed) && s.commits == old(s.commits) && blobs.undeletable == old(blobs.undeletable)
  {
    ghost var w0 := Progress(s.pending, blobs.files, blobs.writeScript);
    var j := 0;
    while j < |parts|
      invariant 0 <= j <= |parts|
      invariant Progress(s.pending, blobs.files, blobs.writeScript) == StoreParts(w0, emailId, parts[..j], now)
      invariant AttachmentsKeyed(s.pending)
      invariant s.committed == old(s.committed) && s.commits == old(s.commits) && blobs.undeletable == old(blobs.undeletable)
      decreases |parts| - j
    {
      StorePartsSnoc(w0, emailId, parts[..j], parts[j], now);
      assert parts[..j + 1] == parts[..j] + [parts[j]];
      StoreAttachment(s, blobs, emailId, parts[j], now);
      j := j + 1;
    }
    assert parts[..j] == parts;
  }

  /**
   * One part of a message: an attachment part with a file name gets a row, its file
   * is written, and the row is renamed to the derived name, or deleted when the
   * write fails; any other part is passed over.
   */
  method StoreAttachment(s: Session, blobs: BlobStore, emailId: nat, part: Part, now: Timestamp)
    requires AttachmentsKeyed(s.pending)
    modifies s, blobs
    ensures Progress(s.pending, blobs.files, blobs.writeScript)
            == StorePart(Progress(old(s.pending), old(blobs.files), old(blobs.writeScript)), emailId, part, now)
    ensures AttachmentsKeyed(s.pending)
    ensures s.committed == old(s.committed) && s.commits == old(s.commits) && blobs.undeletable == old(blobs.undeletable)
  {
    StorePartKeepsKeys(Progress(s.pending, blobs.files, blobs.writeScript), emailId, part, now);
    if Contains(Lower(part.disposition.GetOr("")), "attachment") {
      var filename := part.filename;
      if filename.Some? && filename.value != "" {
        var data := part.payload.GetOr([]);
        ghost var p0 := s.pending;
        var a := AttachmentRepository.Create(s, emailId, filename.value, "PENDING", Some(part.contentType), Some(|data|), now);
        var name := StoredName(emailId, a.id, ScheduledSeparator, filename.value);
        var ok, cause := blobs.Write(name, data);
        if ok {
          RenameAttachment(s, a.id, name);
          RenameNewestAttachment(p0, a, name);
        } else {
          AttachmentRepository.Delete(s, a.id);
          DeleteNewestAttachment(p0, a);
        }
      }
    }
  }

  /**
   * One turn of the loop over the message numbers (after the fetch command is
   * sent): a failed fetch, a missing `Message-ID` or a stored one skip the message;
   * otherwise the body is collected, which may raise, and the email and its
   * attachments are stored.
   */
  method IngestFound(s: Session, blobs: BlobStore, f: Found, now: Timestamp,
                     ghost w0: Progress, ghost found: seq<Found>, ghost i: nat)
    returns (stored: bool, err: Option<string>)
    requires i < |found| && found[i] == f
    requires WalkedUpTo(w0, found, i, now, Progress(s.pending, blobs.files, blobs.writeScript))
    modifies s, blobs
    ensures s.committed == old(s.committed) && s.commits == old(s.commits) && blobs.undeletable == old(blobs.undeletable)
    ensures err.None? ==>
              && WalkedUpTo(w0, found, i + 1, now, Progress(s.pending, blobs.files, blobs.writeScript))
              && |NewIds(found[..i + 1], KeyOf, MessageIds(w0.db.emails))|
                 == |NewIds(found[..i], KeyOf, MessageIds(w0.db.emails))| + (if stored then 1 else 0)
    ensures err.Some? ==>
              && AbortsAt(MessageIds(w0.db.emails), found, i)
              && err.value == BodyText(f.reply.msg).error
              && Progress(s.pending, blobs.files, blobs.writeScript) == old(Progress(s.pending, blobs.files, blobs.writeScript))
  {
    ghost var w := Progress(s.pending, blobs.files, blobs.writeScript);
    stored, err := false, None;
    if f.reply.FetchFailed? {
      SkipFound(w0, found, i, now, w);
      return;
    }
    var m := f.reply.msg;
    if m.messageId.None? || m.messageId.value == "" {
      SkipFound(w0, found, i, now, w);
      return;
    }
    var existing := EmailRepository.GetByMessageId(s.pending, m.messageId.value);
    if existing.Some? {
      SkipFound(w0, found, i, now, w);
      return;
    }
    var body := ExtractBody(m);
    if body.DecodeFailed? {
      err := Some(body.error);
      return;
    }
    var e := EmailRepository.Create(s, m.messageId.value, m.sender.GetOr(""), m.to, m.cc, m.subject,
                                    Some(body.text), Some(ReceivedAt(m, now)), now);
    assert e == EmailRow(w.db.nextEmailId, m, body.text, now);
    assert Progress(s.pending, blobs.files, blobs.writeScript)
           == Progress(w.db.(emails := w.db.emails + [e], nextEmailId := w.db.nextEmailId + 1), w.files, w.script);
    StoreAttachments(s, blobs, e.id, PartsOf(m), now);
    assert Progress(s.pending, blobs.files, blobs.writeScript) == StoreMessage(w, m, now);
    StoreFoundStep(w0, found, i, now, w);
    stored := true;
  }

  /**
   * The state of the loop after `i` message numbers: without an exception, walked up
   * to `i`, with `saved` the number of new messages stored and one fetch per number;
   * after one, raised at message `failedAt`, the same up to that message and its fetch.
   */
  ghost predicate FoundState(w0: Progress, found: seq<Found>, now: Timestamp, i: nat, w: Progress,
                             saved: nat, err: Option<string>, commands: seq<ImapCommand>, failedAt: nat) {
    && i <= |found| && saved <= i
    && (err.None? ==>
          && WalkedUpTo(w0, found, i, now, w)
          && saved == |NewIds(found[..i], KeyOf, MessageIds(w0.db.emails))|
          && commands == FetchCommands(found[..i]))
    && (err.Some? ==>
          && failedAt < i && AbortsAt(MessageIds(w0.db.emails), found, failedAt)
          && WalkedUpTo(w0, found, failedAt, now, w)
          && saved == |NewIds(found[..failedAt], KeyOf, MessageIds(w0.db.emails))|
          && err.value == BodyText(found[failedAt].reply.msg).error
          && commands == FetchCommands(found[..failedAt + 1]))
  }

  /** One turn of the loop: the fetch command for message `i` is sent, then the message is ingested. */
  method FoundTurn(s: Session, blobs: BlobStore, found: seq<Found>, i: nat, now: Timestamp, saved: nat,
                   commands: seq<ImapCommand>, ghost w0: Progress)
    returns (savedAfter: nat, err: Option<string>, commandsAfter: seq<ImapCommand>)
    requires i < |found|
    requires FoundState(w0, found, now, i, Progress(s.pending, blobs.files, blobs.writeScript), saved, None, commands, 0)
    modifies s, blobs
    ensures s.committed == old(s.committed) && s.commits == old(s.commits) && blobs.undeletable == old(blobs.undeletable)
    ensures FoundState(w0, found, now, i + 1, Progress(s.pending, blobs.files, blobs.writeScript), savedAfter, err, commandsAfter, i)
  {
    commandsAfter := commands + [Fetch(found[i].num, "(RFC822)")];
    FetchCommandsStep(found, i);
    var stored;
    stored, err := IngestFound(s, blobs, found[i], now, w0, found, i);
    savedAfter := if err.None? && stored then saved + 1 else saved;
  }

  /**
   * The loop over the message numbers the search returned: each is fetched, then
   * ingested; the loop ends early when a message raises.  Nothing is committed here.
   */
  method WalkFound(s: Session, blobs: BlobStore, found: seq<Found>, now: Timestamp)
    returns (saved: nat, err: Option<string>, commands: seq<ImapCommand>)
    requires ValidDb(s.pending) && BlobsBacked(s.pending, blobs.files)
    modifies s, blobs
    ensures s.committed == old(s.committed) && s.commits == old(s.commits) && blobs.undeletable == old(blobs.undeletable)
    ensures saved <= |found|
    ensures var w0 := Progress(old(s.pending), old(blobs.files), old(blobs.writeScript));
            err.None? ==>
              && WalkedUpTo(w0, found, |found|, now, Progress(s.pending, blobs.files, blobs.writeScript))
              && saved == |NewIds(found, KeyOf, MessageIds(w0.db.emails))|
              && commands == FetchCommands(found)
    ensures var w0 := Progress(old(s.pending), old(blobs.files), old(blobs.writeScript));
            err.Some? ==>
              exists i :: 0 <= i < |found|
                && AbortsAt(MessageIds(w0.db.emails), found, i)
                && WalkedUpTo(w0, found, i, now, Progress(s.pending, blobs.files, blobs.writeScript))
                && saved == |NewIds(found[..i], KeyOf, MessageIds(w0.db.emails))|
                && err.value == BodyText(found[i].reply.msg).error
                && commands == FetchCommands(found[..i + 1])
  {
    ghost var w0 := Progress(s.pending, blobs.files, blobs.writeScript);
    StartWalk(w0, found, now);
    saved, err, commands := 0, None, [];
    ghost var failedAt: nat := 0;
    var i := 0;
    while i < |found| && err.None?
      invariant s.committed == old(s.committed) && s.commits == old(s.commits) && blobs.undeletable == old(blobs.undeletable)
      invariant FoundState(w0, found, now, i, Progress(s.pending, blobs.files, blobs.writeScript), saved, err, commands, failedAt)
      decreases |found| - i
    {
      saved, err, commands := FoundTurn(s, blobs, found, i, now, saved, commands, w0);
      failedAt := i;
      i := i + 1;
    }
    FoundEnd(w0, found, now, i, Progress(s.pending, blobs.files, blobs.writeScript), saved, err, commands, failedAt);
  }

  /** The state of the loop when it stops: every message walked, or an exception at some message. */
  lemma FoundEnd(w0: Progress, found: seq<Found>, now: Timestamp, i: nat, w: Progress,
                 saved: nat, err: Option<string>, commands: seq<ImapCommand>, failedAt: nat)
    requires FoundState(w0, found, now, i, w, saved, err, commands, failedAt) && (i == |found| || err.Some?)
    ensures saved <= |found|
    ensures err.None? ==>
              && WalkedUpTo(w0, found, |found|, now, w)
              && saved == |NewIds(found, KeyOf, MessageIds(w0.db.emails))|
              && commands == FetchCommands(found)
    ensures err.Some? ==>
              exists j :: 0 <= j < |found|
                && AbortsAt(MessageIds(w0.db.emails), found, j)
                && WalkedUpTo(w0, found, j, now, w)
                && saved == |NewIds(found[..j], KeyOf, MessageIds(w0.db.emails))|
                && err.value == BodyText(found[j].reply.msg).error
                && commands == FetchCommands(found[..j + 1])
  {
    if err.None? {
      assert found[..i] == found;
    }
  }

  // ---------------- the job ----------------

  /** The finished run of this call. */
  function FinishedRun(id: nat, now: Timestamp, fetched: nat, saved: nat, status: RunStatus, error: Option<string>): JobRun {
    JobRun(id, now, Some(now), fetched, saved, status, error)
  }

  /**
   * A walk that ran through: the accepted messages are stored after the rows of `c`
   * (with whatever rows and files their writes left), none raised, and next to them
   * the run, finished as "success" with the number found and the number stored.
   */
  ghost predicate FetchSucceeded(c: Db, f0: map<string, Bytes>, script0: seq<WriteOutcome>, found: seq<Found>, now: Timestamp,
                                 committed: Db, files: map<string, Bytes>, script: seq<WriteOutcome>) {
    var known := MessageIds(c.emails);
    var acc := Accepted(found, KeyOf, known);
    var w := StoreAll(Progress(c, f0, script0), acc, now);
    && NoAborts(acc)
    && committed == w.db.(runs := c.runs + [FinishedRun(c.nextRunId, now, |found|, |NewIds(found, KeyOf, known)|, Success, None)],
                          nextRunId := c.nextRunId + 1)
    && files == w.files && script == w.script
    && MessageIds(committed.emails) == known + Elems(NewIds(found, KeyOf, known))
  }

  /**
   * A walk that raised at message `i`: the store is `c` plus the run, finished as
   * "error" with the exception's text, the number found and the number stored
   * before `i`; the files the discarded emails wrote stay in the folder.
   */
  ghost predicate FetchAborted(c: Db, f0: map<string, Bytes>, script0: seq<WriteOutcome>, found: seq<Found>, i: nat, now: Timestamp,
                               committed: Db, files: map<string, Bytes>, script: seq<WriteOutcome>) {
    var known := MessageIds(c.emails);
    && AbortsAt(known, found, i)
    && var w := StoreAll(Progress(c, f0, script0), Accepted(found[..i], KeyOf, known), now);
       && committed == c.(runs := c.runs + [FinishedRun(c.nextRunId, now, |found|, |NewIds(found[..i], KeyOf, known)|, Error,
                                                         Some(BodyText(found[i].reply.msg).error))],
                          nextRunId := c.nextRunId + 1)
       && files == w.files && script == w.script
  }

  /**
   * A select or search that did not answer OK, or that raised: the run alone is added,
   * finished as "error" with 0/0.  After a raise the rollback discards the flushed run
   * row and finishing adds it back, so the outcome is the same.
   */
  ghost predicate FetchRefused(c: Db, now: Timestamp, error: string, committed: Db) {
    committed == c.(runs := c.runs + [FinishedRun(c.nextRunId, now, 0, 0, Error, Some(error))], nextRunId := c.nextRunId + 1)
  }

  /**
   * What every committed end of the job keeps: the store is consistent, its rows are
   * backed by the folder, and no file an existing row names was touched.
   */
  ghost predicate SafelyFinished(c: Db, f0: map<string, Bytes>, committed: Db, files: map<string, Bytes>) {
    && ValidDb(committed) && BlobsBacked(committed, files)
    && forall n :: n in StoredNameSet(c) ==> n in f0 && n in files && files[n] == f0[n]
  }

  /** A walk that ran through, stated against `c` without the opened run: `x` is what it stored. */
  lemma CompletedProgress(c: Db, found: seq<Found>, now: Timestamp, f0: map<string, Bytes>, script0: seq<WriteOutcome>,
                          w: Progress) returns (x: Progress)
    requires WalkedUpTo(Progress(c.(runs := c.runs + [NewJobRun(c.nextRunId, now)], nextRunId := c.nextRunId + 1), f0, script0),
                        found, |found|, now, w)
    ensures x == StoreAll(Progress(c, f0, script0), Accepted(found, KeyOf, MessageIds(c.emails)), now)
    ensures NoAborts(Accepted(found, KeyOf, MessageIds(c.emails)))
    ensures x.db.runs == c.runs && x.db.nextRunId == c.nextRunId
    ensures w.db == x.db.(runs := x.db.runs + [NewJobRun(x.db.nextRunId, now)], nextRunId := x.db.nextRunId + 1)
    ensures w.files == x.files && w.script == x.script
    ensures ValidDb(w.db) && BlobsBacked(w.db, w.files)
    ensures forall n :: n in StoredNameSet(c) ==> n in f0 && n in w.files && w.files[n] == f0[n]
    ensures MessageIds(w.db.emails) == MessageIds(c.emails) + Elems(NewIds(found, KeyOf, MessageIds(c.emails)))
  {
    var started := NewJobRun(c.nextRunId, now);
    var c0 := c.(runs := c.runs + [started], nextRunId := c.nextRunId + 1);
    var acc := Accepted(found, KeyOf, MessageIds(c.emails));
    assert found[..|found|] == found;
    assert MessageIds(c0.emails) == MessageIds(c.emails);
    assert StoredNameSet(c0) == StoredNameSet(c);
    StoreAllRunsIrrelevant(c, f0, script0, acc, now, c.runs + [started], c.nextRunId + 1);
    x := StoreAll(Progress(c, f0, script0), acc, now);
  }

  /** The end of a walk that ran through: the success outcome, and the constraints kept. */
  lemma FetchCompleted(c: Db, found: seq<Found>, now: Timestamp, f0: map<string, Bytes>, script0: seq<WriteOutcome>,
                       w: Progress, run: JobRun)
    requires ValidDb(c)
    requires WalkedUpTo(Progress(c.(runs := c.runs + [NewJobRun(c.nextRunId, now)], nextRunId := c.nextRunId + 1), f0, script0),
                        found, |found|, now, w)
    requires run == FinishedRun(c.nextRunId, now, |found|, |NewIds(found, KeyOf, MessageIds(c.emails))|, Success, None)
    ensures FetchSucceeded(c, f0, script0, found, now, WithRun(w.db, run), w.files, w.script)
    ensures SafelyFinished(c, f0, WithRun(w.db, run), w.files)
  {
    var started := NewJobRun(c.nextRunId, now);
    var x := CompletedProgress(c, found, now, f0, script0, w);
    FinishNewestRun(x.db, started, run);
    CompletedOutcome(c, found, now, f0, script0, x, w, run);
    RunFinishedSafely(c, f0, x.db, w.files, started, run, WithRun(w.db, run));
  }

  /** The success outcome, from what the walk stored. */
  lemma CompletedOutcome(c: Db, found: seq<Found>, now: Timestamp, f0: map<string, Bytes>, script0: seq<WriteOutcome>,
                         x: Progress, w: Progress, run: JobRun)
    requires x == StoreAll(Progress(c, f0, script0), Accepted(found, KeyOf, MessageIds(c.emails)), now)
    requires NoAborts(Accepted(found, KeyOf, MessageIds(c.emails)))
    requires w.files == x.files && w.script == x.script && x.db.runs == c.runs && x.db.nextRunId == c.nextRunId
    requires MessageIds(w.db.emails) == MessageIds(c.emails) + Elems(NewIds(found, KeyOf, MessageIds(c.emails)))
    requires run == FinishedRun(c.nextRunId, now, |found|, |NewIds(found, KeyOf, MessageIds(c.emails))|, Success, None)
    requires WithRun(w.db, run) == x.db.(runs := x.db.runs + [run], nextRunId := x.db.nextRunId + 1)
    ensures FetchSucceeded(c, f0, script0, found, now, WithRun(w.db, run), w.files, w.script)
  {
  }

  /** Finishing the opened run on top of a consistent store keeps it consistent and backed. */
  lemma RunFinishedSafely(c: Db, f0: map<string, Bytes>, d: Db, files: map<string, Bytes>, started: JobRun, run: JobRun,
                           finished: Db)
    requires started.id == d.nextRunId && run.id == d.nextRunId
    requires ValidDb(d.(runs := d.runs + [started], nextRunId := d.nextRunId + 1))
    requires BlobsBacked(d, files)
    requires forall n :: n in StoredNameSet(c) ==> n in f0 && n in files && files[n] == f0[n]
    requires finished == d.(runs := d.runs + [run], nextRunId := d.nextRunId + 1)
    ensures SafelyFinished(c, f0, finished, files)
  {
    DropNewestRunKeepsValid(d, started);
    InsertRunKeepsValid(d, run);
  }

  /** The end of a walk that raised, after the rollback: the run is added back, finished. */
  lemma FetchAbortFinished(c: Db, found: seq<Found>, i: nat, now: Timestamp, f0: map<string, Bytes>, script0: seq<WriteOutcome>,
                           w: Progress, run: JobRun)
    requires ValidDb(c) && BlobsBacked(c, f0)
    requires AbortsAt(MessageIds(c.emails), found, i)
    requires WalkedUpTo(Progress(c.(runs := c.runs + [NewJobRun(c.nextRunId, now)], nextRunId := c.nextRunId + 1), f0, script0),
                        found, i, now, w)
    requires run == FinishedRun(c.nextRunId, now, |found|, |NewIds(found[..i], KeyOf, MessageIds(c.emails))|, Error,
                                Some(BodyText(found[i].reply.msg).error))
    ensures FetchAborted(c, f0, script0, found, i, now, WithRun(c, run), w.files, w.script)
    ensures SafelyFinished(c, f0, WithRun(c, run), w.files)
  {
    var started := NewJobRun(c.nextRunId, now);
    var acc := Accepted(found[..i], KeyOf, MessageIds(c.emails));
    StoreAllRunsIrrelevant(c, f0, script0, acc, now, c.runs + [started], c.nextRunId + 1);
    ReAddDiscardedRun(c, run);
    InsertRunKeepsValid(c, run);
    assert StoredNameSet(c) == StoredNameSet(c.(runs := c.runs + [started], nextRunId := c.nextRunId + 1));
    BlobsBackedFrame(c, f0, w.files);
  }

  /** A select or search that did not answer OK, finished. */
  lemma FetchRefusalFinished(c: Db, now: Timestamp, error: string, run: JobRun)
    requires ValidDb(c)
    requires run == FinishedRun(c.nextRunId, now, 0, 0, Error, Some(error))
    ensures FetchRefused(c, now, error, WithRun(c.(runs := c.runs + [NewJobRun(c.nextRunId, now)], nextRunId := c.nextRunId + 1), run))
    ensures ValidDb(WithRun(c.(runs := c.runs + [NewJobRun(c.nextRunId, now)], nextRunId := c.nextRunId + 1), run))
  {
    FinishNewestRun(c, NewJobRun(c.nextRunId, now), run);
    InsertRunKeepsValid(c, run);
  }

  /** A select or search that raised, after the rollback: the discarded run is added back, finished. */
  lemma FetchRaiseFinished(c: Db, now: Timestamp, error: string, run: JobRun)
    requires ValidDb(c)
    requires run == FinishedRun(c.nextRunId, now, 0, 0, Error, Some(error))
    ensures FetchRefused(c, now, error, WithRun(c, run))
    ensures ValidDb(WithRun(c, run))
  {
    ReAddDiscardedRun(c, run);
    InsertRunKeepsValid(c, run);
  }

  /** The arguments of the search command: the search string split on whitespace. */
  function SearchCommand(dynamic: Option<DynamicFilters>): ImapCommand {
    Search(Words(BuildSearchCriteria(dynamic)))
  }

  /** The fetch's outcome once select and search answered OK: the walk ran through, or raised at some message. */
  ghost predicate WalkOutcome(c: Db, f0: map<string, Bytes>, script0: seq<WriteOutcome>, found: seq<Found>, now: Timestamp,
                              committed: Db, files: map<string, Bytes>, script: seq<WriteOutcome>, sent: seq<ImapCommand>) {
    || (FetchSucceeded(c, f0, script0, found, now, committed, files, script) && sent == FetchCommands(found))
    || (exists i :: 0 <= i < |found|
          && FetchAborted(c, f0, script0, found, i, now, committed, files, script)
          && sent == FetchCommands(found[..i + 1]))
  }

  /** The session after the run row was flushed and nothing else: `c` with the run `started` appended. */
  ghost predicate JustStarted(s: Session, c: Db, started: JobRun, now: Timestamp)
    reads s
  {
    && started == NewJobRun(c.nextRunId, now)
    && s.pending == c.(runs := c.runs + [started], nextRunId := c.nextRunId + 1)
    && s.committed == c
  }

  /** A select or search that did not answer OK: the run is finished as "error" with 0/0 and committed. */
  method FinishRefused(s: Session, started: JobRun, error: string, now: Timestamp, ghost c: Db, ghost files: map<string, Bytes>)
    requires ValidDb(c) && BlobsBacked(c, files) && JustStarted(s, c, started, now)
    modifies s
    ensures FetchRefused(c, now, error, s.committed)
    ensures s.pending == s.committed && s.commits == old(s.commits) + [s.committed]
    ensures SafelyFinished(c, files, s.committed, files)
  {
    var run := JobRunRepository.Finish(s, started, 0, 0, Error, Some(error), now);
    FetchRefusalFinished(c, now, error, run);
    BlobsBackedFrame(c, files, files);
    forall n | n in StoredNameSet(c) ensures n in files {
      var a :| a in c.attachments && a.filenameStored == n;
    }
    s.Commit();
  }

  /**
   * A select or search that raised: the session is rolled back, the run is finished
   * as "error" with 0/0 and the exception's text, and committed.
   */
  method FinishAfterRaise(s: Session, started: JobRun, detail: string, now: Timestamp, ghost c: Db, ghost files: map<string, Bytes>)
    requires ValidDb(c) && BlobsBacked(c, files) && JustStarted(s, c, started, now)
    modifies s
    ensures FetchRefused(c, now, detail, s.committed)
    ensures s.pending == s.committed && s.commits == old(s.commits) + [s.committed]
    ensures SafelyFinished(c, files, s.committed, files)
  {
    s.Rollback();
    var run := JobRunRepository.Finish(s, started, 0, 0, Error, Some(detail), now);
    FetchRaiseFinished(c, now, detail, run);
    BlobsBackedFrame(c, files, files);
    forall n | n in StoredNameSet(c) ensures n in files {
      var a :| a in c.attachments && a.filenameStored == n;
    }
    s.Commit();
  }

  /**
   * The message loop and what follows it: a walk that runs through finishes the run
   * as "success" and commits; one that raises rolls back, finishes the run as
   * "error" with the counts reached and commits.
   */
  method WalkAndFinish(s: Session, blobs: BlobStore, found: seq<Found>, started: JobRun, now: Timestamp, ghost c: Db)
    returns (sent: seq<ImapCommand>)
    requires ValidDb(c) && BlobsBacked(c, blobs.files) && JustStarted(s, c, started, now)
    modifies s, blobs
    ensures blobs.undeletable == old(blobs.undeletable)
    ensures WalkOutcome(c, old(blobs.files), old(blobs.writeScript), found, now, s.committed, blobs.files, blobs.writeScript, sent)
    ensures s.pending == s.committed && s.commits == old(s.commits) + [s.committed]
    ensures SafelyFinished(c, old(blobs.files), s.committed, blobs.files)
  {
    ghost var c0 := s.pending;
    ghost var f0 := blobs.files;
    ghost var script0 := blobs.writeScript;
    InsertRunKeepsValid(c, started);
    var saved, err;
    saved, err, sent := WalkFound(s, blobs, found, now);
    ghost var w := Progress(s.pending, blobs.files, blobs.writeScript);
    if err.None? {
      FinishWalked(s, started, found, saved, now, c, f0, script0, w);
    } else {
      ghost var i :| 0 <= i < |found|
            && AbortsAt(MessageIds(c0.emails), found, i)
            && WalkedUpTo(Progress(c0, f0, script0), found, i, now, w)
            && saved == |NewIds(found[..i], KeyOf, MessageIds(c0.emails))|
            && err.value == BodyText(found[i].reply.msg).error
            && sent == FetchCommands(found[..i + 1]);
      FinishAborted(s, started, found, i, saved, err.value, now, c, f0, script0, w);
    }
  }

  /** A walk that ran through: the run is finished as "success" with the counts, and committed. */
  method FinishWalked(s: Session, started: JobRun, found: seq<Found>, saved: nat, now: Timestamp,
                      ghost c: Db, ghost f0: map<string, Bytes>, ghost script0: seq<WriteOutcome>, ghost w: Progress)
    requires ValidDb(c) && started == NewJobRun(c.nextRunId, now) && s.committed == c && s.pending == w.db
    requires WalkedUpTo(Progress(c.(runs := c.runs + [started], nextRunId := c.nextRunId + 1), f0, script0), found, |found|, now, w)
    requires saved == |NewIds(found, KeyOf, MessageIds(c.emails))|
    modifies s
    ensures FetchSucceeded(c, f0, script0, found, now, s.committed, w.files, w.script)
    ensures SafelyFinished(c, f0, s.committed, w.files)
    ensures s.pending == s.committed && s.commits == old(s.commits) + [s.committed]
  {
    var run := JobRunRepository.Finish(s, started, |found|, saved, Success, None, now);
    FetchCompleted(c, found, now, f0, script0, w, run);
    s.Commit();
  }

  /**
   * A walk that raised at message `i`: the session is rolled back, the run is finished
   * as "error" with the exception's text and the counts reached, and committed.
   */
  method FinishAborted(s: Session, started: JobRun, found: seq<Found>, ghost i: nat, saved: nat, error: string, now: Timestamp,
                       ghost c: Db, ghost f0: map<string, Bytes>, ghost script0: seq<WriteOutcome>, ghost w: Progress)
    requires ValidDb(c) && BlobsBacked(c, f0) && started == NewJobRun(c.nextRunId, now) && s.committed == c
    requires i < |found| && AbortsAt(MessageIds(c.emails), found, i)
    requires WalkedUpTo(Progress(c.(runs := c.runs + [started], nextRunId := c.nextRunId + 1), f0, script0), found, i, now, w)
    requires saved == |NewIds(found[..i], KeyOf, MessageIds(c.emails))| && error == BodyText(found[i].reply.msg).error
    modifies s
    ensures FetchAborted(c, f0, script0, found, i, now, s.committed, w.files, w.script)
    ensures SafelyFinished(c, f0, s.committed, w.files)
    ensures s.pending == s.committed && s.commits == old(s.commits) + [s.committed]
  {
    s.Rollback();
    var run := JobRunRepository.Finish(s, started, |found|, saved, Error, Some(error), now);
    FetchAbortFinished(c, found, i, now, f0, script0, w, run);
    s.Commit();
  }

  /**
   * After a successful select: the search, then the message loop when it answered
   * OK.  `sent` lists the fetch commands sent.
   */
  method SearchAndWalk(s: Session, blobs: BlobStore, box: Mailbox, started: JobRun, now: Timestamp, ghost c: Db)
    returns (sent: seq<ImapCommand>)
    requires ValidDb(c) && BlobsBacked(c, blobs.files) && JustStarted(s, c, started, now)
    modifies s, blobs
    ensures blobs.undeletable == old(blobs.undeletable)
    ensures s.pending == s.committed && s.commits == old(s.commits) + [s.committed]
    ensures SafelyFinished(c, old(blobs.files), s.committed, blobs.files)
    ensures box.search.Raises? ==>
              && FetchRefused(c, now, box.search.detail, s.committed) && sent == []
              && blobs.files == old(blobs.files) && blobs.writeScript == old(blobs.writeScript)
    ensures box.search.Answered? && box.search.code != "OK" ==>
              && FetchRefused(c, now, SearchError(box.searchData), s.committed) && sent == []
              && blobs.files == old(blobs.files) && blobs.writeScript == old(blobs.writeScript)
    ensures box.search == Answered("OK") ==>
              WalkOutcome(c, old(blobs.files), old(blobs.writeScript), box.found, now, s.committed, blobs.files, blobs.writeScript, sent)
  {
    if box.search.Raises? {
      FinishAfterRaise(s, started, box.search.detail, now, c, blobs.files);
      sent := [];
    } else if box.search.code != "OK" {
      FinishRefused(s, started, SearchError(box.searchData), now, c, blobs.files);
      sent := [];
    } else {
      sent := WalkAndFinish(s, blobs, box.found, started, now, c);
    }
  }

  /**
   * The part of the job inside `try`, once the connection is open: select, search,
   * the message loop; then close and logout.  `sent` lists the fetch commands sent.
   */
  method FetchFromMailbox(s: Session, blobs: BlobStore, box: Mailbox, dynamic: Option<DynamicFilters>, started: JobRun,
                          now: Timestamp, ghost c: Db)
    returns (commands: seq<ImapCommand>, sent: seq<ImapCommand>)
    requires ValidDb(c) && BlobsBacked(c, blobs.files) && JustStarted(s, c, started, now)
    modifies s, blobs
    ensures blobs.undeletable == old(blobs.undeletable)
    ensures s.pending == s.committed && s.commits == old(s.commits) + [s.committed]
    ensures SafelyFinished(c, old(blobs.files), s.committed, blobs.files)
    ensures box.select.Raises? ==>
              && FetchRefused(c, now, box.select.detail, s.committed)
              && commands == [Select("INBOX"), Close, Logout]
              && blobs.files == old(blobs.files) && blobs.writeScript == old(blobs.writeScript)
    ensures box.select.Answered? && box.select.code != "OK" ==>
              && FetchRefused(c, now, SelectError, s.committed)
              && commands == [Select("INBOX"), Close, Logout]
              && blobs.files == old(blobs.files) && blobs.writeScript == old(blobs.writeScript)
    ensures box.select == Answered("OK") && box.search.Raises? ==>
              && FetchRefused(c, now, box.search.detail, s.committed)
              && commands == [Select("INBOX"), SearchCommand(dynamic), Close, Logout]
              && blobs.files == old(blobs.files) && blobs.writeScript == old(blobs.writeScript)
    ensures box.select == Answered("OK") && box.search.Answered? && box.search.code != "OK" ==>
              && FetchRefused(c, now, SearchError(box.searchData), s.committed)
              && commands == [Select("INBOX"), SearchCommand(dynamic), Close, Logout]
              && blobs.files == old(blobs.files) && blobs.writeScript == old(blobs.writeScript)
    ensures box.select == Answered("OK") && box.search == Answered("OK") ==>
              && WalkOutcome(c, old(blobs.files), old(blobs.writeScript), box.found, now,
                             s.committed, blobs.files, blobs.writeScript, sent)
              && commands == [Select("INBOX"), SearchCommand(dynamic)] + sent + [Close, Logout]
  {
    if box.select.Raises? {
      // The exception reaches the handler; `close` in `finally` may raise too, and is ignored.
      FinishAfterRaise(s, started, box.select.detail, now, c, blobs.files);
      commands, sent := [Select("INBOX"), Close, Logout], [];
    } else if box.select.code != "OK" {
      FinishRefused(s, started, SelectError, now, c, blobs.files);
      commands, sent := [Select("INBOX"), Close, Logout], [];
    } else {
      sent := SearchAndWalk(s, blobs, box, started, now, c);
      commands := [Select("INBOX"), SearchCommand(dynamic)] + sent + [Close, Logout];
    }
  }

  /**
   * The end of the job once the connection is open, by the replies of the mailbox:
   * a select or search that raised or did not answer OK finishes the run as "error"
   * with 0/0 and leaves the folder alone; otherwise the walk's outcome.  `commands`
   * is what was sent: select, the search when select answered OK, the fetches, then
   * close and logout.
   */
  ghost predicate MailboxOutcome(c: Db, f0: map<string, Bytes>, script0: seq<WriteOutcome>, box: Mailbox,
                                 dynamic: Option<DynamicFilters>, now: Timestamp,
                                 committed: Db, files: map<string, Bytes>, script: seq<WriteOutcome>, commands: seq<ImapCommand>) {
    && (box.select.Raises? ==>
          && FetchRefused(c, now, box.select.detail, committed)
          && commands == [Select("INBOX"), Close, Logout] && files == f0 && script == script0)
    && (box.select.Answered? && box.select.code != "OK" ==>
          && FetchRefused(c, now, SelectError, committed)
          && commands == [Select("INBOX"), Close, Logout] && files == f0 && script == script0)
    && (box.select == Answered("OK") && box.search.Raises? ==>
          && FetchRefused(c, now, box.search.detail, committed)
          && commands == [Select("INBOX"), SearchCommand(dynamic), Close, Logout] && files == f0 && script == script0)
    && (box.select == Answered("OK") && box.search.Answered? && box.search.code != "OK" ==>
          && FetchRefused(c, now, SearchError(box.searchData), committed)
          && commands == [Select("INBOX"), SearchCommand(dynamic), Close, Logout] && files == f0 && script == script0)
    && (box.select == Answered("OK") && box.search == Answered("OK") ==>
          exists sent ::
            && WalkOutcome(c, f0, script0, box.found, now, committed, files, script, sent)
            && commands == [Select("INBOX"), SearchCommand(dynamic)] + sent + [Close, Logout])
  }

  /** Whatever the mailbox answers, select is sent first and close and logout last. */
  lemma MailboxCommands(c: Db, f0: map<string, Bytes>, script0: seq<WriteOutcome>, box: Mailbox,
                        dynamic: Option<DynamicFilters>, now: Timestamp,
                        committed: Db, files: map<string, Bytes>, script: seq<WriteOutcome>, commands: seq<ImapCommand>)
    requires MailboxOutcome(c, f0, script0, box, dynamic, now, committed, files, script, commands)
    ensures |commands| >= 3 && commands[0] == Select("INBOX") && commands[|commands| - 2..] == [Close, Logout]
    ensures box.select == Answered("OK") ==> |commands| >= 4 && commands[1] == SearchCommand(dynamic)
  {
    if box.select == Answered("OK") && box.search == Answered("OK") {
      var sent :| commands == [Select("INBOX"), SearchCommand(dynamic)] + sent + [Close, Logout];
      assert commands[|commands| - 2..] == [Close, Logout];
    }
  }

  /**
   * `fetch_and_store_emails`.  When opening the connection raises, the exception
   * escapes (`raised`): the run row is left pending and unfinished, nothing is
   * committed and no command is sent.  Otherwise exactly one commit publishes the
   * store with the run finished, and `commands` lists what was sent to the server.
   */
  method FetchAndStoreEmails(s: Session, blobs: BlobStore, conn: Connection, dynamic: Option<DynamicFilters>, now: Timestamp)
    returns (raised: Option<string>, commands: seq<ImapCommand>)
    requires s.pending == s.committed && ValidDb(s.committed) && BlobsBacked(s.committed, blobs.files)
    modifies s, blobs
    ensures blobs.undeletable == old(blobs.undeletable)
    ensures conn.OpenRaised? ==>
              && raised == Some(conn.detail) && commands == []
              && s.committed == old(s.committed) && s.commits == old(s.commits)
              && s.pending == old(s.committed).(runs := old(s.committed.runs) + [NewJobRun(old(s.committed.nextRunId), now)],
                                                nextRunId := old(s.committed.nextRunId) + 1)
              && blobs.files == old(blobs.files) && blobs.writeScript == old(blobs.writeScript)
    ensures conn.Opened? ==>
              && raised.None? && s.pending == s.committed && s.commits == old(s.commits) + [s.committed]
              && SafelyFinished(old(s.committed), old(blobs.files), s.committed, blobs.files)
    ensures conn.Opened? ==>
              MailboxOutcome(old(s.committed), old(blobs.files), old(blobs.writeScript), conn.box, dynamic, now,
                             s.committed, blobs.files, blobs.writeScript, commands)
  {
    ghost var c := s.committed;
    var started := JobRunRepository.Create(s, now);
    match conn {
      case OpenRaised(detail) =>
        raised, commands := Some(detail), [];
      case Opened(box) =>
        raised := None;
        var sent;
        commands, sent := FetchFromMailbox(s, blobs, box, dynamic, started, now, c);
    }
  }

  // ---------------- properties of the job ----------------

  /**
   * Whichever way the walk ends, exactly one run is added: the one this call
   * created, finished, with every message number found counted as fetched, no more
   * saved than fetched, and an error message exactly when it failed.
   */
  lemma WalkOutcomeRun(c: Db, f0: map<string, Bytes>, script0: seq<WriteOutcome>, found: seq<Found>, now: Timestamp,
                       committed: Db, files: map<string, Bytes>, script: seq<WriteOutcome>, sent: seq<ImapCommand>)
    requires WalkOutcome(c, f0, script0, found, now, committed, files, script, sent)
    ensures |committed.runs| == |c.runs| + 1 && committed.runs[..|c.runs|] == c.runs
    ensures var r := committed.runs[|c.runs|];
            && r.id == c.nextRunId && r.startedAt == now && r.finishedAt == Some(now)
            && r.messagesFetched == |found| && r.messagesSaved <= r.messagesFetched
            && (r.status == Success || r.status == Error)
            && (r.status == Error <==> r.errorMessage.Some?)
  {
    var known := MessageIds(c.emails);
    if FetchSucceeded(c, f0, script0, found, now, committed, files, script) {
      var acc := Accepted(found, KeyOf, known);
      StoreAllRunsIrrelevant(c, f0, script0, acc, now, c.runs, c.nextRunId);
      NewIdsBounded(found, KeyOf, known);
    } else {
      var i :| 0 <= i < |found| && FetchAborted(c, f0, script0, found, i, now, committed, files, script);
      NewIdsBounded(found[..i], KeyOf, known);
    }
  }

  /**
   * Dedup idempotence: once a walk has run through, fetching the same messages
   * again would store none of them.
   */
  lemma RefetchStoresNothing(c: Db, f0: map<string, Bytes>, script0: seq<WriteOutcome>, found: seq<Found>, now: Timestamp,
                             committed: Db, files: map<string, Bytes>, script: seq<WriteOutcome>)
    requires FetchSucceeded(c, f0, script0, found, now, committed, files, script)
    ensures NewIds(found, KeyOf, MessageIds(committed.emails)) == []
  {
    IngestTwiceStoresNothing(found, KeyOf, MessageIds(c.emails));
  }

  /** A walk that raised leaves the emails and the attachment rows as they were. */
  lemma AbortedWalkStoresNothing(c: Db, f0: map<string, Bytes>, script0: seq<WriteOutcome>, found: seq<Found>, i: nat,
                                 now: Timestamp, committed: Db, files: map<string, Bytes>, script: seq<WriteOutcome>)
    requires FetchAborted(c, f0, script0, found, i, now, committed, files, script)
    ensures committed.emails == c.emails && committed.attachments == c.attachments
    ensures committed.nextEmailId == c.nextEmailId && committed.nextAttachmentId == c.nextAttachmentId
    ensures KeyOf(found[i]).Some? && KeyOf(found[i]).value !in MessageIds(committed.emails)
  {
  }

  /** The parts of a walk that the attachment loop stores, in walk order. */
  function AttachmentParts(parts: seq<Part>): (r: seq<Part>)
    ensures |r| <= |parts|
    decreases |parts|
  {
    if parts == [] then []
    else AttachmentParts(parts[..|parts| - 1]) + (if IsAttachmentPart(parts[|parts| - 1]) then [parts[|parts| - 1]] else [])
  }

  /** The rows of the attachment parts `ps` when every write succeeds: consecutive ids from `id`. */
  function RowsFrom(id: nat, emailId: nat, ps: seq<Part>, now: Timestamp): (r: seq<Attachment>)
    ensures |r| == |ps|
  {
    seq(|ps|, k requires 0 <= k < |ps| => StoredRow(id + k, emailId, ps[k], now))
  }

  /**
   * When every write succeeds, each attachment part with a filename gets exactly one
   * row, in walk order, with consecutive ids and its derived stored name.
   */
  lemma {:induction false} StorePartsAllWritten(w: Progress, emailId: nat, parts: seq<Part>, now: Timestamp)
    requires w.script == []
    ensures var r := StoreParts(w, emailId, parts, now);
            && r.db.attachments == w.db.attachments + RowsFrom(w.db.nextAttachmentId, emailId, AttachmentParts(parts), now)
            && r.db.nextAttachmentId == w.db.nextAttachmentId + |AttachmentParts(parts)|
            && r.db.emails == w.db.emails && r.script == []
    decreases |parts|
  {
    if parts != [] {
      var init, p := parts[..|parts| - 1], parts[|parts| - 1];
      StorePartsAllWritten(w, emailId, init, now);
      var m := StoreParts(w, emailId, init, now);
      var before := RowsFrom(w.db.nextAttachmentId, emailId, AttachmentParts(init), now);
      if IsAttachmentPart(p) {
        assert AttachmentParts(parts) == AttachmentParts(init) + [p];
        assert RowsFrom(w.db.nextAttachmentId, emailId, AttachmentParts(parts), now)
               == before + [StoredRow(m.db.nextAttachmentId, emailId, p, now)];
      } else {
        assert AttachmentParts(parts) == AttachmentParts(init);
      }
    }
  }

  /**
   * When every write fails, no attachment row is left, but each attachment part has
   * still used up one attachment id and one write outcome; the email row stays.
   */
  lemma {:induction false} StorePartsAllFailed(w: Progress, emailId: nat, parts: seq<Part>, now: Timestamp)
    requires |AttachmentParts(parts)| <= |w.script|
    requires forall k :: 0 <= k < |w.script| ==> w.script[k].WriteFails?
    ensures var r := StoreParts(w, emailId, parts, now);
            && r.db.attachments == w.db.attachments && r.db.emails == w.db.emails
            && r.db.nextAttachmentId == w.db.nextAttachmentId + |AttachmentParts(parts)|
            && r.script == w.script[|AttachmentParts(parts)|..]
    decreases |parts|
  {
    if parts != [] {
      var init, p := parts[..|parts| - 1], parts[|parts| - 1];
      assert |AttachmentParts(init)| <= |AttachmentParts(parts)|;
      StorePartsAllFailed(w, emailId, init, now);
      var n := |AttachmentParts(init)|;
      if IsAttachmentPart(p) {
        assert AttachmentParts(parts) == AttachmentParts(init) + [p];
        assert StoreParts(w, emailId, init, now).script[0] == w.script[n];
        assert w.script[n..][1..] == w.script[n + 1..];
      } else {
        assert AttachmentParts(parts) == AttachmentParts(init);
      }
    }
  }

  /** A body text part whose codec is unknown. */
  predicate Undecodable(p: Part) {
    IsBodyPart(p) && p.text.None?
  }

  /**
   * Collecting a body raises exactly when some text part has an unknown codec, and
   * then with the error of the first such part.
   */
  lemma {:induction false} BodyFailsIff(parts: seq<Part>)
    ensures BodyOf(parts).DecodeFailed? <==> exists k :: 0 <= k < |parts| && Undecodable(parts[k])
    ensures BodyOf(parts).DecodeFailed? ==>
              exists k :: 0 <= k < |parts| && Undecodable(parts[k])
                && BodyOf(parts).error == UnknownEncoding(parts[k].charset)
                && forall j :: 0 <= j < k ==> !Undecodable(parts[j])
    decreases |parts|
  {
    if parts != [] {
      var init, p := parts[..|parts| - 1], parts[|parts| - 1];
      BodyFailsIff(init);
      assert forall k :: 0 <= k < |init| ==> init[k] == parts[k];
      if BodyOf(init).DecodeFailed? {
        var k :| 0 <= k < |init| && Undecodable(init[k]) && BodyOf(init).error == UnknownEncoding(init[k].charset)
                 && forall j :: 0 <= j < k ==> !Undecodable(init[j]);
        assert Undecodable(parts[k]);
      } else if Undecodable(p) {
        assert Undecodable(parts[|parts| - 1]);
      } else {
        forall k | 0 <= k < |parts| ensures !Undecodable(parts[k]) {
          if k < |init| {
            assert !Undecodable(init[k]);
          }
        }
      }
    }
  }
}
