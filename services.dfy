/**
 * The manual e-mail check: `run_email_check_job` with its attachment writer
 * `_save_attachment_with_rollback`, and the job metrics.
 *
 * The job creates and commits a run in state "running", takes the decoded messages
 * of the mail client, and walks them: a message is stored when it has a
 * `Message-ID`, no email with that `Message-ID` exists yet and the enabled filter
 * rules accept it; each of its attachments gets a row, first named "temp", then
 * renamed to `ID<email>-<attachment>_<original>`, and then its file is written.  The
 * only commit of the ingested data comes after the whole walk, so one failed file
 * write rolls back every email of the run: the run is then finished as "error".
 *
 * The reference definitions are at the top: which messages a successful run
 * stores (`Dedup.Accepted` with `IngestKey`), and the rows and files that result.
 */
module Services {
  import opened Wrappers
  import opened Seqs
  import opened Dedup
  import opened Models
  import opened StoredNames
  import opened Storage
  import opened Repositories
  import opened StoreInvariants
  import opened Filters

  /** One attachment as the mail client decodes it; its size is the length of its contents. */
  datatype RawAttachment = RawAttachment(filename: string, mimeType: string, content: Bytes)

  /** One message as the mail client decodes it; an absent `Message-ID` is the empty string. */
  datatype RawEmail = RawEmail(
    messageId: string,
    sender: string,
    recipient: Option<string>,
    cc: Option<string>,
    subject: Option<string>,
    body: string,
    receivedAt: Option<Timestamp>,
    attachments: seq<RawAttachment>)

  /** What the mail client gives the job: the decoded messages, or the text of the exception it raised. */
  datatype Source = Fetched(messages: seq<RawEmail>) | Raised(detail: string)

  // ---------------- reference definitions ----------------

  function FieldsOf(m: RawEmail): EmailFields {
    EmailFields(Some(m.sender), m.subject, Some(m.body))
  }

  /**
   * The identifier under which the walk considers storing a message: its
   * `Message-ID` when it has one and the filter rules accept it, otherwise none.
   */
  function IngestKey(filters: seq<EmailFilter>): RawEmail -> Option<string> {
    (m: RawEmail) => if m.messageId != "" && ApplyFiltersToEmail(FieldsOf(m), filters) then Some(m.messageId) else None
  }

  /** The email row stored for a message. */
  function EmailOf(m: RawEmail, id: nat, now: Timestamp): Email {
    NewEmail(id, m.messageId, m.sender, m.recipient, m.cc, m.subject, Some(m.body), m.receivedAt, now)
  }

  /** The email rows for the accepted messages, with consecutive ids from `firstId`. */
  function EmailsOf(accepted: seq<RawEmail>, firstId: nat, now: Timestamp): (r: seq<Email>)
    ensures |r| == |accepted|
  {
    seq(|accepted|, k requires 0 <= k < |accepted| => EmailOf(accepted[k], firstId + k, now))
  }

  /** The stored row for an attachment once its file is written. */
  function RowOf(emailId: nat, attachmentId: nat, a: RawAttachment, now: Timestamp): Attachment {
    Attachment(attachmentId, emailId, a.filename, StoredName(emailId, attachmentId, ManualSeparator, a.filename),
               Some(a.mimeType), Some(|a.content|), now)
  }

  /** The rows for the attachments of one email, with consecutive ids from `firstId`. */
  function RowsOf(emailId: nat, firstId: nat, atts: seq<RawAttachment>, now: Timestamp): (r: seq<Attachment>)
    ensures |r| == |atts|
  {
    seq(|atts|, j requires 0 <= j < |atts| => RowOf(emailId, firstId + j, atts[j], now))
  }

  /** The attachments of the accepted messages, in the order they are written. */
  ghost function AllAttachments(accepted: seq<RawEmail>): seq<RawAttachment>
    decreases |accepted|
  {
    if accepted == [] then []
    else AllAttachments(accepted[..|accepted| - 1]) + accepted[|accepted| - 1].attachments
  }

  /** The attachment rows of the accepted messages: the email ids and the attachment ids both run on. */
  ghost function AllRows(accepted: seq<RawEmail>, firstEmailId: nat, firstAttachmentId: nat, now: Timestamp): seq<Attachment>
    decreases |accepted|
  {
    if accepted == [] then []
    else
      var init := accepted[..|accepted| - 1];
      AllRows(init, firstEmailId, firstAttachmentId, now)
      + RowsOf(firstEmailId + |init|, firstAttachmentId + |AllAttachments(init)|, accepted[|accepted| - 1].attachments, now)
  }

  ghost function NamesOf(rows: seq<Attachment>): set<string> {
    set a | a in rows :: a.filenameStored
  }

  /** The text of the exception raised for a failed file write. */
  function SaveError(filename: string, cause: string): string {
    "500: Erro ao salvar anexo '" + filename + "' em disco: " + cause
  }

  /**
   * Of the writes scripted by `script`, the first to fail is number `k`, the write of
   * attachment `k` of `atts`, and `error` is the text of its exception.
   */
  ghost predicate FailedWrite(script: seq<WriteOutcome>, atts: seq<RawAttachment>, k: int, error: string) {
    && 0 <= k < |atts|
    && WritesSucceed(script, 0, k) && OutcomeAt(script, k).WriteFails?
    && error == SaveError(atts[k].filename, OutcomeAt(script, k).cause)
  }

  /** Message `i` is stored by the walk: it has a `Message-ID`, the rules accept it, and that id is new. */
  ghost predicate StoresMessage(msgs: seq<RawEmail>, key: RawEmail -> Option<string>, known: set<string>, i: int) {
    && 0 <= i < |msgs|
    && key(msgs[i]) == Some(msgs[i].messageId)
    && msgs[i].messageId !in known + Elems(NewIds(msgs[..i], key, known))
  }

  /**
   * The walk over `msgs`, with file writes ending as `script` says, raised at message
   * `i` after `saved` messages had been stored (exactly the new ones before it): `i` is
   * a message the walk stores, the writes for the attachments accepted before it all
   * succeeded, and among its own attachments' writes one is the first to fail.
   */
  ghost predicate FailedAtMessage(msgs: seq<RawEmail>, key: RawEmail -> Option<string>, known: set<string>,
                                  script: seq<WriteOutcome>, i: int, saved: nat, error: string) {
    && StoresMessage(msgs, key, known, i)
    && saved == |NewIds(msgs[..i], key, known)|
    && var n := WritesOf(msgs[..i], key, known);
       && WritesSucceed(script, 0, n)
       && exists k :: FailedWrite(Consumed(script, n), msgs[i].attachments, k, error)
  }

  /** The writes of a walk that ran through: those of the attachments of every accepted message. */
  ghost function WritesOf(msgs: seq<RawEmail>, key: RawEmail -> Option<string>, known: set<string>): nat {
    |AllAttachments(Accepted(msgs, key, known))|
  }

  // ---------------- properties of the reference definitions ----------------

  lemma {:induction false} AllRowsMatchAttachments(accepted: seq<RawEmail>, e0: nat, a0: nat, now: Timestamp)
    ensures |AllRows(accepted, e0, a0, now)| == |AllAttachments(accepted)|
    decreases |accepted|
  {
    if accepted != [] {
      AllRowsMatchAttachments(accepted[..|accepted| - 1], e0, a0, now);
    }
  }

  lemma AllSnoc(accepted: seq<RawEmail>, m: RawEmail, e0: nat, a0: nat, now: Timestamp)
    ensures AllAttachments(accepted + [m]) == AllAttachments(accepted) + m.attachments
    ensures AllRows(accepted + [m], e0, a0, now)
            == AllRows(accepted, e0, a0, now) + RowsOf(e0 + |accepted|, a0 + |AllAttachments(accepted)|, m.attachments, now)
  {
    assert (accepted + [m])[..|accepted|] == accepted;
  }

  /**
   * Every row of a successful run follows the naming scheme, and row `k` has the id
   * `a0 + k`: ids are consecutive, so the stored names are pairwise distinct.
   */
  lemma {:induction false} AllRowsIds(accepted: seq<RawEmail>, e0: nat, a0: nat, now: Timestamp)
    ensures forall k :: 0 <= k < |AllRows(accepted, e0, a0, now)| ==>
              var r := AllRows(accepted, e0, a0, now)[k];
              && r.id == a0 + k && e0 <= r.emailId < e0 + |accepted|
              && r.filenameStored == StoredName(r.emailId, r.id, ManualSeparator, r.filenameOriginal)
    decreases |accepted|
  {
    if accepted != [] {
      var init := accepted[..|accepted| - 1];
      AllRowsIds(init, e0, a0, now);
      AllRowsMatchAttachments(init, e0, a0, now);
      var head := AllRows(init, e0, a0, now);
      var tail := RowsOf(e0 + |init|, a0 + |AllAttachments(init)|, accepted[|accepted| - 1].attachments, now);
      var rows := AllRows(accepted, e0, a0, now);
      assert |rows| == |head| + |tail|;
      forall k | 0 <= k < |rows|
        ensures && rows[k].id == a0 + k && e0 <= rows[k].emailId < e0 + |accepted|
                && rows[k].filenameStored == StoredName(rows[k].emailId, rows[k].id, ManualSeparator, rows[k].filenameOriginal)
      {
        if k < |head| {
          assert rows[k] == head[k];
        } else {
          assert rows[k] == tail[k - |head|];
        }
      }
    }
  }

  lemma NamesOfConcat(a: seq<Attachment>, b: seq<Attachment>)
    ensures NamesOf(a + b) == NamesOf(a) + NamesOf(b)
  {
    forall n | n in NamesOf(a + b) ensures n in NamesOf(a) + NamesOf(b) {
      var x :| x in a + b && x.filenameStored == n;
    }
  }

  /** The `Message-ID`s stored after a successful run: those before plus the new ones. */
  lemma EmailsOfMessageIds(emails: seq<Email>, accepted: seq<RawEmail>, key: RawEmail -> Option<string>,
                           ids: seq<string>, firstId: nat, now: Timestamp)
    requires |accepted| == |ids| && forall k :: 0 <= k < |accepted| ==> accepted[k].messageId == ids[k]
    ensures MessageIds(emails + EmailsOf(accepted, firstId, now)) == MessageIds(emails) + Elems(ids)
  {
    var es := EmailsOf(accepted, firstId, now);
    forall x | x in MessageIds(emails + es) ensures x in MessageIds(emails) + Elems(ids) {
      var e :| e in emails + es && e.messageId == x;
      if e !in emails {
        var k :| 0 <= k < |es| && es[k] == e;
        assert ids[k] == x;
      }
    }
    forall x | x in Elems(ids) ensures x in MessageIds(emails + es) {
      var k :| 0 <= k < |ids| && ids[k] == x;
      assert es[k] in emails + es;
    }
    forall x | x in MessageIds(emails) ensures x in MessageIds(emails + es) {
      var e :| e in emails && e.messageId == x;
      assert e in emails + es;
    }
  }

  /** The key of an accepted message is its `Message-ID`. */
  lemma AcceptedIds(msgs: seq<RawEmail>, filters: seq<EmailFilter>, known: set<string>)
    ensures |Accepted(msgs, IngestKey(filters), known)| == |NewIds(msgs, IngestKey(filters), known)|
    ensures forall k :: 0 <= k < |Accepted(msgs, IngestKey(filters), known)| ==>
              Accepted(msgs, IngestKey(filters), known)[k].messageId == NewIds(msgs, IngestKey(filters), known)[k]
  {
    AcceptedMatchesNewIds(msgs, IngestKey(filters), known);
  }

  /**
   * Dedup idempotence of the manual check: a second run over the same messages,
   * against the store a successful first run left (same rules), stores nothing.
   */
  lemma SecondRunStoresNothing(db: Db, msgs: seq<RawEmail>, now: Timestamp)
    ensures var filters := EmailFilterRepository.GetAll(db, true);
            var key := IngestKey(filters);
            var stored := db.emails + EmailsOf(Accepted(msgs, key, MessageIds(db.emails)), db.nextEmailId, now);
            NewIds(msgs, key, MessageIds(stored)) == []
  {
    var key := IngestKey(EmailFilterRepository.GetAll(db, true));
    var known := MessageIds(db.emails);
    AcceptedIds(msgs, EmailFilterRepository.GetAll(db, true), known);
    EmailsOfMessageIds(db.emails, Accepted(msgs, key, known), key, NewIds(msgs, key, known), db.nextEmailId, now);
    IngestTwiceStoresNothing(msgs, key, known);
  }

  /**
   * What a successful run stores: no more emails than messages, each with a
   * `Message-ID` not stored before and not stored twice, each accepted by the rules.
   */
  lemma SuccessfulRunStoresNewAcceptedMessages(db: Db, msgs: seq<RawEmail>)
    ensures var filters := EmailFilterRepository.GetAll(db, true);
            var ids := NewIds(msgs, IngestKey(filters), MessageIds(db.emails));
            && |ids| <= |msgs|
            && NoDuplicates(ids)
            && (forall x :: x in ids ==> x != "" && x !in MessageIds(db.emails))
            && (forall x :: x in ids ==> exists i :: 0 <= i < |msgs| && msgs[i].messageId == x
                                          && ApplyFiltersToEmail(FieldsOf(msgs[i]), filters))
  {
    var filters := EmailFilterRepository.GetAll(db, true);
    var key := IngestKey(filters);
    var known := MessageIds(db.emails);
    NewIdsBounded(msgs, key, known);
    NewIdsAreFresh(msgs, key, known);
    NewIdsComeFromItems(msgs, key, known);
    forall x | x in NewIds(msgs, key, known)
      ensures x != "" && exists i :: 0 <= i < |msgs| && msgs[i].messageId == x && ApplyFiltersToEmail(FieldsOf(msgs[i]), filters)
    {
      var i :| 0 <= i < |msgs| && key(msgs[i]) == Some(x);
    }
  }

  /**
   * The rules the manual check applies are the enabled ones only, so a store whose
   * rules are all disabled accepts every message with a `Message-ID`.
   */
  lemma DisabledRulesAcceptAll(db: Db, m: RawEmail)
    requires forall k :: 0 <= k < |db.filters| ==> !db.filters[k].enabled
    requires m.messageId != ""
    ensures IngestKey(EmailFilterRepository.GetAll(db, true))(m) == Some(m.messageId)
  {
    FilterKeepsNone(db.filters, (f: EmailFilter) => f.enabled);
  }

  // ---------------- the attachment writer ----------------

  /**
   * `_save_attachment_with_rollback`: a row named "temp" is created, renamed to the
   * derived name, and the file is written under that name.  When the write fails
   * the whole session is rolled back, the file is removed if it exists (a failing
   * removal is ignored), and the error names the original file and the cause.
   */
  method SaveAttachmentWithRollback(s: Session, blobs: BlobStore, emailId: nat, att: RawAttachment, now: Timestamp)
    returns (err: Option<string>)
    requires ValidDb(s.pending) && emailId in EmailIds(s.pending)
    modifies s, blobs
    ensures var row := RowOf(emailId, old(s.pending.nextAttachmentId), att, now);
            var written := AfterWrite(old(blobs.files), row.filenameStored, att.content, old(blobs.NextWrite()));
            && s.commits == old(s.commits) && s.committed == old(s.committed)
            && blobs.undeletable == old(blobs.undeletable)
            && blobs.writeScript == (if old(blobs.writeScript) == [] then [] else old(blobs.writeScript)[1..])
            && (err.None? <==> old(blobs.NextWrite()).WriteOk?)
            && (err.None? ==>
                  && s.pending == old(s.pending).(attachments := old(s.pending.attachments) + [row],
                                                  nextAttachmentId := old(s.pending.nextAttachmentId) + 1)
                  && blobs.files == written)
            && (err.Some? ==>
                  && s.pending == old(s.committed)
                  && err.value == SaveError(att.filename, old(blobs.NextWrite()).cause)
                  && blobs.files == if row.filenameStored in written && row.filenameStored in old(blobs.undeletable)
                                    then written else written - {row.filenameStored})
  {
    ghost var p0 := s.pending;
    var a := AttachmentRepository.Create(s, emailId, att.filename, "temp", Some(att.mimeType), Some(|att.content|), now);
    var name := StoredName(emailId, a.id, ManualSeparator, att.filename);
    RenameAttachment(s, a.id, name);
    RenameNewestAttachment(p0, a, name);
    var ok, cause := blobs.Write(name, att.content);
    if ok {
      err := None;
    } else {
      s.Rollback();
      var removed := blobs.Remove(name);
      err := Some(SaveError(att.filename, cause));
    }
  }

  /** Outside `names`, `g` has the same files with the same contents as `f`. */
  ghost predicate SameOutside(f: map<string, Bytes>, g: map<string, Bytes>, names: set<string>) {
    forall n :: n !in names ==> (n in g <==> n in f) && (n in g ==> g[n] == f[n])
  }

  lemma SameOutsideTrans(f: map<string, Bytes>, g: map<string, Bytes>, h: map<string, Bytes>, a: set<string>, b: set<string>)
    requires SameOutside(f, g, a) && SameOutside(g, h, b)
    ensures SameOutside(f, h, a + b)
  {
  }

  /** Row `i`'s file holds the contents of attachment `i`. */
  ghost predicate HoldsContents(files: map<string, Bytes>, rows: seq<Attachment>, atts: seq<RawAttachment>) {
    |rows| == |atts| &&
    forall i :: 0 <= i < |rows| ==> rows[i].filenameStored in files && files[rows[i].filenameStored] == atts[i].content
  }

  /**
   * The first `j` attachments of `atts` have their rows (appended to `p0`) and their
   * files, and the store still meets its constraints.
   */
  ghost predicate WrittenUpTo(p0: Db, emailId: nat, atts: seq<RawAttachment>, now: Timestamp, j: nat,
                              p: Db, files: map<string, Bytes>) {
    && j <= |atts|
    && p == p0.(attachments := p0.attachments + RowsOf(emailId, p0.nextAttachmentId, atts, now)[..j],
                nextAttachmentId := p0.nextAttachmentId + j)
    && ValidDb(p) && emailId in EmailIds(p) && BlobsBacked(p, files)
    && HoldsContents(files, RowsOf(emailId, p0.nextAttachmentId, atts, now)[..j], atts[..j])
  }

  /** One successful attachment write extends the rows, keeps the constraints and keeps every row backed. */
  lemma AttachmentWritten(p0: Db, p1: Db, emailId: nat, atts: seq<RawAttachment>, now: Timestamp, j: nat,
                          f1: map<string, Bytes>, f2: map<string, Bytes>)
    requires j < |atts| && WrittenUpTo(p0, emailId, atts, now, j, p1, f1)
    requires f2 == f1[RowOf(emailId, p1.nextAttachmentId, atts[j], now).filenameStored := atts[j].content]
    ensures WrittenUpTo(p0, emailId, atts, now, j + 1,
                        p1.(attachments := p1.attachments + [RowOf(emailId, p1.nextAttachmentId, atts[j], now)],
                            nextAttachmentId := p1.nextAttachmentId + 1), f2)
  {
    var rows := RowsOf(emailId, p0.nextAttachmentId, atts, now);
    var row := rows[j];
    assert row == RowOf(emailId, p1.nextAttachmentId, atts[j], now);
    var p2 := p1.(attachments := p1.attachments + [row], nextAttachmentId := p1.nextAttachmentId + 1);
    assert rows[..j + 1] == rows[..j] + [row];
    assert p2.attachments == p0.attachments + rows[..j + 1];
    FreshNameUnused(p1, emailId, p0.nextAttachmentId + j, ManualSeparator, atts[j].filename);
    InsertAttachmentKeepsValid(p1, row, ManualSeparator);
    BlobsBackedFrame(p1, f1, f2);
    BlobsBackedInsert(p1, row, f2);
    assert EmailIds(p2) == EmailIds(p1);
    forall i | 0 <= i < j
      ensures rows[i].filenameStored in f2 && f2[rows[i].filenameStored] == atts[i].content
    {
      assert rows[..j][i] == rows[i] && atts[..j][i] == atts[i];
      assert rows[i] in p1.attachments;
    }
    var r2, a2 := rows[..j + 1], atts[..j + 1];
    forall i | 0 <= i < |r2| ensures r2[i].filenameStored in f2 && f2[r2[i].filenameStored] == a2[i].content {
      assert r2[i] == rows[i] && a2[i] == atts[i];
    }
  }

  /** The derived names of an email's attachments, with ids from the counter up, are names no row has. */
  lemma RowNamesFresh(p0: Db, emailId: nat, atts: seq<RawAttachment>, now: Timestamp)
    requires ValidDb(p0)
    ensures forall n :: n in NamesOf(RowsOf(emailId, p0.nextAttachmentId, atts, now)) ==> n !in StoredNameSet(p0)
  {
    var rows := RowsOf(emailId, p0.nextAttachmentId, atts, now);
    forall k | 0 <= k < |rows| ensures rows[k].filenameStored !in StoredNameSet(p0) {
      assert rows[k].filenameStored == StoredName(emailId, p0.nextAttachmentId + k, ManualSeparator, atts[k].filename);
      FreshNameUnused(p0, emailId, p0.nextAttachmentId + k, ManualSeparator, atts[k].filename);
    }
    forall n | n in NamesOf(rows) ensures n !in StoredNameSet(p0) {
      var r :| r in rows && r.filenameStored == n;
      var k :| 0 <= k < |rows| && rows[k] == r;
    }
  }

  /**
   * The walk over one email's attachments.  It runs through exactly when none of its
   * `|atts|` writes fails, and then every attachment has its row and its file.  At the
   * first failing write the session is rolled back and the error names that write's
   * attachment and cause.  Either way the writes made are consumed from the script.
   * Only the files of the derived names change, and those are names no row of the
   * store had before.
   */
  method SaveAttachments(s: Session, blobs: BlobStore, e: Email, atts: seq<RawAttachment>, now: Timestamp)
    returns (err: Option<string>)
    requires ValidDb(s.pending) && e.id in EmailIds(s.pending) && BlobsBacked(s.pending, blobs.files)
    modifies s, blobs
    ensures s.commits == old(s.commits) && s.committed == old(s.committed)
    ensures blobs.undeletable == old(blobs.undeletable)
    ensures forall n :: n in NamesOf(RowsOf(e.id, old(s.pending.nextAttachmentId), atts, now)) ==> n !in StoredNameSet(old(s.pending))
    ensures SameOutside(old(blobs.files), blobs.files, NamesOf(RowsOf(e.id, old(s.pending.nextAttachmentId), atts, now)))
    ensures err.None? <==> WritesSucceed(old(blobs.writeScript), 0, |atts|)
    ensures err.None? ==>
              && WrittenUpTo(old(s.pending), e.id, atts, now, |atts|, s.pending, blobs.files)
              && blobs.writeScript == Consumed(old(blobs.writeScript), |atts|)
    ensures err.Some? ==> s.pending == old(s.committed)
    ensures err.Some? ==>
              exists k :: FailedWrite(old(blobs.writeScript), atts, k, err.value)
                          && blobs.writeScript == Consumed(old(blobs.writeScript), k + 1)
  {
    ghost var p0 := s.pending;
    ghost var f0 := blobs.files;
    ghost var script0 := blobs.writeScript;
    RowNamesFresh(p0, e.id, atts, now);
    SaveStart(s.committed, p0, e.id, atts, now, f0, script0);
    err := None;
    ghost var failedAt: nat := 0;
    var j := 0;
    while j < |atts| && err.None?
      invariant s.commits == old(s.commits) && s.committed == old(s.committed)
      invariant blobs.undeletable == old(blobs.undeletable)
      invariant SaveState(s.committed, p0, e.id, atts, now, f0, script0, j, s.pending, blobs.files, blobs.writeScript, err, failedAt)
      decreases |atts| - j
    {
      err := SaveTurn(s, blobs, e.id, atts, j, now, p0, f0, script0);
      failedAt := j;
      j := j + 1;
    }
    SaveEnd(s.committed, p0, e.id, atts, now, f0, script0, j, s.pending, blobs.files, blobs.writeScript, err, failedAt);
  }

  /** The state of an attachment walk before its first attachment. */
  lemma SaveStart(committed: Db, p0: Db, emailId: nat, atts: seq<RawAttachment>, now: Timestamp, f0: map<string, Bytes>,
                  script0: seq<WriteOutcome>)
    requires ValidDb(p0) && emailId in EmailIds(p0) && BlobsBacked(p0, f0)
    ensures SaveState(committed, p0, emailId, atts, now, f0, script0, 0, p0, f0, script0, None, 0)
  {
    assert RowsOf(emailId, p0.nextAttachmentId, atts, now)[..0] == [] && atts[..0] == [];
    assert p0.attachments + [] == p0.attachments;
    assert Consumed(script0, 0) == script0;
  }

  /** The state of an attachment walk when it stops: every write made and succeeded, or the first failing one. */
  lemma SaveEnd(committed: Db, p0: Db, emailId: nat, atts: seq<RawAttachment>, now: Timestamp, f0: map<string, Bytes>,
                script0: seq<WriteOutcome>, j: nat, p: Db, files: map<string, Bytes>, script: seq<WriteOutcome>,
                err: Option<string>, failedAt: nat)
    requires SaveState(committed, p0, emailId, atts, now, f0, script0, j, p, files, script, err, failedAt)
    requires j == |atts| || err.Some?
    ensures err.None? <==> WritesSucceed(script0, 0, |atts|)
    ensures err.None? ==> WrittenUpTo(p0, emailId, atts, now, |atts|, p, files) && script == Consumed(script0, |atts|)
    ensures err.Some? ==> p == committed
    ensures err.Some? ==> exists k :: FailedWrite(script0, atts, k, err.value) && script == Consumed(script0, k + 1)
  {
    if err.Some? {
      assert OutcomeAt(script0, failedAt).WriteFails?;
    }
  }

  /**
   * The state of an email's attachment walk after `j` attachments, `script0` being the
   * write outcomes at its start: without an exception, `WrittenUpTo`, with the first
   * `j` writes made and succeeded; after one, at attachment `failedAt`, the session
   * rolled back to `committed` and that attachment's write the first to fail.  Only
   * the files of the derived names have changed.
   */
  ghost predicate SaveState(committed: Db, p0: Db, emailId: nat, atts: seq<RawAttachment>, now: Timestamp, f0: map<string, Bytes>,
                            script0: seq<WriteOutcome>, j: nat, p: Db, files: map<string, Bytes>, script: seq<WriteOutcome>,
                            err: Option<string>, failedAt: nat) {
    && j <= |atts|
    && SameOutside(f0, files, NamesOf(RowsOf(emailId, p0.nextAttachmentId, atts, now)))
    && (err.None? ==>
          && WrittenUpTo(p0, emailId, atts, now, j, p, files)
          && WritesSucceed(script0, 0, j) && script == Consumed(script0, j))
    && (err.Some? ==>
          && p == committed && failedAt < j
          && FailedWrite(script0, atts, failedAt, err.value) && script == Consumed(script0, failedAt + 1))
  }

  /** One attachment of the walk: written with its row, or the exception and the rollback. */
  method SaveTurn(s: Session, blobs: BlobStore, emailId: nat, atts: seq<RawAttachment>, j: nat, now: Timestamp,
                  ghost p0: Db, ghost f0: map<string, Bytes>, ghost script0: seq<WriteOutcome>)
    returns (err: Option<string>)
    requires j < |atts|
    requires SaveState(s.committed, p0, emailId, atts, now, f0, script0, j, s.pending, blobs.files, blobs.writeScript, None, 0)
    modifies s, blobs
    ensures s.commits == old(s.commits) && s.committed == old(s.committed)
    ensures blobs.undeletable == old(blobs.undeletable)
    ensures SaveState(s.committed, p0, emailId, atts, now, f0, script0, j + 1, s.pending, blobs.files, blobs.writeScript, err, j)
  {
    ghost var rows := RowsOf(emailId, p0.nextAttachmentId, atts, now);
    ghost var p1 := s.pending;
    ghost var f1 := blobs.files;
    ghost var next := blobs.NextWrite();
    ConsumeOne(script0, j);
    assert next == OutcomeAt(script0, j);
    assert RowOf(emailId, p1.nextAttachmentId, atts[j], now) == rows[j] && rows[j].filenameStored in NamesOf(rows);
    err := SaveAttachmentWithRollback(s, blobs, emailId, atts[j], now);
    assert blobs.writeScript == Consumed(script0, j + 1);
    assert SameOutside(f1, blobs.files, {rows[j].filenameStored});
    SameOutsideTrans(f0, f1, blobs.files, NamesOf(rows), {rows[j].filenameStored});
    assert NamesOf(rows) + {rows[j].filenameStored} == NamesOf(rows);
    if err.None? {
      AttachmentWritten(p0, p1, emailId, atts, now, j, f1, blobs.files);
    } else {
      assert err.value == SaveError(atts[j].filename, next.cause);
    }
  }

  // ---------------- the job ----------------

  /** The store after a successful walk has stored the accepted messages and their attachments. */
  ghost function Ingested(db: Db, accepted: seq<RawEmail>, now: Timestamp): Db {
    db.(emails := db.emails + EmailsOf(accepted, db.nextEmailId, now),
        attachments := db.attachments + AllRows(accepted, db.nextEmailId, db.nextAttachmentId, now),
        nextEmailId := db.nextEmailId + |accepted|,
        nextAttachmentId := db.nextAttachmentId + |AllAttachments(accepted)|)
  }

  /**
   * The walk state after the first `i` messages, when nothing has failed: the pending
   * store holds what `Ingested` says, meets its constraints, every row is backed, the
   * new rows' files hold their contents and no other file changed.
   */
  ghost predicate IngestedUpTo(c0: Db, msgs: seq<RawEmail>, filters: seq<EmailFilter>, i: nat, now: Timestamp,
                               p: Db, files: map<string, Bytes>, f0: map<string, Bytes>) {
    && i <= |msgs|
    && var known := MessageIds(c0.emails);
       var acc := Accepted(msgs[..i], IngestKey(filters), known);
       var rows := AllRows(acc, c0.nextEmailId, c0.nextAttachmentId, now);
       && p == Ingested(c0, acc, now)
       && ValidDb(p) && BlobsBacked(p, files)
       && SameOutside(f0, files, NamesOf(rows))
       && HoldsContents(files, rows, AllAttachments(acc))
       && MessageIds(p.emails) == known + Elems(NewIds(msgs[..i], IngestKey(filters), known))
  }

  /**
   * One more message walked without an exception: the walk state is the one after
   * `i + 1` messages, and the message was stored (`stored`) exactly when it was accepted.
   */
  ghost predicate WalkedOneMore(c0: Db, msgs: seq<RawEmail>, filters: seq<EmailFilter>, i: nat, now: Timestamp,
                                p: Db, files: map<string, Bytes>, f0: map<string, Bytes>, stored: bool) {
    && IngestedUpTo(c0, msgs, filters, i + 1, now, p, files, f0)
    && |Accepted(msgs[..i + 1], IngestKey(filters), MessageIds(c0.emails))|
       == |Accepted(msgs[..i], IngestKey(filters), MessageIds(c0.emails))| + (if stored then 1 else 0)
  }

  /** The walk state after the first `i` messages, of which `saved` were stored. */
  ghost predicate SavedUpTo(c0: Db, msgs: seq<RawEmail>, filters: seq<EmailFilter>, i: nat, now: Timestamp,
                            p: Db, files: map<string, Bytes>, f0: map<string, Bytes>, saved: nat) {
    && IngestedUpTo(c0, msgs, filters, i, now, p, files, f0)
    && saved == |Accepted(msgs[..i], IngestKey(filters), MessageIds(c0.emails))|
  }

  /**
   * Before message `i`, the walk has made exactly the writes of the attachments of the
   * messages accepted so far, and all of them succeeded: `script` is what is left of
   * `script0`.
   */
  ghost predicate WritesUpTo(c0: Db, msgs: seq<RawEmail>, filters: seq<EmailFilter>, i: nat,
                             script0: seq<WriteOutcome>, script: seq<WriteOutcome>) {
    && i <= |msgs|
    && var n := WritesOf(msgs[..i], IngestKey(filters), MessageIds(c0.emails));
       WritesSucceed(script0, 0, n) && script == Consumed(script0, n)
  }

  /**
   * The state of the walk after `i` messages: without an exception, `SavedUpTo` and
   * `WritesUpTo`; after one, raised at message `failedAt`, the pending store is `c0`
   * again.  Either way the rows of `c0` keep their files.
   */
  ghost predicate WalkState(c0: Db, msgs: seq<RawEmail>, filters: seq<EmailFilter>, now: Timestamp, f0: map<string, Bytes>,
                            script0: seq<WriteOutcome>, i: nat, p: Db, files: map<string, Bytes>, script: seq<WriteOutcome>,
                            saved: nat, err: Option<string>, failedAt: nat) {
    && i <= |msgs| && saved <= i
    && OrphansOnly(c0, f0, files)
    && (err.None? ==> SavedUpTo(c0, msgs, filters, i, now, p, files, f0, saved) && WritesUpTo(c0, msgs, filters, i, script0, script))
    && (err.Some? ==>
          && p == c0 && failedAt < i
          && FailedAtMessage(msgs, IngestKey(filters), MessageIds(c0.emails), script0, failedAt, saved, err.value))
  }

  /** One turn of the walk moves its state on by one message. */
  lemma WalkStep(c0: Db, msgs: seq<RawEmail>, filters: seq<EmailFilter>, now: Timestamp, f0: map<string, Bytes>,
                 script0: seq<WriteOutcome>, i: nat, p: Db, files: map<string, Bytes>, script: seq<WriteOutcome>, saved: nat,
                 p1: Db, files1: map<string, Bytes>, script1: seq<WriteOutcome>, stored: bool, err: Option<string>)
    requires i < |msgs| && WalkState(c0, msgs, filters, now, f0, script0, i, p, files, script, saved, None, 0)
    requires OrphansOnly(c0, f0, files1)
    requires err.None? ==>
               WalkedOneMore(c0, msgs, filters, i, now, p1, files1, f0, stored) && WritesUpTo(c0, msgs, filters, i + 1, script0, script1)
    requires err.Some? ==>
               && p1 == c0 && StoresMessage(msgs, IngestKey(filters), MessageIds(c0.emails), i)
               && exists k :: FailedWrite(script, msgs[i].attachments, k, err.value)
    ensures WalkState(c0, msgs, filters, now, f0, script0, i + 1, p1, files1, script1,
                      if err.None? && stored then saved + 1 else saved, err, i)
  {
    if err.Some? {
      AcceptedIds(msgs[..i], filters, MessageIds(c0.emails));
    }
  }

  /** The walk state at the end: everything walked, or an exception. */
  lemma WalkEnd(c0: Db, msgs: seq<RawEmail>, filters: seq<EmailFilter>, now: Timestamp, f0: map<string, Bytes>,
                script0: seq<WriteOutcome>, i: nat, p: Db, files: map<string, Bytes>, script: seq<WriteOutcome>,
                saved: nat, err: Option<string>, failedAt: nat)
    requires WalkState(c0, msgs, filters, now, f0, script0, i, p, files, script, saved, err, failedAt)
    requires i == |msgs| || err.Some?
    ensures saved <= |msgs| && OrphansOnly(c0, f0, files)
    ensures err.None? ==>
              && IngestedUpTo(c0, msgs, filters, |msgs|, now, p, files, f0)
              && saved == |NewIds(msgs, IngestKey(filters), MessageIds(c0.emails))|
              && var n := WritesOf(msgs, IngestKey(filters), MessageIds(c0.emails));
                 WritesSucceed(script0, 0, n) && script == Consumed(script0, n)
    ensures err.Some? ==> p == c0
    ensures err.Some? ==>
              exists k :: FailedAtMessage(msgs, IngestKey(filters), MessageIds(c0.emails), script0, k, saved, err.value)
  {
    if err.None? {
      assert msgs[..i] == msgs;
      AcceptedIds(msgs, filters, MessageIds(c0.emails));
    }
  }

  /** The attachments accepted from the first `i` messages are among those accepted from all of them. */
  lemma {:induction false} AttachmentsGrow(msgs: seq<RawEmail>, i: nat, key: RawEmail -> Option<string>, known: set<string>)
    requires i <= |msgs|
    ensures WritesOf(msgs[..i], key, known) <= WritesOf(msgs, key, known)
    decreases |msgs|
  {
    if i < |msgs| {
      var init, last := msgs[..|msgs| - 1], msgs[|msgs| - 1];
      assert init[..i] == msgs[..i];
      AttachmentsGrow(init, i, key, known);
      assert msgs == init + [last];
      AcceptedSnoc(init, last, key, known);
      AllSnoc(Accepted(init, key, known), last, 0, 0, 0);
    } else {
      assert msgs[..i] == msgs;
    }
  }

  /**
   * The write a raising walk fails at is one of the writes of a walk that runs
   * through: a walk raises exactly when one of those writes fails.
   */
  lemma FailureWithinRun(msgs: seq<RawEmail>, key: RawEmail -> Option<string>, known: set<string>,
                         script: seq<WriteOutcome>, i: int, saved: nat, error: string)
    requires FailedAtMessage(msgs, key, known, script, i, saved, error)
    ensures !WritesSucceed(script, 0, WritesOf(msgs, key, known))
  {
    var n := WritesOf(msgs[..i], key, known);
    var k :| FailedWrite(Consumed(script, n), msgs[i].attachments, k, error);
    assert !OutcomeAt(script, n + k).WriteOk? by {
      assert OutcomeAt(Consumed(script, n), k) == OutcomeAt(script, n + k);
    }
    StoredWithinRun(msgs, i, key, known);
  }

  /** The writes of a stored message come after those before it, and among those of the whole walk. */
  lemma StoredWithinRun(msgs: seq<RawEmail>, i: int, key: RawEmail -> Option<string>, known: set<string>)
    requires StoresMessage(msgs, key, known, i)
    ensures WritesOf(msgs[..i], key, known) + |msgs[i].attachments| <= WritesOf(msgs, key, known)
  {
    AcceptedOneMore(msgs, i, key, known);
    AllSnoc(Accepted(msgs[..i], key, known), msgs[i], 0, 0, 0);
    assert WritesOf(msgs[..i + 1], key, known) == WritesOf(msgs[..i], key, known) + |msgs[i].attachments|;
    AttachmentsGrow(msgs, i + 1, key, known);
  }

  /** A skipped message makes no write. */
  lemma SkippedWrites(c0: Db, msgs: seq<RawEmail>, filters: seq<EmailFilter>, i: nat, script0: seq<WriteOutcome>, script: seq<WriteOutcome>)
    requires i < |msgs| && WritesUpTo(c0, msgs, filters, i, script0, script)
    requires IngestKey(filters)(msgs[i]).Some? ==>
               msgs[i].messageId in MessageIds(c0.emails) + Elems(NewIds(msgs[..i], IngestKey(filters), MessageIds(c0.emails)))
    ensures WritesUpTo(c0, msgs, filters, i + 1, script0, script)
  {
    assert msgs[..i + 1] == msgs[..i] + [msgs[i]];
    AcceptedSnoc(msgs[..i], msgs[i], IngestKey(filters), MessageIds(c0.emails));
  }

  /** A stored message makes one successful write per attachment. */
  lemma StoredWrites(c0: Db, msgs: seq<RawEmail>, filters: seq<EmailFilter>, i: nat,
                     script0: seq<WriteOutcome>, script: seq<WriteOutcome>, script1: seq<WriteOutcome>)
    requires i < |msgs| && WritesUpTo(c0, msgs, filters, i, script0, script)
    requires StoresMessage(msgs, IngestKey(filters), MessageIds(c0.emails), i)
    requires WritesSucceed(script, 0, |msgs[i].attachments|) && script1 == Consumed(script, |msgs[i].attachments|)
    ensures WritesUpTo(c0, msgs, filters, i + 1, script0, script1)
  {
    var key, known := IngestKey(filters), MessageIds(c0.emails);
    AcceptedOneMore(msgs, i, key, known);
    AllSnoc(Accepted(msgs[..i], key, known), msgs[i], 0, 0, 0);
    ConsumedTwice(script0, WritesOf(msgs[..i], key, known), |msgs[i].attachments|);
  }

  /** The files of the rows of `c0` are untouched, and every file that is new is not any of them. */
  ghost predicate OrphansOnly(c0: Db, f0: map<string, Bytes>, files: map<string, Bytes>) {
    && (forall n :: n in StoredNameSet(c0) ==> n in files && n in f0 && files[n] == f0[n])
    && (forall n :: n in files && n !in f0 ==> n !in StoredNameSet(c0))
  }

  lemma StartOfWalk(c0: Db, msgs: seq<RawEmail>, filters: seq<EmailFilter>, now: Timestamp, f0: map<string, Bytes>)
    requires ValidDb(c0) && BlobsBacked(c0, f0)
    ensures IngestedUpTo(c0, msgs, filters, 0, now, c0, f0, f0)
    ensures OrphansOnly(c0, f0, f0)
  {
    assert msgs[..0] == [];
    assert c0.emails + [] == c0.emails && c0.attachments + [] == c0.attachments;
    forall n | n in StoredNameSet(c0) ensures n in f0 {
      var a :| a in c0.attachments && a.filenameStored == n;
    }
  }

  /** A message that is skipped (no `Message-ID`, a stored one, or rejected by the rules) changes nothing. */
  lemma SkipMessage(c0: Db, msgs: seq<RawEmail>, filters: seq<EmailFilter>, i: nat, now: Timestamp,
                    p: Db, files: map<string, Bytes>, f0: map<string, Bytes>)
    requires i < |msgs| && IngestedUpTo(c0, msgs, filters, i, now, p, files, f0)
    requires IngestKey(filters)(msgs[i]).Some? ==> msgs[i].messageId in MessageIds(p.emails)
    ensures WalkedOneMore(c0, msgs, filters, i, now, p, files, f0, false)
  {
    var key, known := IngestKey(filters), MessageIds(c0.emails);
    assert msgs[..i + 1] == msgs[..i] + [msgs[i]];
    NewIdsSnoc(msgs[..i], msgs[i], key, known);
    AcceptedSnoc(msgs[..i], msgs[i], key, known);
  }

  /** A stored message: its email row and its attachment rows are the next ones `Ingested` adds. */
  lemma StoredMessageRows(c0: Db, acc: seq<RawEmail>, m: RawEmail, now: Timestamp, e: Email, p1: Db, p2: Db, p3: Db)
    requires p1 == Ingested(c0, acc, now)
    requires e == EmailOf(m, p1.nextEmailId, now)
    requires p2 == p1.(emails := p1.emails + [e], nextEmailId := p1.nextEmailId + 1)
    requires p3 == p2.(attachments := p2.attachments + RowsOf(e.id, p2.nextAttachmentId, m.attachments, now)[..|m.attachments|],
                       nextAttachmentId := p2.nextAttachmentId + |m.attachments|)
    ensures p3 == Ingested(c0, acc + [m], now)
    ensures AllRows(acc + [m], c0.nextEmailId, c0.nextAttachmentId, now)
            == AllRows(acc, c0.nextEmailId, c0.nextAttachmentId, now) + RowsOf(e.id, p2.nextAttachmentId, m.attachments, now)
    ensures AllAttachments(acc + [m]) == AllAttachments(acc) + m.attachments
  {
    AllSnoc(acc, m, c0.nextEmailId, c0.nextAttachmentId, now);
    var rs := RowsOf(e.id, p2.nextAttachmentId, m.attachments, now);
    assert rs[..|m.attachments|] == rs;
    var es := EmailsOf(acc, c0.nextEmailId, now);
    assert EmailsOf(acc + [m], c0.nextEmailId, now) == es + [e];
    assert p3.emails == c0.emails + (es + [e]);
    assert p3.attachments == c0.attachments + (AllRows(acc, c0.nextEmailId, c0.nextAttachmentId, now) + rs);
  }

  /** A stored message: the new rows' files hold their contents and nothing else changed. */
  lemma StoredMessageFiles(rows: seq<Attachment>, atts: seq<RawAttachment>, newRows: seq<Attachment>, newAtts: seq<RawAttachment>,
                           p2: Db, f0: map<string, Bytes>, f1: map<string, Bytes>, f3: map<string, Bytes>)
    requires SameOutside(f0, f1, NamesOf(rows)) && HoldsContents(f1, rows, atts)
    requires forall a :: a in rows ==> a in p2.attachments
    requires forall n :: n in NamesOf(newRows) ==> n !in StoredNameSet(p2)
    requires SameOutside(f1, f3, NamesOf(newRows)) && HoldsContents(f3, newRows, newAtts)
    ensures SameOutside(f0, f3, NamesOf(rows + newRows))
    ensures HoldsContents(f3, rows + newRows, atts + newAtts)
  {
    NamesOfConcat(rows, newRows);
    SameOutsideTrans(f0, f1, f3, NamesOf(rows), NamesOf(newRows));
    var r, a := rows + newRows, atts + newAtts;
    forall k | 0 <= k < |r| ensures r[k].filenameStored in f3 && f3[r[k].filenameStored] == a[k].content {
      if k < |rows| {
        assert r[k] == rows[k] && a[k] == atts[k];
        assert rows[k] in p2.attachments;
        assert rows[k].filenameStored in StoredNameSet(p2);
      } else {
        assert r[k] == newRows[k - |rows|] && a[k] == newAtts[k - |rows|];
      }
    }
  }

  /** A stored message moves the walk state on by one message and one stored email. */
  lemma StoreMessage(c0: Db, msgs: seq<RawEmail>, filters: seq<EmailFilter>, i: nat, now: Timestamp,
                     p1: Db, f1: map<string, Bytes>, f0: map<string, Bytes>, e: Email, p2: Db, p3: Db, f3: map<string, Bytes>)
    requires i < |msgs| && IngestedUpTo(c0, msgs, filters, i, now, p1, f1, f0)
    requires IngestKey(filters)(msgs[i]) == Some(msgs[i].messageId) && msgs[i].messageId !in MessageIds(p1.emails)
    requires e == EmailOf(msgs[i], p1.nextEmailId, now)
    requires p2 == p1.(emails := p1.emails + [e], nextEmailId := p1.nextEmailId + 1)
    requires WrittenUpTo(p2, e.id, msgs[i].attachments, now, |msgs[i].attachments|, p3, f3)
    requires forall n :: n in NamesOf(RowsOf(e.id, p2.nextAttachmentId, msgs[i].attachments, now)) ==> n !in StoredNameSet(p2)
    requires SameOutside(f1, f3, NamesOf(RowsOf(e.id, p2.nextAttachmentId, msgs[i].attachments, now)))
    ensures WalkedOneMore(c0, msgs, filters, i, now, p3, f3, f0, true)
  {
    var m := msgs[i];
    var key, known := IngestKey(filters), MessageIds(c0.emails);
    var acc := Accepted(msgs[..i], key, known);
    var ids := NewIds(msgs[..i], key, known);
    AcceptedOneMore(msgs, i, key, known);
    StoredMessageRows(c0, acc, m, now, e, p1, p2, p3);
    var rows := AllRows(acc, c0.nextEmailId, c0.nextAttachmentId, now);
    var newRows := RowsOf(e.id, p2.nextAttachmentId, m.attachments, now);
    assert newRows[..|m.attachments|] == newRows && m.attachments[..|m.attachments|] == m.attachments;
    StoredMessageFiles(rows, AllAttachments(acc), newRows, m.attachments, p2, f0, f1, f3);
    InsertEmailKeepsValid(p1, e);
  }

  /** A message whose key is new extends both the accepted messages and the new keys by one. */
  lemma AcceptedOneMore(msgs: seq<RawEmail>, i: nat, key: RawEmail -> Option<string>, known: set<string>)
    requires i < |msgs| && key(msgs[i]) == Some(msgs[i].messageId)
    requires msgs[i].messageId !in known + Elems(NewIds(msgs[..i], key, known))
    ensures Accepted(msgs[..i + 1], key, known) == Accepted(msgs[..i], key, known) + [msgs[i]]
    ensures NewIds(msgs[..i + 1], key, known) == NewIds(msgs[..i], key, known) + [msgs[i].messageId]
    ensures known + Elems(NewIds(msgs[..i + 1], key, known)) == known + Elems(NewIds(msgs[..i], key, known)) + {msgs[i].messageId}
  {
    var ids := NewIds(msgs[..i], key, known);
    assert msgs[..i + 1] == msgs[..i] + [msgs[i]];
    NewIdsSnoc(msgs[..i], msgs[i], key, known);
    AcceptedSnoc(msgs[..i], msgs[i], key, known);
    assert Elems(ids + [msgs[i].messageId]) == Elems(ids) + {msgs[i].messageId};
  }

  /** Whatever one email's attachment walk writes, the rows of `c0` keep their files and new files are orphans. */
  lemma OrphansStep(c0: Db, p: Db, f0: map<string, Bytes>, f1: map<string, Bytes>, f2: map<string, Bytes>, names: set<string>)
    requires OrphansOnly(c0, f0, f1)
    requires SameOutside(f1, f2, names) && forall n :: n in names ==> n !in StoredNameSet(p)
    requires forall a :: a in c0.attachments ==> a in p.attachments
    ensures OrphansOnly(c0, f0, f2)
  {
    forall n | n in StoredNameSet(c0) ensures n in StoredNameSet(p) {
      var a :| a in c0.attachments && a.filenameStored == n;
    }
  }

  /**
   * One turn of the walk (the body of the loop over the fetched messages): a message
   * without `Message-ID`, with a stored `Message-ID` or rejected by the rules is
   * skipped; otherwise its email row is created and its attachments are written.
   */
  method IngestMessage(s: Session, blobs: BlobStore, m: RawEmail, filters: seq<EmailFilter>, now: Timestamp,
                       ghost c0: Db, ghost msgs: seq<RawEmail>, ghost i: nat, ghost f0: map<string, Bytes>,
                       ghost script0: seq<WriteOutcome>)
    returns (stored: bool, err: Option<string>)
    requires i < |msgs| && msgs[i] == m && s.committed == c0
    requires IngestedUpTo(c0, msgs, filters, i, now, s.pending, blobs.files, f0) && OrphansOnly(c0, f0, blobs.files)
    requires WritesUpTo(c0, msgs, filters, i, script0, blobs.writeScript)
    modifies s, blobs
    ensures s.committed == c0 && s.commits == old(s.commits)
    ensures OrphansOnly(c0, f0, blobs.files)
    ensures err.None? ==>
              && WalkedOneMore(c0, msgs, filters, i, now, s.pending, blobs.files, f0, stored)
              && WritesUpTo(c0, msgs, filters, i + 1, script0, blobs.writeScript)
    ensures err.Some? ==> s.pending == c0 && StoresMessage(msgs, IngestKey(filters), MessageIds(c0.emails), i)
    ensures err.Some? ==> exists k :: FailedWrite(old(blobs.writeScript), m.attachments, k, err.value)
  {
    ghost var p1, f1 := s.pending, blobs.files;
    stored, err := false, None;
    var skip := m.messageId == "";
    if !skip {
      var existing := EmailRepository.GetByMessageId(s.pending, m.messageId);
      skip := existing.Some? || !ApplyFiltersToEmail(FieldsOf(m), filters);
    }
    if skip {
      SkipMessage(c0, msgs, filters, i, now, p1, f1, f0);
      SkippedWrites(c0, msgs, filters, i, script0, blobs.writeScript);
      return;
    }
    var e := EmailRepository.Create(s, m.messageId, m.sender, m.recipient, m.cc, m.subject, Some(m.body), m.receivedAt, now);
    InsertEmailKeepsValid(p1, e);
    ghost var p2 := s.pending;
    ghost var script1 := blobs.writeScript;
    err := SaveAttachments(s, blobs, e, m.attachments, now);
    assert forall a :: a in c0.attachments ==> a in p2.attachments;
    OrphansStep(c0, p2, f0, f1, blobs.files, NamesOf(RowsOf(e.id, p2.nextAttachmentId, m.attachments, now)));
    if err.None? {
      StoreMessage(c0, msgs, filters, i, now, p1, f1, f0, e, p2, s.pending, blobs.files);
      StoredWrites(c0, msgs, filters, i, script0, script1, blobs.writeScript);
      stored := true;
    }
  }

  /** One turn of the walk, with the count of stored messages carried on. */
  method WalkTurn(s: Session, blobs: BlobStore, msgs: seq<RawEmail>, i: nat, filters: seq<EmailFilter>, now: Timestamp,
                  saved: nat, ghost c0: Db, ghost f0: map<string, Bytes>, ghost script0: seq<WriteOutcome>)
    returns (savedAfter: nat, err: Option<string>)
    requires i < |msgs| && s.committed == c0
    requires WalkState(c0, msgs, filters, now, f0, script0, i, s.pending, blobs.files, blobs.writeScript, saved, None, 0)
    modifies s, blobs
    ensures s.committed == c0 && s.commits == old(s.commits)
    ensures WalkState(c0, msgs, filters, now, f0, script0, i + 1, s.pending, blobs.files, blobs.writeScript, savedAfter, err, i)
  {
    ghost var p, files, script := s.pending, blobs.files, blobs.writeScript;
    var stored;
    stored, err := IngestMessage(s, blobs, msgs[i], filters, now, c0, msgs, i, f0, script0);
    WalkStep(c0, msgs, filters, now, f0, script0, i, p, files, script, saved, s.pending, blobs.files, blobs.writeScript, stored, err);
    savedAfter := if err.None? && stored then saved + 1 else saved;
  }

  /**
   * The loop of `run_email_check_job` over the fetched messages, which stops at the
   * first exception.  It runs through exactly when none of the writes for the
   * attachments of the messages it stores fails; otherwise it raises at the message
   * holding the first failing write, having stored the new messages before it.
   * Nothing is committed here.
   */
  method WalkMessages(s: Session, blobs: BlobStore, msgs: seq<RawEmail>, filters: seq<EmailFilter>, now: Timestamp)
    returns (saved: nat, err: Option<string>)
    requires s.pending == s.committed && ValidDb(s.committed) && BlobsBacked(s.committed, blobs.files)
    modifies s, blobs
    ensures s.committed == old(s.committed) && s.commits == old(s.commits)
    ensures saved <= |msgs|
    ensures OrphansOnly(old(s.committed), old(blobs.files), blobs.files)
    ensures err.None? <==> WritesSucceed(old(blobs.writeScript), 0, WritesOf(msgs, IngestKey(filters), MessageIds(old(s.committed).emails)))
    ensures err.None? ==>
              && IngestedUpTo(old(s.committed), msgs, filters, |msgs|, now, s.pending, blobs.files, old(blobs.files))
              && saved == |NewIds(msgs, IngestKey(filters), MessageIds(old(s.committed).emails))|
              && blobs.writeScript == Consumed(old(blobs.writeScript), WritesOf(msgs, IngestKey(filters), MessageIds(old(s.committed).emails)))
    ensures err.Some? ==> s.pending == old(s.committed)
    ensures err.Some? ==>
              exists i :: FailedAtMessage(msgs, IngestKey(filters), MessageIds(old(s.committed).emails), old(blobs.writeScript),
                                          i, saved, err.value)
  {
    ghost var c0, f0, script0 := s.committed, blobs.files, blobs.writeScript;
    StartOfWalk(c0, msgs, filters, now, f0);
    saved, err := 0, None;
    assert msgs[..0] == [];
    assert Consumed(script0, 0) == script0;
    ghost var failedAt: nat := 0;
    var i := 0;
    while i < |msgs| && err.None?
      invariant s.committed == c0 && s.commits == old(s.commits)
      invariant WalkState(c0, msgs, filters, now, f0, script0, i, s.pending, blobs.files, blobs.writeScript, saved, err, failedAt)
      decreases |msgs| - i
    {
      saved, err := WalkTurn(s, blobs, msgs, i, filters, now, saved, c0, f0, script0);
      failedAt := i;
      i := i + 1;
    }
    WalkEnd(c0, msgs, filters, now, f0, script0, i, s.pending, blobs.files, blobs.writeScript, saved, err, failedAt);
    if err.Some? {
      FailureWithinRun(msgs, IngestKey(filters), MessageIds(c0.emails), script0, failedAt, saved, err.value);
    }
  }

  /**
   * The outcome of a successful job: the accepted messages and their attachments
   * are stored after the rows of `c`, next to the finished run; the new rows' files
   * hold their contents; no other file changed.
   */
  ghost predicate JobSucceeded(c: Db, f0: map<string, Bytes>, msgs: seq<RawEmail>, filters: seq<EmailFilter>,
                               now: Timestamp, run: JobRun, committed: Db, files: map<string, Bytes>) {
    var key, known := IngestKey(filters), MessageIds(c.emails);
    var acc := Accepted(msgs, key, known);
    var rows := AllRows(acc, c.nextEmailId, c.nextAttachmentId, now);
    && run.messagesSaved == |NewIds(msgs, key, known)|
    && committed == Ingested(c, acc, now).(runs := c.runs + [run], nextRunId := c.nextRunId + 1)
    && SameOutside(f0, files, NamesOf(rows))
    && HoldsContents(files, rows, AllAttachments(acc))
  }

  /**
   * The outcome of a failed job: the store is as before but for the finished run,
   * and every file the run left behind is an orphan.
   */
  ghost predicate JobFailed(c: Db, f0: map<string, Bytes>, run: JobRun, committed: Db, files: map<string, Bytes>) {
    && committed == c.(runs := c.runs + [run], nextRunId := c.nextRunId + 1)
    && (forall n :: n in files && n !in f0 ==> n !in StoredNameSet(committed))
  }

  /** A walk that ran through, finished: the job's success outcome, with the constraints kept. */
  lemma WalkCompleted(c: Db, c0: Db, msgs: seq<RawEmail>, filters: seq<EmailFilter>, now: Timestamp,
                      p: Db, f0: map<string, Bytes>, files: map<string, Bytes>, run: JobRun)
    requires c0 == c.(runs := c.runs + [NewJobRun(c.nextRunId, now)], nextRunId := c.nextRunId + 1)
    requires IngestedUpTo(c0, msgs, filters, |msgs|, now, p, files, f0)
    requires run.id == c.nextRunId
    requires run.messagesSaved == |NewIds(msgs, IngestKey(filters), MessageIds(c0.emails))|
    ensures JobSucceeded(c, f0, msgs, filters, now, run, WithRun(p, run), files)
    ensures ValidDb(WithRun(p, run)) && BlobsBacked(WithRun(p, run), files)
  {
    assert msgs[..|msgs|] == msgs;
    var acc := Accepted(msgs, IngestKey(filters), MessageIds(c.emails));
    var started := NewJobRun(c.nextRunId, now);
    var base := Ingested(c, acc, now);
    assert p == base.(runs := base.runs + [started], nextRunId := base.nextRunId + 1);
    DropNewestRunKeepsValid(base, started);
    FinishNewestRun(base, started, run);
    InsertRunKeepsValid(base, run);
  }

  /** A walk that failed (or never started), finished: the job's error outcome, with the constraints kept. */
  lemma WalkFailed(c: Db, c0: Db, now: Timestamp, f0: map<string, Bytes>, files: map<string, Bytes>, run: JobRun)
    requires ValidDb(c) && BlobsBacked(c, f0) && c0 == c.(runs := c.runs + [NewJobRun(c.nextRunId, now)], nextRunId := c.nextRunId + 1)
    requires OrphansOnly(c0, f0, files)
    requires run.id == c.nextRunId
    ensures JobFailed(c, f0, run, WithRun(c0, run), files)
    ensures ValidDb(WithRun(c0, run)) && BlobsBacked(WithRun(c0, run), files)
  {
    FinishNewestRun(c, NewJobRun(c.nextRunId, now), run);
    InsertRunKeepsValid(c, run);
    BlobsBackedFrame(c, f0, files);
  }

  /** The session right after the run row was created and committed: nothing pending. */
  ghost predicate RunOpened(s: Session, c: Db, started: JobRun, now: Timestamp)
    reads s
  {
    && started == NewJobRun(c.nextRunId, now)
    && s.committed == c.(runs := c.runs + [started], nextRunId := c.nextRunId + 1)
    && s.pending == s.committed
  }

  /** The store after the job: consistent, backed by the folder, and no file of an existing row touched. */
  ghost predicate KeptStore(c: Db, f0: map<string, Bytes>, committed: Db, files: map<string, Bytes>) {
    && ValidDb(committed) && BlobsBacked(committed, files)
    && forall n :: n in StoredNameSet(c) ==> n in f0 && n in files && files[n] == f0[n]
  }

  /** The files of the rows of `c` survive a walk that began from `c` with the run row added. */
  lemma KeptFromOrphans(c: Db, run: JobRun, c0: Db, f0: map<string, Bytes>, committed: Db, files: map<string, Bytes>)
    requires c0 == c.(runs := c.runs + [run], nextRunId := c.nextRunId + 1)
    requires OrphansOnly(c0, f0, files) && ValidDb(committed) && BlobsBacked(committed, files)
    ensures KeptStore(c, f0, committed, files)
  {
    assert StoredNameSet(c0) == StoredNameSet(c);
  }

  /** The run as the job finishes it. */
  ghost predicate FinishedAs(run: JobRun, c: Db, now: Timestamp) {
    && run.id == c.nextRunId && run.startedAt == now && run.finishedAt == Some(now)
    && (run.status == Success || run.status == Error)
  }

  /**
   * The job over the fetched messages `msgs`, with file writes ending as `script0`
   * says, finished: the run as the job finishes it, the store kept, the counts, and
   * the outcome its status names.  The run succeeds exactly when none of the writes
   * for the attachments of the messages it stores fails.
   */
  ghost predicate JobFinished(c: Db, f0: map<string, Bytes>, script0: seq<WriteOutcome>, msgs: seq<RawEmail>, now: Timestamp,
                              run: JobRun, committed: Db, files: map<string, Bytes>) {
    && FinishedAs(run, c, now)
    && KeptStore(c, f0, committed, files)
    && run.messagesFetched == |msgs| && run.messagesSaved <= |msgs|
    && var key, known := IngestKey(EmailFilterRepository.GetAll(c, true)), MessageIds(c.emails);
       && (run.status == Success <==> WritesSucceed(script0, 0, WritesOf(msgs, key, known)))
       && (run.status == Error ==>
             && run.errorMessage.Some? && JobFailed(c, f0, run, committed, files)
             && exists i :: FailedAtMessage(msgs, key, known, script0, i, run.messagesSaved, run.errorMessage.value))
       && (run.status == Success ==>
             && run.errorMessage.None?
             && JobSucceeded(c, f0, msgs, EmailFilterRepository.GetAll(c, true), now, run, committed, files))
  }

  /** A walk that ran through, finished as "success". */
  lemma CompletedJob(c: Db, c0: Db, msgs: seq<RawEmail>, filters: seq<EmailFilter>, now: Timestamp,
                     p: Db, f0: map<string, Bytes>, script0: seq<WriteOutcome>, files: map<string, Bytes>,
                     started: JobRun, saved: nat, run: JobRun)
    requires ValidDb(c) && BlobsBacked(c, f0)
    requires started == NewJobRun(c.nextRunId, now) && c0 == c.(runs := c.runs + [started], nextRunId := c.nextRunId + 1)
    requires filters == EmailFilterRepository.GetAll(c, true)
    requires IngestedUpTo(c0, msgs, filters, |msgs|, now, p, files, f0) && OrphansOnly(c0, f0, files)
    requires saved <= |msgs| && saved == |NewIds(msgs, IngestKey(filters), MessageIds(c0.emails))|
    requires WritesSucceed(script0, 0, WritesOf(msgs, IngestKey(filters), MessageIds(c0.emails)))
    requires run == started.(finishedAt := Some(now), messagesFetched := |msgs|, messagesSaved := saved,
                             status := Success, errorMessage := None)
    ensures JobFinished(c, f0, script0, msgs, now, run, WithRun(p, run), files)
  {
    assert c0.emails == c.emails;
    WalkCompleted(c, c0, msgs, filters, now, p, f0, files, run);
    KeptFromOrphans(c, started, c0, f0, WithRun(p, run), files);
  }

  /** A walk that raised, rolled back and finished as "error". */
  lemma FailedJob(c: Db, c0: Db, msgs: seq<RawEmail>, filters: seq<EmailFilter>, now: Timestamp,
                  f0: map<string, Bytes>, script0: seq<WriteOutcome>, files: map<string, Bytes>,
                  started: JobRun, saved: nat, error: string, run: JobRun)
    requires ValidDb(c) && BlobsBacked(c, f0)
    requires started == NewJobRun(c.nextRunId, now) && c0 == c.(runs := c.runs + [started], nextRunId := c.nextRunId + 1)
    requires filters == EmailFilterRepository.GetAll(c, true)
    requires OrphansOnly(c0, f0, files) && saved <= |msgs|
    requires exists i :: FailedAtMessage(msgs, IngestKey(filters), MessageIds(c0.emails), script0, i, saved, error)
    requires run == started.(finishedAt := Some(now), messagesFetched := |msgs|, messagesSaved := saved,
                             status := Error, errorMessage := Some(error))
    ensures JobFinished(c, f0, script0, msgs, now, run, WithRun(c0, run), files)
  {
    var i :| FailedAtMessage(msgs, IngestKey(filters), MessageIds(c0.emails), script0, i, saved, error);
    FailureWithinRun(msgs, IngestKey(filters), MessageIds(c0.emails), script0, i, saved, error);
    WalkFailed(c, c0, now, f0, files, run);
    KeptFromOrphans(c, started, c0, f0, WithRun(c0, run), files);
    assert c0.emails == c.emails;
  }

  /** The message source raised before anything was walked: the run is finished as "error" with 0/0. */
  method FinishRaised(s: Session, started: JobRun, detail: string, now: Timestamp, ghost c: Db, ghost files: map<string, Bytes>,
                      ghost script: seq<WriteOutcome>)
    returns (run: JobRun)
    requires ValidDb(c) && BlobsBacked(c, files) && RunOpened(s, c, started, now)
    modifies s
    ensures s.pending == s.committed && s.commits == old(s.commits) + [s.committed]
    ensures JobEnded(c, files, script, Raised(detail), now, run, s.committed, files, script)
  {
    ghost var c0 := s.committed;
    s.Rollback();
    StartOfWalk(c0, [], [], now, files);
    run := JobRunRepository.Finish(s, started, 0, 0, Error, Some(detail), now);
    WalkFailed(c, c0, now, files, files, run);
    s.Commit();
  }

  /**
   * The walk over the fetched messages and what follows it: committed data and a
   * "success" run when it ran through; a rollback and an "error" run with the
   * counts reached when it raised.
   */
  method WalkAndFinish(s: Session, blobs: BlobStore, msgs: seq<RawEmail>, started: JobRun, now: Timestamp, ghost c: Db)
    returns (run: JobRun)
    requires ValidDb(c) && BlobsBacked(c, blobs.files) && RunOpened(s, c, started, now)
    modifies s, blobs
    ensures s.pending == s.committed
    ensures |s.commits| >= |old(s.commits)| + 1 && s.commits[..|old(s.commits)|] == old(s.commits)
    ensures JobEnded(c, old(blobs.files), old(blobs.writeScript), Fetched(msgs), now, run, s.committed, blobs.files, blobs.writeScript)
  {
    ghost var c0 := s.committed;
    ghost var f0, script0 := blobs.files, blobs.writeScript;
    InsertRunKeepsValid(c, started);
    var filters := EmailFilterRepository.GetAll(s.pending, true);
    assert filters == EmailFilterRepository.GetAll(c, true);
    var saved, err := WalkMessages(s, blobs, msgs, filters, now);
    if err.None? {
      run := CommitWalk(s, msgs, filters, started, saved, now, c, f0, script0, blobs.files);
    } else {
      run := RollbackWalk(s, msgs, filters, started, saved, err.value, now, c, f0, script0, blobs.files);
    }
  }

  /** The walk ran through: the data is committed, then the run is finished as "success" and committed. */
  method CommitWalk(s: Session, msgs: seq<RawEmail>, filters: seq<EmailFilter>, started: JobRun, saved: nat, now: Timestamp,
                    ghost c: Db, ghost f0: map<string, Bytes>, ghost script0: seq<WriteOutcome>, ghost files: map<string, Bytes>)
    returns (run: JobRun)
    requires ValidDb(c) && BlobsBacked(c, f0) && filters == EmailFilterRepository.GetAll(c, true)
    requires started == NewJobRun(c.nextRunId, now) && s.committed == c.(runs := c.runs + [started], nextRunId := c.nextRunId + 1)
    requires IngestedUpTo(s.committed, msgs, filters, |msgs|, now, s.pending, files, f0) && OrphansOnly(s.committed, f0, files)
    requires saved <= |msgs| && saved == |NewIds(msgs, IngestKey(filters), MessageIds(s.committed.emails))|
    requires WritesSucceed(script0, 0, WritesOf(msgs, IngestKey(filters), MessageIds(s.committed.emails)))
    modifies s
    ensures s.pending == s.committed
    ensures |s.commits| == |old(s.commits)| + 2 && s.commits[..|old(s.commits)|] == old(s.commits)
    ensures JobFinished(c, f0, script0, msgs, now, run, s.committed, files)
  {
    ghost var c0 := s.committed;
    s.Commit();
    ghost var walked := s.pending;
    run := JobRunRepository.Finish(s, started, |msgs|, saved, Success, None, now);
    CompletedJob(c, c0, msgs, filters, now, walked, f0, script0, files, started, saved, run);
    s.Commit();
  }

  /** The walk raised: everything pending is rolled back, then the run is finished as "error" and committed. */
  method RollbackWalk(s: Session, msgs: seq<RawEmail>, filters: seq<EmailFilter>, started: JobRun, saved: nat, error: string,
                      now: Timestamp, ghost c: Db, ghost f0: map<string, Bytes>, ghost script0: seq<WriteOutcome>,
                      ghost files: map<string, Bytes>)
    returns (run: JobRun)
    requires ValidDb(c) && BlobsBacked(c, f0) && filters == EmailFilterRepository.GetAll(c, true)
    requires started == NewJobRun(c.nextRunId, now) && s.committed == c.(runs := c.runs + [started], nextRunId := c.nextRunId + 1)
    requires OrphansOnly(s.committed, f0, files) && saved <= |msgs|
    requires exists i :: FailedAtMessage(msgs, IngestKey(filters), MessageIds(s.committed.emails), script0, i, saved, error)
    modifies s
    ensures s.pending == s.committed
    ensures |s.commits| == |old(s.commits)| + 1 && s.commits[..|old(s.commits)|] == old(s.commits)
    ensures JobFinished(c, f0, script0, msgs, now, run, s.committed, files)
  {
    ghost var c0 := s.committed;
    s.Rollback();
    run := JobRunRepository.Finish(s, started, |msgs|, saved, Error, Some(error), now);
    FailedJob(c, c0, msgs, filters, now, f0, script0, files, started, saved, error, run);
    s.Commit();
  }

  /**
   * `run_email_check_job`.  The run is created and committed as "running" first;
   * the messages are then walked and the data committed once at the end; on any
   * exception the session is rolled back and the run finished as "error" with the
   * exception's text and the counts reached so far.  The run is finished and
   * committed on every path.
   */
  method RunEmailCheckJob(s: Session, blobs: BlobStore, source: Source, now: Timestamp) returns (run: JobRun)
    requires s.pending == s.committed && ValidDb(s.committed) && BlobsBacked(s.committed, blobs.files)
    modifies s, blobs
    ensures |s.commits| >= |old(s.commits)| + 2
    ensures s.commits[..|old(s.commits)| + 1]
            == old(s.commits) + [old(s.committed).(runs := old(s.committed.runs) + [NewJobRun(old(s.committed.nextRunId), now)],
                                                   nextRunId := old(s.committed.nextRunId) + 1)]
    ensures s.pending == s.committed
    ensures JobEnded(old(s.committed), old(blobs.files), old(blobs.writeScript), source, now, run,
                     s.committed, blobs.files, blobs.writeScript)
  {
    ghost var c := s.committed;
    var started := OpenRun(s, now);
    match source {
      case Raised(detail) =>
        run := FinishRaised(s, started, detail, now, c, blobs.files, blobs.writeScript);
      case Fetched(messages) =>
        run := WalkAndFinish(s, blobs, messages, started, now, c);
    }
  }

  /** The run row is inserted with status "running" and committed before anything is fetched. */
  method OpenRun(s: Session, now: Timestamp) returns (started: JobRun)
    requires s.pending == s.committed
    modifies s
    ensures RunOpened(s, old(s.committed), started, now)
    ensures s.commits == old(s.commits) + [s.committed]
  {
    started := JobRunRepository.Create(s, now);
    s.Commit();
  }

  /**
   * The job over `source`, finished: the run as the job finishes it and the store
   * kept; for a source that raised, an "error" run with 0/0 and no file written; for
   * fetched messages, `JobFinished`.
   */
  ghost predicate JobEnded(c: Db, f0: map<string, Bytes>, script0: seq<WriteOutcome>, source: Source, now: Timestamp, run: JobRun,
                           committed: Db, files: map<string, Bytes>, script: seq<WriteOutcome>) {
    && FinishedAs(run, c, now) && KeptStore(c, f0, committed, files)
    && (source.Raised? ==>
          && run.status == Error && run.errorMessage == Some(source.detail) && run.messagesFetched == 0 && run.messagesSaved == 0
          && JobFailed(c, f0, run, committed, files) && files == f0 && script == script0)
    && (source.Fetched? ==> JobFinished(c, f0, script0, source.messages, now, run, committed, files))
  }

  /** The health figures: the newest run's times, status and error, and the totals over all runs. */
  datatype JobMetrics = JobMetrics(
    lastRunStart: Option<Timestamp>,
    lastRunEnd: Option<Timestamp>,
    lastStatus: Option<RunStatus>,
    lastError: Option<string>,
    totalFetched: nat,
    totalSaved: nat)

  lemma NewestWhenKeyed(db: Db)
    ensures RunsKeyed(db) && db.runs != [] ==> JobRunRepository.GetLast(db) == Some(db.runs[|db.runs| - 1])
  {
    if RunsKeyed(db) && db.runs != [] {
      LastRunIsNewest(db);
    }
  }

  /** `get_job_metrics`: the last run's fields, or none of them when no run exists. */
  function GetJobMetrics(db: Db): (r: JobMetrics)
    ensures db.runs == [] ==>
              r == JobMetrics(None, None, None, None, 0, 0)
    ensures RunsKeyed(db) && db.runs != [] ==>
              var last := db.runs[|db.runs| - 1];
              && r.lastRunStart == Some(last.startedAt) && r.lastRunEnd == last.finishedAt
              && r.lastStatus == Some(last.status) && r.lastError == last.errorMessage
    ensures r.totalFetched == SumFetched(db.runs) && r.totalSaved == SumSaved(db.runs)
  {
    var (last, fetched, saved) := JobRunRepository.GetAggregatedMetrics(db);
    NewestWhenKeyed(db);
    JobMetrics(
      if last.Some? then Some(last.value.startedAt) else None,
      if last.Some? then last.value.finishedAt else None,
      if last.Some? then Some(last.value.status) else None,
      if last.Some? then last.value.errorMessage else None,
      fetched, saved)
  }

  /**
   * After a run is finished and committed, the metrics report that run, and the totals
   * grow by exactly its counts.
   */
  lemma MetricsAfterRun(db: Db, run: JobRun)
    requires RunsKeyed(db) && run.id == db.nextRunId
    ensures var m := GetJobMetrics(db.(runs := db.runs + [run], nextRunId := db.nextRunId + 1));
            && m.lastRunStart == Some(run.startedAt) && m.lastRunEnd == run.finishedAt
            && m.lastStatus == Some(run.status) && m.lastError == run.errorMessage
            && m.totalFetched == GetJobMetrics(db).totalFetched + run.messagesFetched
            && m.totalSaved == GetJobMetrics(db).totalSaved + run.messagesSaved
  {
    var d := db.(runs := db.runs + [run], nextRunId := db.nextRunId + 1);
    assert RunsKeyed(d) by {
      forall i, j | 0 <= i < j < |d.runs| ensures d.runs[i].id < d.runs[j].id {
        if j == |db.runs| {
          assert d.runs[i] == db.runs[i];
        }
      }
    }
    SumsAppend(db.runs, run);
  }
}
