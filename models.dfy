/**
 * The four tables of the record store (`emails`, `attachments`, `email_filters`,
 * `job_runs`) as datatypes, the whole store as one value `Db`, and the table
 * constraints as predicates over it.  Row ids come from counters in `Db`, so that a
 * rollback, which restores an earlier `Db`, also gives back the ids it had handed out.
 */
module Models {
  import opened Wrappers
  import opened StoredNames

  /** A point in time, as read from the clock; only compared, never computed with. */
  type Timestamp = int

  type Bytes = seq<bv8>

  datatype Email = Email(
    id: nat,
    messageId: string,
    sender: string,
    recipient: Option<string>,
    cc: Option<string>,
    subject: Option<string>,
    body: Option<string>,
    receivedAt: Option<Timestamp>,
    createdAt: Timestamp,
    isDeleted: bool)

  datatype Attachment = Attachment(
    id: nat,
    emailId: nat,
    filenameOriginal: string,
    filenameStored: string,
    mimeType: Option<string>,
    sizeBytes: Option<nat>,
    createdAt: Timestamp)

  datatype EmailFilter = EmailFilter(
    id: nat,
    name: string,
    enabled: bool,
    fromAddress: Option<string>,
    subjectContains: Option<string>,
    bodyContains: Option<string>,
    createdAt: Timestamp)

  /** The `status` column of a run: "running", "success" or "error". */
  datatype RunStatus = Running | Success | Error

  datatype JobRun = JobRun(
    id: nat,
    startedAt: Timestamp,
    finishedAt: Option<Timestamp>,
    messagesFetched: nat,
    messagesSaved: nat,
    status: RunStatus,
    errorMessage: Option<string>)

  /** The record store: the four tables, in insertion order, and the next id of each counter. */
  datatype Db = Db(
    emails: seq<Email>,
    attachments: seq<Attachment>,
    filters: seq<EmailFilter>,
    runs: seq<JobRun>,
    nextEmailId: nat,
    nextAttachmentId: nat,
    nextRunId: nat)

  /** A fresh email row: `is_deleted` defaults to false and `created_at` to the clock. */
  function NewEmail(id: nat, messageId: string, sender: string, recipient: Option<string>,
                    cc: Option<string>, subject: Option<string>, body: Option<string>,
                    receivedAt: Option<Timestamp>, now: Timestamp): (e: Email)
    ensures !e.isDeleted && e.createdAt == now
  {
    Email(id, messageId, sender, recipient, cc, subject, body, receivedAt, now, false)
  }

  /** A fresh run row: status "running", both counts zero, no end time and no error. */
  function NewJobRun(id: nat, now: Timestamp): (r: JobRun)
    ensures r.status == Running && r.messagesFetched == 0 && r.messagesSaved == 0
    ensures r.finishedAt.None? && r.errorMessage.None? && r.startedAt == now
  {
    JobRun(id, now, None, 0, 0, Running, None)
  }

  ghost function EmailIds(db: Db): set<nat> {
    set e | e in db.emails :: e.id
  }

  ghost function MessageIds(emails: seq<Email>): set<string> {
    set e | e in emails :: e.messageId
  }

  ghost function StoredNameSet(db: Db): set<string> {
    set a | a in db.attachments :: a.filenameStored
  }

  // ----- table constraints -----

  /** Primary keys: emails in strictly increasing id order, all below the counter. */
  ghost predicate EmailsKeyed(db: Db) {
    && (forall i :: 0 <= i < |db.emails| ==> db.emails[i].id < db.nextEmailId)
    && (forall i, j :: 0 <= i < j < |db.emails| ==> db.emails[i].id < db.emails[j].id)
  }

  /** `message_id` is unique across all emails, soft-deleted ones included. */
  ghost predicate MessageIdsUnique(emails: seq<Email>) {
    forall i, j :: 0 <= i < j < |emails| ==> emails[i].messageId != emails[j].messageId
  }

  ghost predicate AttachmentsKeyed(db: Db) {
    && (forall i :: 0 <= i < |db.attachments| ==> db.attachments[i].id < db.nextAttachmentId)
    && (forall i, j :: 0 <= i < j < |db.attachments| ==> db.attachments[i].id < db.attachments[j].id)
  }

  /** The foreign key `attachments.email_id`: every attachment belongs to a stored email. */
  ghost predicate AttachmentsOwned(db: Db) {
    forall i :: 0 <= i < |db.attachments| ==> db.attachments[i].emailId in EmailIds(db)
  }

  /** Every stored name is the one derived from the row's own ids and original name. */
  ghost predicate StoredNamesDerived(atts: seq<Attachment>) {
    forall i :: 0 <= i < |atts| ==>
      || atts[i].filenameStored == StoredName(atts[i].emailId, atts[i].id, ManualSeparator, atts[i].filenameOriginal)
      || atts[i].filenameStored == StoredName(atts[i].emailId, atts[i].id, ScheduledSeparator, atts[i].filenameOriginal)
  }

  /** `filename_stored` is unique. */
  ghost predicate StoredNamesUnique(atts: seq<Attachment>) {
    forall i, j :: 0 <= i < j < |atts| ==> atts[i].filenameStored != atts[j].filenameStored
  }

  ghost predicate RunsKeyed(db: Db) {
    && (forall i :: 0 <= i < |db.runs| ==> db.runs[i].id < db.nextRunId)
    && (forall i, j :: 0 <= i < j < |db.runs| ==> db.runs[i].id < db.runs[j].id)
  }

  /** Filter ids increase along the table and filter names are unique. */
  ghost predicate FiltersKeyed(filters: seq<EmailFilter>) {
    && (forall i, j :: 0 <= i < j < |filters| ==> filters[i].id < filters[j].id)
    && (forall i, j :: 0 <= i < j < |filters| ==> filters[i].name != filters[j].name)
  }

  /** All table constraints, plus the naming scheme every attachment row follows. */
  ghost predicate ValidDb(db: Db) {
    && EmailsKeyed(db)
    && MessageIdsUnique(db.emails)
    && AttachmentsKeyed(db)
    && AttachmentsOwned(db)
    && StoredNamesDerived(db.attachments)
    && RunsKeyed(db)
    && FiltersKeyed(db.filters)
  }

  /** The unique constraint on `filename_stored` follows from the naming scheme and the ids. */
  lemma ValidDbStoredNamesUnique(db: Db)
    requires ValidDb(db)
    ensures StoredNamesUnique(db.attachments)
  {
    var atts := db.attachments;
    forall i, j | 0 <= i < j < |atts| ensures atts[i].filenameStored != atts[j].filenameStored {
      if atts[i].filenameStored == atts[j].filenameStored {
        var si := if atts[i].filenameStored == StoredName(atts[i].emailId, atts[i].id, ManualSeparator, atts[i].filenameOriginal)
                  then ManualSeparator else ScheduledSeparator;
        var sj := if atts[j].filenameStored == StoredName(atts[j].emailId, atts[j].id, ManualSeparator, atts[j].filenameOriginal)
                  then ManualSeparator else ScheduledSeparator;
        StoredNameInjective(atts[i].emailId, atts[i].id, si, atts[i].filenameOriginal,
                            atts[j].emailId, atts[j].id, sj, atts[j].filenameOriginal);
        assert false;
      }
    }
  }

  /**
   * A name derived from an attachment id at or above the counter is not the name of
   * any attachment in the store: fresh ids give fresh files.
   */
  lemma FreshNameUnused(db: Db, emailId: nat, attachmentId: nat, sep: char, original: string)
    requires ValidDb(db) && IsSeparator(sep) && attachmentId >= db.nextAttachmentId
    ensures StoredName(emailId, attachmentId, sep, original) !in StoredNameSet(db)
  {
    if StoredName(emailId, attachmentId, sep, original) in StoredNameSet(db) {
      var a :| a in db.attachments && a.filenameStored == StoredName(emailId, attachmentId, sep, original);
      var i :| 0 <= i < |db.attachments| && db.attachments[i] == a;
      var s := if a.filenameStored == StoredName(a.emailId, a.id, ManualSeparator, a.filenameOriginal)
               then ManualSeparator else ScheduledSeparator;
      StoredNameInjective(a.emailId, a.id, s, a.filenameOriginal, emailId, attachmentId, sep, original);
      assert false;
    }
  }

  /**
   * The store/disk consistency the two-phase attachment write protects: every
   * attachment row names a file that exists and holds as many bytes as the row says.
   * (Files without a row, orphans, are allowed.)
   */
  ghost predicate BlobsBacked(db: Db, files: map<string, Bytes>) {
    forall a :: a in db.attachments ==>
      a.filenameStored in files && a.sizeBytes == Some(|files[a.filenameStored]|)
  }
}
