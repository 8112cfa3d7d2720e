/**
 * The repositories of the record store.  Each source class of static methods becomes a
 * Dafny class of static members: queries are functions of a store state `Db`, row
 * writes are methods on a `Session` that change its pending state and nothing else.
 * The store updates they perform are the functions at the top; the lemmas at the end
 * say which table constraints each update keeps.
 */
module Repositories {
  import opened Wrappers
  import opened Text
  import opened Seqs
  import opened Models
  import opened StoredNames
  import opened Storage
  import opened Pagination

  // ---------------- store updates ----------------

  function WithEmailSoftDeleted(db: Db, id: nat): Db {
    db.(emails := seq(|db.emails|, i requires 0 <= i < |db.emails| =>
                        if db.emails[i].id == id then db.emails[i].(isDeleted := true) else db.emails[i]))
  }

  /** `db.delete(email)` with `cascade="all, delete-orphan"`: the email and its attachments go. */
  function WithoutEmail(db: Db, id: nat): Db {
    db.(emails := Filter(db.emails, (e: Email) => e.id != id),
        attachments := Filter(db.attachments, (a: Attachment) => a.emailId != id))
  }

  function WithAttachmentRenamed(db: Db, id: nat, name: string): Db {
    db.(attachments := seq(|db.attachments|, i requires 0 <= i < |db.attachments| =>
                             if db.attachments[i].id == id then db.attachments[i].(filenameStored := name)
                             else db.attachments[i]))
  }

  function WithoutAttachment(db: Db, id: nat): Db {
    db.(attachments := Filter(db.attachments, (a: Attachment) => a.id != id))
  }

  /**
   * `db.add(job_run)`: the row with the run's id is overwritten; a run whose row a
   * rollback discarded is inserted again under the same id.
   */
  function WithRun(db: Db, run: JobRun): Db {
    if exists i :: 0 <= i < |db.runs| && db.runs[i].id == run.id then
      db.(runs := seq(|db.runs|, i requires 0 <= i < |db.runs| => if db.runs[i].id == run.id then run else db.runs[i]))
    else
      db.(runs := db.runs + [run], nextRunId := if run.id < db.nextRunId then db.nextRunId else run.id + 1)
  }

  function SumFetched(runs: seq<JobRun>): nat {
    if runs == [] then 0 else runs[0].messagesFetched + SumFetched(runs[1..])
  }

  function SumSaved(runs: seq<JobRun>): nat {
    if runs == [] then 0 else runs[0].messagesSaved + SumSaved(runs[1..])
  }

  function LatestRun(runs: seq<JobRun>): (r: Option<JobRun>)
    ensures r.None? <==> runs == []
    ensures r.Some? ==> r.value in runs && forall k :: 0 <= k < |runs| ==> runs[k].id <= r.value.id
  {
    if runs == [] then None
    else
      var rest := LatestRun(runs[1..]);
      assert forall k :: 0 < k < |runs| ==> runs[k] == runs[1..][k - 1];
      if rest.Some? && rest.value.id > runs[0].id then rest else Some(runs[0])
  }

  /** The filters of the email listing (`sender`, `subject`, `has_attachments`, `include_deleted`). */
  datatype EmailQuery = EmailQuery(
    sender: Option<string>,
    subject: Option<string>,
    hasAttachments: Option<bool>,
    includeDeleted: bool)

  predicate HasAttachments(db: Db, emailId: nat) {
    exists a :: a in db.attachments && a.emailId == emailId
  }

  /** The `WHERE` clause of the listing: `ILIKE '%s%'` is a case-insensitive substring test and is false on `NULL`. */
  predicate MatchesQuery(db: Db, q: EmailQuery, e: Email) {
    && (q.includeDeleted || !e.isDeleted)
    && (Truthy(q.sender) ==> Contains(Lower(e.sender), Lower(q.sender.value)))
    && (Truthy(q.subject) ==> e.subject.Some? && Contains(Lower(e.subject.value), Lower(q.subject.value)))
    && (q.hasAttachments.Some? ==> HasAttachments(db, e.id) == q.hasAttachments.value)
  }

  function Matching(db: Db, q: EmailQuery): seq<Email> {
    Filter(db.emails, (e: Email) => MatchesQuery(db, q, e))
  }

  /** Every matching email, in listing order. */
  function Listing(db: Db, q: EmailQuery): seq<Email> {
    Sort(Matching(db, q))
  }

  /** The listing holds exactly the matching emails, each once, in listing order. */
  lemma ListingIsOrderedMatches(db: Db, q: EmailQuery)
    ensures |Listing(db, q)| == |Matching(db, q)|
    ensures Ordered(Listing(db, q))
    ensures forall k :: 0 <= k < |Listing(db, q)| ==>
              Listing(db, q)[k] in db.emails && MatchesQuery(db, q, Listing(db, q)[k])
    ensures forall e :: e in db.emails && MatchesQuery(db, q, e) ==> e in Listing(db, q)
  {
    var m := Matching(db, q);
    SortPermutes(m);
    SortOrders(m);
    forall k | 0 <= k < |Listing(db, q)|
      ensures Listing(db, q)[k] in db.emails && MatchesQuery(db, q, Listing(db, q)[k])
    {
      var e := Listing(db, q)[k];
      assert e in m;
      var i :| 0 <= i < |m| && m[i] == e;
    }
    forall e | e in db.emails && MatchesQuery(db, q, e) ensures e in Listing(db, q) {
      var i :| 0 <= i < |db.emails| && db.emails[i] == e;
      assert e in m;
    }
  }

  // ---------------- repositories ----------------

  class EmailRepository {

    /** The email with this `Message-ID`, deleted or not. */
    static function GetByMessageId(db: Db, messageId: string): (r: Option<Email>)
      ensures r.Some? <==> messageId in MessageIds(db.emails)
      ensures r.Some? ==> r.value in db.emails && r.value.messageId == messageId
    {
      var r := Find(db.emails, (e: Email) => e.messageId == messageId);
      assert r.None? ==> forall e :: e in db.emails ==> e.messageId != messageId;
      r
    }

    static function GetById(db: Db, id: nat): (r: Option<Email>)
      ensures r.Some? <==> id in EmailIds(db)
      ensures r.Some? ==> r.value in db.emails && r.value.id == id
    {
      var r := Find(db.emails, (e: Email) => e.id == id);
      assert r.None? ==> forall e :: e in db.emails ==> e.id != id;
      r
    }

    /** Inserts a new email row (flushed, so it has its id) into the session's pending state. */
    static method Create(s: Session, messageId: string, sender: string, recipient: Option<string>,
                         cc: Option<string>, subject: Option<string>, body: Option<string>,
                         receivedAt: Option<Timestamp>, now: Timestamp) returns (e: Email)
      modifies s
      ensures e == NewEmail(old(s.pending.nextEmailId), messageId, sender, recipient, cc, subject, body, receivedAt, now)
      ensures s.pending == old(s.pending).(emails := old(s.pending.emails) + [e],
                                           nextEmailId := old(s.pending.nextEmailId) + 1)
      ensures s.committed == old(s.committed) && s.commits == old(s.commits)
    {
      e := NewEmail(s.pending.nextEmailId, messageId, sender, recipient, cc, subject, body, receivedAt, now);
      s.pending := s.pending.(emails := s.pending.emails + [e], nextEmailId := s.pending.nextEmailId + 1);
    }

    /**
     * One page of the listing and the number of matching emails.  The only caller
     * has already rejected a page or a page size below 1.
     */
    static function GetPaginated(db: Db, page: int, pageSize: int, q: EmailQuery): (r: (seq<Email>, nat))
      requires page >= 1 && pageSize >= 1
      ensures r.1 == |Matching(db, q)|
      ensures |r.0| <= pageSize && |r.0| <= r.1
      ensures var offset := (page - 1) * pageSize;
              |r.0| == if offset >= r.1 then 0 else if offset + pageSize <= r.1 then pageSize else r.1 - offset
      ensures forall k :: 0 <= k < |r.0| ==> r.0[k] in db.emails && MatchesQuery(db, q, r.0[k])
      ensures forall k :: 0 <= k < |r.0| ==>
                (page - 1) * pageSize + k < |Listing(db, q)| && r.0[k] == Listing(db, q)[(page - 1) * pageSize + k]
    {
      var offset: nat := (page - 1) * pageSize;
      ListingIsOrderedMatches(db, q);
      (Window(Listing(db, q), offset, pageSize), |Matching(db, q)|)
    }

    /** `email.is_deleted = True` in the pending state. */
    static method SoftDelete(s: Session, id: nat)
      modifies s
      ensures s.pending == WithEmailSoftDeleted(old(s.pending), id)
      ensures s.committed == old(s.committed) && s.commits == old(s.commits)
    {
      s.pending := WithEmailSoftDeleted(s.pending, id);
    }

    static method HardDelete(s: Session, id: nat)
      modifies s
      ensures s.pending == WithoutEmail(old(s.pending), id)
      ensures s.committed == old(s.committed) && s.commits == old(s.commits)
    {
      s.pending := WithoutEmail(s.pending, id);
    }
  }

  class AttachmentRepository {

    /** Inserts a new attachment row (flushed, so it has its id) into the pending state. */
    static method Create(s: Session, emailId: nat, filenameOriginal: string, filenameStored: string,
                         mimeType: Option<string>, sizeBytes: Option<nat>, now: Timestamp) returns (a: Attachment)
      modifies s
      ensures a == Attachment(old(s.pending.nextAttachmentId), emailId, filenameOriginal, filenameStored, mimeType, sizeBytes, now)
      ensures s.pending == old(s.pending).(attachments := old(s.pending.attachments) + [a],
                                           nextAttachmentId := old(s.pending.nextAttachmentId) + 1)
      ensures s.committed == old(s.committed) && s.commits == old(s.commits)
    {
      a := Attachment(s.pending.nextAttachmentId, emailId, filenameOriginal, filenameStored, mimeType, sizeBytes, now);
      s.pending := s.pending.(attachments := s.pending.attachments + [a],
                              nextAttachmentId := s.pending.nextAttachmentId + 1);
    }

    static function GetById(db: Db, id: nat): (r: Option<Attachment>)
      ensures r.None? <==> forall a :: a in db.attachments ==> a.id != id
      ensures r.Some? ==> r.value in db.attachments && r.value.id == id
    {
      Find(db.attachments, (a: Attachment) => a.id == id)
    }

    static method Delete(s: Session, id: nat)
      modifies s
      ensures s.pending == WithoutAttachment(old(s.pending), id)
      ensures s.committed == old(s.committed) && s.commits == old(s.commits)
    {
      s.pending := WithoutAttachment(s.pending, id);
    }
  }

  /** The in-place rename `attachment.filename_stored = name` followed by `db.add(attachment)`. */
  method RenameAttachment(s: Session, id: nat, name: string)
    modifies s
    ensures s.pending == WithAttachmentRenamed(old(s.pending), id, name)
    ensures s.committed == old(s.committed) && s.commits == old(s.commits)
  {
    s.pending := WithAttachmentRenamed(s.pending, id, name);
  }

  class EmailFilterRepository {

    /** All filters, or exactly the enabled ones. */
    static function GetAll(db: Db, enabledOnly: bool): (r: seq<EmailFilter>)
      ensures !enabledOnly ==> r == db.filters
      ensures enabledOnly ==> forall k :: 0 <= k < |r| ==> r[k].enabled && r[k] in db.filters
      ensures enabledOnly ==> forall k :: 0 <= k < |db.filters| && db.filters[k].enabled ==> db.filters[k] in r
    {
      if enabledOnly then Filter(db.filters, (f: EmailFilter) => f.enabled) else db.filters
    }

    static function GetById(db: Db, id: nat): (r: Option<EmailFilter>)
      ensures r.None? <==> forall f :: f in db.filters ==> f.id != id
      ensures r.Some? ==> r.value in db.filters && r.value.id == id
    {
      Find(db.filters, (f: EmailFilter) => f.id == id)
    }
  }

  class JobRunRepository {

    /** Inserts a new run row with the column defaults into the pending state. */
    static method Create(s: Session, now: Timestamp) returns (run: JobRun)
      modifies s
      ensures run == NewJobRun(old(s.pending.nextRunId), now)
      ensures s.pending == old(s.pending).(runs := old(s.pending.runs) + [run],
                                           nextRunId := old(s.pending.nextRunId) + 1)
      ensures s.committed == old(s.committed) && s.commits == old(s.commits)
    {
      run := NewJobRun(s.pending.nextRunId, now);
      s.pending := s.pending.(runs := s.pending.runs + [run], nextRunId := s.pending.nextRunId + 1);
    }

    /** Overwrites the end time, both counts, the status and the error of `run`; nothing else. */
    static method Finish(s: Session, run: JobRun, messagesFetched: nat, messagesSaved: nat,
                         status: RunStatus, errorMessage: Option<string>, now: Timestamp)
      returns (finished: JobRun)
      modifies s
      ensures finished == run.(finishedAt := Some(now), messagesFetched := messagesFetched,
                               messagesSaved := messagesSaved, status := status, errorMessage := errorMessage)
      ensures finished.id == run.id && finished.startedAt == run.startedAt
      ensures s.pending == WithRun(old(s.pending), finished)
      ensures s.committed == old(s.committed) && s.commits == old(s.commits)
    {
      finished := run.(finishedAt := Some(now), messagesFetched := messagesFetched,
                       messagesSaved := messagesSaved, status := status, errorMessage := errorMessage);
      s.pending := WithRun(s.pending, finished);
    }

    /** `ORDER BY id DESC LIMIT 1`: the run with the highest id, if there is any run. */
    static function GetLast(db: Db): (r: Option<JobRun>)
      ensures r.None? <==> db.runs == []
      ensures r.Some? ==> r.value in db.runs && forall k :: 0 <= k < |db.runs| ==> db.runs[k].id <= r.value.id
    {
      LatestRun(db.runs)
    }

    /** The last run and `COALESCE(SUM(messages_fetched), 0)`, `COALESCE(SUM(messages_saved), 0)`. */
    static function GetAggregatedMetrics(db: Db): (r: (Option<JobRun>, nat, nat))
      ensures r.0 == GetLast(db)
      ensures db.runs == [] ==> r.1 == 0 && r.2 == 0
      ensures r.1 == SumFetched(db.runs) && r.2 == SumSaved(db.runs)
    {
      (GetLast(db), SumFetched(db.runs), SumSaved(db.runs))
    }
  }
}
