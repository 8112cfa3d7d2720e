/**
 * The HTTP handlers of `main.py` that hold logic: the checks and page flags of the
 * email listing, the two deletes, the attachment download with its fallbacks, the
 * partial filter update and the manual job trigger.  Each handler gets a fresh
 * session (nothing pending) on the store; a handler that raises `HTTPException`
 * returns the status code and detail it raises with.
 */
module Api {
  import opened Wrappers
  import opened Seqs
  import opened Text
  import opened Models
  import opened Storage
  import opened Pagination
  import opened Repositories
  import opened StoreInvariants
  import opened Services

  datatype HttpError = HttpError(statusCode: nat, detail: string)

  /** What a handler answers: a body, or the `HTTPException` it raised. */
  datatype Response<T> = Ok(value: T) | Failed(error: HttpError)

  const PageArgumentsError: HttpError := HttpError(400, "page e page_size devem ser >= 1")
  const EmailNotFound: HttpError := HttpError(404, "Email não encontrado")
  const AttachmentNotFound: HttpError := HttpError(404, "Anexo não encontrado")
  const FileNotFound: HttpError := HttpError(404, "Arquivo de anexo não encontrado em disco")
  const FilterNotFound: HttpError := HttpError(404, "Filtro não encontrado")

  // ---------------- GET /emails ----------------

  datatype PaginatedEmails = PaginatedEmails(
    items: seq<Email>, total: nat, page: int, pageSize: int, hasNext: bool, hasPrevious: bool)

  /** `list_emails`: the page arguments are checked before any query. */
  function ListEmails(db: Db, page: int, pageSize: int, q: EmailQuery): (r: Response<PaginatedEmails>)
    ensures r.Failed? <==> page < 1 || pageSize < 1
    ensures r.Failed? ==> r.error == PageArgumentsError
    ensures r.Ok? ==>
              && r.value.page == page && r.value.pageSize == pageSize
              && r.value.total == |Matching(db, q)|
              && r.value.items == EmailRepository.GetPaginated(db, page, pageSize, q).0
              && (r.value.hasPrevious <==> page > 1)
              && (r.value.hasNext <==> page * pageSize < r.value.total)
  {
    if page < 1 || pageSize < 1 then Failed(PageArgumentsError)
    else
      var (items, total) := EmailRepository.GetPaginated(db, page, pageSize, q);
      Ok(PaginatedEmails(items, total, page, pageSize, page * pageSize < total, page > 1))
  }

  /** `has_next` holds exactly when the next page has an email on it. */
  lemma HasNextIffNextPageNonEmpty(db: Db, page: int, pageSize: int, q: EmailQuery)
    requires page >= 1 && pageSize >= 1
    ensures ListEmails(db, page, pageSize, q).value.hasNext
            <==> EmailRepository.GetPaginated(db, page + 1, pageSize, q).0 != []
  {
    ListingIsOrderedMatches(db, q);
    var listing := Listing(db, q);
    var next := Window(listing, page * pageSize, pageSize);
    assert EmailRepository.GetPaginated(db, page + 1, pageSize, q).0 == next;
    if page * pageSize < |listing| {
      assert |next| > 0;
    } else {
      assert |next| == 0;
    }
  }

  /** `has_previous` holds exactly when there is a page before this one that the listing accepts. */
  lemma HasPreviousIffPreviousPageValid(db: Db, page: int, pageSize: int, q: EmailQuery)
    requires page >= 1 && pageSize >= 1
    ensures ListEmails(db, page, pageSize, q).value.hasPrevious <==> ListEmails(db, page - 1, pageSize, q).Ok?
  {
  }

  /** Every page before the last non-empty one is full. */
  lemma PagesBeforeNextAreFull(db: Db, page: int, pageSize: int, q: EmailQuery)
    requires page >= 1 && pageSize >= 1
    requires ListEmails(db, page, pageSize, q).value.hasNext
    ensures |ListEmails(db, page, pageSize, q).value.items| == pageSize
  {
    ListingIsOrderedMatches(db, q);
  }

  // ---------------- DELETE /emails/{id} ----------------

  /** `delete_email`: 404 for an unknown id; otherwise a hard delete (with its attachments) or a soft delete, committed. */
  method DeleteEmail(s: Session, emailId: int, hardDelete: bool) returns (r: Option<HttpError>)
    requires s.pending == s.committed
    modifies s
    ensures r.Some? <==> emailId < 0 || emailId !in EmailIds(old(s.committed))
    ensures r.Some? ==> r.value == EmailNotFound && s.committed == old(s.committed) && s.commits == old(s.commits)
    ensures r.None? ==>
              && s.commits == old(s.commits) + [s.committed] && s.pending == s.committed
              && s.committed == if hardDelete then WithoutEmail(old(s.committed), emailId)
                                else WithEmailSoftDeleted(old(s.committed), emailId)
  {
    if emailId < 0 || EmailRepository.GetById(s.pending, emailId).None? {
      return Some(EmailNotFound);
    }
    if hardDelete {
      EmailRepository.HardDelete(s, emailId);
    } else {
      EmailRepository.SoftDelete(s, emailId);
    }
    s.Commit();
    r := None;
  }

  /** Either delete keeps the store consistent and backed by the folder. */
  lemma DeleteEmailKeepsStore(db: Db, files: map<string, Bytes>, emailId: nat, hardDelete: bool)
    requires ValidDb(db) && BlobsBacked(db, files)
    ensures var r := if hardDelete then WithoutEmail(db, emailId) else WithEmailSoftDeleted(db, emailId);
            ValidDb(r) && BlobsBacked(r, files)
  {
    if hardDelete {
      DeleteEmailKeepsValid(db, emailId, files);
    } else {
      SoftDeleteKeepsValid(db, emailId, files);
    }
  }

  // ---------------- GET /attachments/{id}/download ----------------

  /** A `FileResponse`: the file, its media type and the name it is downloaded under. */
  datatype Download = Download(storedName: string, content: Bytes, mediaType: string, filename: string)

  /**
   * `download_attachment`: 404 for an unknown row or a missing file; an empty
   * original name downloads as "attachment", an empty or missing media type as
   * "application/octet-stream".
   */
  function DownloadAttachment(db: Db, files: map<string, Bytes>, attachmentId: int): (r: Response<Download>)
    ensures attachmentId < 0 || AttachmentRepository.GetById(db, attachmentId).None? ==> r == Failed(AttachmentNotFound)
    ensures attachmentId >= 0 && AttachmentRepository.GetById(db, attachmentId).Some? ==>
              var a := AttachmentRepository.GetById(db, attachmentId).value;
              && (a.filenameStored !in files ==> r == Failed(FileNotFound))
              && (a.filenameStored in files ==>
                    && r.Ok? && r.value.storedName == a.filenameStored && r.value.content == files[a.filenameStored]
                    && r.value.filename == (if a.filenameOriginal == "" then "attachment" else a.filenameOriginal)
                    && r.value.mediaType == (if !Truthy(a.mimeType) then "application/octet-stream" else a.mimeType.value))
  {
    if attachmentId < 0 then Failed(AttachmentNotFound)
    else match AttachmentRepository.GetById(db, attachmentId)
      case None => Failed(AttachmentNotFound)
      case Some(a) =>
        if a.filenameStored !in files then Failed(FileNotFound)
        else Ok(Download(a.filenameStored, files[a.filenameStored],
                         if Truthy(a.mimeType) then a.mimeType.value else "application/octet-stream",
                         if a.filenameOriginal == "" then "attachment" else a.filenameOriginal))
  }

  /** With every row backed by its file, every stored attachment downloads, with as many bytes as its row records. */
  lemma BackedAttachmentsDownload(db: Db, files: map<string, Bytes>, attachmentId: nat)
    requires BlobsBacked(db, files)
    requires AttachmentRepository.GetById(db, attachmentId).Some?
    ensures DownloadAttachment(db, files, attachmentId).Ok?
    ensures Some(|DownloadAttachment(db, files, attachmentId).value.content|)
            == AttachmentRepository.GetById(db, attachmentId).value.sizeBytes
  {
    var a := AttachmentRepository.GetById(db, attachmentId).value;
    assert a in db.attachments;
  }

  // ---------------- DELETE /attachments/{id} ----------------

  /**
   * `delete_attachment`: 404 for an unknown id; otherwise the row is deleted and
   * committed first, then the file is removed if it exists, and a failing removal
   * is ignored.
   */
  method DeleteAttachment(s: Session, blobs: BlobStore, attachmentId: int) returns (r: Option<HttpError>)
    requires s.pending == s.committed
    modifies s, blobs
    ensures blobs.writeScript == old(blobs.writeScript) && blobs.undeletable == old(blobs.undeletable)
    ensures r.Some? <==> attachmentId < 0 || AttachmentRepository.GetById(old(s.committed), attachmentId).None?
    ensures r.Some? ==>
              && r.value == AttachmentNotFound && s.committed == old(s.committed) && s.commits == old(s.commits)
              && blobs.files == old(blobs.files)
    ensures r.None? ==>
              var name := AttachmentRepository.GetById(old(s.committed), attachmentId).value.filenameStored;
              && s.committed == WithoutAttachment(old(s.committed), attachmentId)
              && s.commits == old(s.commits) + [s.committed] && s.pending == s.committed
              && (blobs.files == old(blobs.files) - {name}
                  || (name in old(blobs.undeletable) && blobs.files == old(blobs.files)))
  {
    if attachmentId < 0 {
      return Some(AttachmentNotFound);
    }
    var found := AttachmentRepository.GetById(s.pending, attachmentId);
    if found.None? {
      return Some(AttachmentNotFound);
    }
    var name := found.value.filenameStored;
    AttachmentRepository.Delete(s, attachmentId);
    s.Commit();
    var removed := blobs.Remove(name);
    // A failed removal is not reported.
    r := None;
  }

  /**
   * Deleting an attachment and then its file, or failing to remove the file, keeps
   * the store consistent and every remaining row backed: no other row names that file.
   */
  lemma DeleteAttachmentKeepsStore(db: Db, files: map<string, Bytes>, attachmentId: nat)
    requires ValidDb(db) && BlobsBacked(db, files)
    requires AttachmentRepository.GetById(db, attachmentId).Some?
    ensures var name := AttachmentRepository.GetById(db, attachmentId).value.filenameStored;
            var r := WithoutAttachment(db, attachmentId);
            ValidDb(r) && BlobsBacked(r, files) && BlobsBacked(r, files - {name})
  {
    var a := AttachmentRepository.GetById(db, attachmentId).value;
    var r := WithoutAttachment(db, attachmentId);
    DeleteAttachmentKeepsValid(db, attachmentId, files);
    ValidDbStoredNamesUnique(db);
    forall b | b in r.attachments ensures b.filenameStored != a.filenameStored {
      var i :| 0 <= i < |db.attachments| && db.attachments[i] == a;
      var j :| 0 <= j < |db.attachments| && db.attachments[j] == b;
      assert i != j;
    }
    BlobsBackedRemove(r, files, a.filenameStored);
  }

  // ---------------- PUT /filters/{id} ----------------

  /** The body of the update: a field left out is `None`. */
  datatype FilterUpdate = FilterUpdate(
    fromAddress: Option<string>, subjectContains: Option<string>, bodyContains: Option<string>, enabled: Option<bool>)

  /** The filter after the update: each field given overwrites, every other field and the name stay. */
  function ApplyUpdate(f: EmailFilter, u: FilterUpdate): (r: EmailFilter)
    ensures r.id == f.id && r.name == f.name && r.createdAt == f.createdAt
    ensures r.fromAddress == if u.fromAddress.Some? then u.fromAddress else f.fromAddress
    ensures r.subjectContains == if u.subjectContains.Some? then u.subjectContains else f.subjectContains
    ensures r.bodyContains == if u.bodyContains.Some? then u.bodyContains else f.bodyContains
    ensures r.enabled == if u.enabled.Some? then u.enabled.value else f.enabled
  {
    var f1 := if u.fromAddress.Some? then f.(fromAddress := u.fromAddress) else f;
    var f2 := if u.subjectContains.Some? then f1.(subjectContains := u.subjectContains) else f1;
    var f3 := if u.bodyContains.Some? then f2.(bodyContains := u.bodyContains) else f2;
    if u.enabled.Some? then f3.(enabled := u.enabled.value) else f3
  }

  /** Applying the same update twice is applying it once; an empty update changes nothing. */
  lemma ApplyUpdateIdempotent(f: EmailFilter, u: FilterUpdate)
    ensures ApplyUpdate(ApplyUpdate(f, u), u) == ApplyUpdate(f, u)
    ensures u == FilterUpdate(None, None, None, None) ==> ApplyUpdate(f, u) == f
  {
  }

  /** The filter row with the id of `f` overwritten by `f`. */
  function WithFilter(db: Db, f: EmailFilter): Db {
    db.(filters := seq(|db.filters|, i requires 0 <= i < |db.filters| => if db.filters[i].id == f.id then f else db.filters[i]))
  }

  /** `update_filter`: 404 for an unknown id; otherwise the updated row, committed. */
  method UpdateFilter(s: Session, filterId: int, u: FilterUpdate) returns (r: Response<EmailFilter>)
    requires s.pending == s.committed
    modifies s
    ensures r.Failed? <==> filterId < 0 || EmailFilterRepository.GetById(old(s.committed), filterId).None?
    ensures r.Failed? ==> r.error == FilterNotFound && s.committed == old(s.committed) && s.commits == old(s.commits)
    ensures r.Ok? ==>
              && r.value == ApplyUpdate(EmailFilterRepository.GetById(old(s.committed), filterId).value, u)
              && s.committed == WithFilter(old(s.committed), r.value)
              && s.commits == old(s.commits) + [s.committed] && s.pending == s.committed
  {
    if filterId < 0 {
      return Failed(FilterNotFound);
    }
    var found := EmailFilterRepository.GetById(s.pending, filterId);
    if found.None? {
      return Failed(FilterNotFound);
    }
    var filt := found.value;
    if u.fromAddress.Some? {
      filt := filt.(fromAddress := u.fromAddress);
    }
    if u.subjectContains.Some? {
      filt := filt.(subjectContains := u.subjectContains);
    }
    if u.bodyContains.Some? {
      filt := filt.(bodyContains := u.bodyContains);
    }
    if u.enabled.Some? {
      filt := filt.(enabled := u.enabled.value);
    }
    s.pending := WithFilter(s.pending, filt);
    s.Commit();
    r := Ok(filt);
  }

  /** The update keeps every filter's id and name, and so keeps the constraints. */
  lemma UpdateFilterKeepsStore(db: Db, files: map<string, Bytes>, filterId: nat, u: FilterUpdate)
    requires ValidDb(db) && BlobsBacked(db, files)
    requires EmailFilterRepository.GetById(db, filterId).Some?
    ensures var r := WithFilter(db, ApplyUpdate(EmailFilterRepository.GetById(db, filterId).value, u));
            ValidDb(r) && BlobsBacked(r, files)
  {
    var f := ApplyUpdate(EmailFilterRepository.GetById(db, filterId).value, u);
    var r := WithFilter(db, f);
    assert forall i :: 0 <= i < |r.filters| ==> r.filters[i].id == db.filters[i].id && r.filters[i].name == db.filters[i].name;
    ReplaceFiltersKeepsValid(db, r.filters, files);
  }

  /** The update touches only the filter it names, and the updated filter is in the table. */
  lemma UpdateFilterTouchesOnlyIt(db: Db, filterId: nat, u: FilterUpdate)
    requires EmailFilterRepository.GetById(db, filterId).Some?
    ensures var f := ApplyUpdate(EmailFilterRepository.GetById(db, filterId).value, u);
            var r := WithFilter(db, f);
            && (forall i :: 0 <= i < |db.filters| && db.filters[i].id != filterId ==> r.filters[i] == db.filters[i])
            && f in r.filters
  {
    var old_f := EmailFilterRepository.GetById(db, filterId).value;
    var r := WithFilter(db, ApplyUpdate(old_f, u));
    var i :| 0 <= i < |db.filters| && db.filters[i] == old_f;
    assert r.filters[i] == ApplyUpdate(old_f, u);
  }

  // ---------------- POST /job/trigger ----------------

  datatype TriggerJobResponse = TriggerJobResponse(jobRunId: nat, status: RunStatus, startedAt: Timestamp)

  /** `trigger_job`: the manual run, answered with the run's id, status and start time. */
  method TriggerJob(s: Session, blobs: BlobStore, source: Source, now: Timestamp) returns (r: TriggerJobResponse)
    requires s.pending == s.committed && ValidDb(s.committed) && BlobsBacked(s.committed, blobs.files)
    modifies s, blobs
    ensures r.jobRunId == old(s.committed.nextRunId) && r.startedAt == now
    ensures r.status == Success || r.status == Error
    ensures exists run :: run in s.committed.runs && run.id == r.jobRunId && run.status == r.status && run.startedAt == now
    ensures exists run: JobRun :: run.id == r.jobRunId && run.status == r.status
                          && JobEnded(old(s.committed), old(blobs.files), old(blobs.writeScript), source, now, run,
                                      s.committed, blobs.files, blobs.writeScript)
    ensures ValidDb(s.committed) && BlobsBacked(s.committed, blobs.files)
  {
    var run := RunEmailCheckJob(s, blobs, source, now);
    assert run in s.committed.runs;
    r := TriggerJobResponse(run.id, run.status, run.startedAt);
  }
}
