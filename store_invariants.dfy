/**
 * Which of the table constraints (`ValidDb`) and which part of the store/disk
 * consistency (`BlobsBacked`) each store update keeps, and under what condition.
 * These are the facts the orchestrators and the handlers are proved with.
 */
module StoreInvariants {
  import opened Wrappers
  import opened Seqs
  import opened Models
  import opened StoredNames
  import opened Repositories

  /** Inserting an email with the next id and a `Message-ID` not yet stored keeps every constraint. */
  lemma InsertEmailKeepsValid(db: Db, e: Email)
    requires ValidDb(db) && e.id == db.nextEmailId && e.messageId !in MessageIds(db.emails)
    ensures ValidDb(db.(emails := db.emails + [e], nextEmailId := db.nextEmailId + 1))
    ensures MessageIds(db.emails + [e]) == MessageIds(db.emails) + {e.messageId}
    ensures EmailIds(db.(emails := db.emails + [e])) == EmailIds(db) + {e.id}
  {
    var d := db.(emails := db.emails + [e], nextEmailId := db.nextEmailId + 1);
    forall i | 0 <= i < |db.emails| ensures db.emails[i].messageId != e.messageId {
      assert db.emails[i] in db.emails;
    }
    forall i | 0 <= i < |d.attachments| ensures d.attachments[i].emailId in EmailIds(d) {
      var x := d.attachments[i].emailId;
      assert x in EmailIds(db);
      var f :| f in db.emails && f.id == x;
      assert f in d.emails;
    }
    assert MessageIds(db.emails + [e]) == MessageIds(db.emails) + {e.messageId} by {
      forall m | m in MessageIds(db.emails + [e]) ensures m in MessageIds(db.emails) + {e.messageId} {
        var f :| f in db.emails + [e] && f.messageId == m;
      }
    }
    assert EmailIds(d) == EmailIds(db) + {e.id} by {
      forall x | x in EmailIds(d) ensures x in EmailIds(db) + {e.id} {
        var f :| f in d.emails && f.id == x;
      }
    }
  }

  /**
   * Inserting an attachment with the next id, under the name derived from its ids,
   * for an email of the store, keeps every constraint.
   */
  lemma InsertAttachmentKeepsValid(db: Db, a: Attachment, sep: char)
    requires ValidDb(db) && IsSeparator(sep)
    requires a.id == db.nextAttachmentId && a.emailId in EmailIds(db)
    requires a.filenameStored == StoredName(a.emailId, a.id, sep, a.filenameOriginal)
    ensures ValidDb(db.(attachments := db.attachments + [a], nextAttachmentId := db.nextAttachmentId + 1))
  {
  }

  /** Renaming the newest attachment changes that row only. */
  lemma RenameNewestAttachment(db: Db, a: Attachment, name: string)
    requires AttachmentsKeyed(db) && a.id == db.nextAttachmentId
    ensures WithAttachmentRenamed(db.(attachments := db.attachments + [a], nextAttachmentId := db.nextAttachmentId + 1), a.id, name)
            == db.(attachments := db.attachments + [a.(filenameStored := name)], nextAttachmentId := db.nextAttachmentId + 1)
  {
  }

  /** Deleting the newest attachment leaves the tables as they were before it was inserted. */
  lemma DeleteNewestAttachment(db: Db, a: Attachment)
    requires AttachmentsKeyed(db) && a.id == db.nextAttachmentId
    ensures WithoutAttachment(db.(attachments := db.attachments + [a], nextAttachmentId := db.nextAttachmentId + 1), a.id)
            == db.(nextAttachmentId := db.nextAttachmentId + 1)
  {
    var keep := (x: Attachment) => x.id != a.id;
    FilterSnoc(db.attachments, a, keep);
    FilterKeepsAll(db.attachments, keep);
  }

  /** Deleting an attachment row keeps every constraint, and keeps every remaining row backed. */
  lemma DeleteAttachmentKeepsValid(db: Db, id: nat, files: map<string, Bytes>)
    requires ValidDb(db)
    ensures ValidDb(WithoutAttachment(db, id))
    ensures BlobsBacked(db, files) ==> BlobsBacked(WithoutAttachment(db, id), files)
    ensures forall a :: a in WithoutAttachment(db, id).attachments ==> a in db.attachments && a.id != id
    ensures forall a :: a in db.attachments && a.id != id ==> a in WithoutAttachment(db, id).attachments
  {
    WithoutAttachmentRows(db, id);
    FilterKeepsChain(db.attachments, (x: Attachment) => x.id != id, (x: Attachment, y: Attachment) => x.id < y.id);
  }

  /** The rows left after deleting attachment `id`: exactly the others. */
  lemma WithoutAttachmentRows(db: Db, id: nat)
    ensures forall a :: a in WithoutAttachment(db, id).attachments ==> a in db.attachments && a.id != id
    ensures forall a :: a in db.attachments && a.id != id ==> a in WithoutAttachment(db, id).attachments
  {
    var r := Filter(db.attachments, (x: Attachment) => x.id != id);
    forall a | a in db.attachments && a.id != id ensures a in r {
      var j :| 0 <= j < |db.attachments| && db.attachments[j] == a;
    }
  }

  /** Deleting an email keeps the keys, the uniqueness of `message_id` and the naming scheme. */
  lemma DeleteEmailKeepsKeys(db: Db, id: nat)
    requires ValidDb(db)
    ensures var r := WithoutEmail(db, id);
            EmailsKeyed(r) && MessageIdsUnique(r.emails) && AttachmentsKeyed(r)
            && StoredNamesDerived(r.attachments) && RunsKeyed(r) && FiltersKeyed(r.filters)
  {
    var keepE := (e: Email) => e.id != id;
    var keepA := (a: Attachment) => a.emailId != id;
    FilterKeepsChain(db.emails, keepE, (x: Email, y: Email) => x.id < y.id);
    FilterKeepsChain(db.emails, keepE, (x: Email, y: Email) => x.messageId != y.messageId);
    FilterKeepsChain(db.attachments, keepA, (x: Attachment, y: Attachment) => x.id < y.id);
  }

  /** After the cascade, no email with that id and no attachment of it remains, and every other email does. */
  lemma DeleteEmailCascades(db: Db, id: nat)
    ensures id !in EmailIds(WithoutEmail(db, id))
    ensures forall a :: a in WithoutEmail(db, id).attachments ==> a in db.attachments && a.emailId != id
    ensures forall e :: e in db.emails && e.id != id ==> e in WithoutEmail(db, id).emails
    ensures forall a :: a in db.attachments && a.emailId != id ==> a in WithoutEmail(db, id).attachments
  {
    var r := WithoutEmail(db, id);
    forall e | e in r.emails ensures e.id != id {
      var j :| 0 <= j < |r.emails| && r.emails[j] == e;
    }
    forall e | e in db.emails && e.id != id ensures e in r.emails {
      var j :| 0 <= j < |db.emails| && db.emails[j] == e;
    }
    forall a | a in r.attachments ensures a in db.attachments && a.emailId != id {
      var j :| 0 <= j < |r.attachments| && r.attachments[j] == a;
    }
    forall a | a in db.attachments && a.emailId != id ensures a in r.attachments {
      var j :| 0 <= j < |db.attachments| && db.attachments[j] == a;
    }
  }

  /** Deleting an email keeps every constraint, the foreign key included, and every remaining row backed. */
  lemma DeleteEmailKeepsValid(db: Db, id: nat, files: map<string, Bytes>)
    requires ValidDb(db)
    ensures ValidDb(WithoutEmail(db, id))
    ensures BlobsBacked(db, files) ==> BlobsBacked(WithoutEmail(db, id), files)
  {
    var r := WithoutEmail(db, id);
    DeleteEmailKeepsKeys(db, id);
    DeleteEmailCascades(db, id);
    forall i | 0 <= i < |r.attachments| ensures r.attachments[i].emailId in EmailIds(r) {
      var a := r.attachments[i];
      assert a in r.attachments;
      assert a in db.attachments;
      var j :| 0 <= j < |db.attachments| && db.attachments[j] == a;
      var f :| f in db.emails && f.id == a.emailId;
      assert f in r.emails;
    }
  }

  /** Soft deletion sets `is_deleted` on the one email and changes nothing else. */
  lemma SoftDeleteChangesOnlyTheFlag(db: Db, id: nat)
    ensures var r := WithEmailSoftDeleted(db, id);
            && r.attachments == db.attachments && r.filters == db.filters && r.runs == db.runs
            && r.nextEmailId == db.nextEmailId && r.nextAttachmentId == db.nextAttachmentId && r.nextRunId == db.nextRunId
            && |r.emails| == |db.emails|
            && forall i :: 0 <= i < |db.emails| ==>
                 r.emails[i] == db.emails[i].(isDeleted := db.emails[i].isDeleted || db.emails[i].id == id)
  {
  }

  /** Soft-deleting twice is soft-deleting once. */
  lemma SoftDeleteIdempotent(db: Db, id: nat)
    ensures WithEmailSoftDeleted(WithEmailSoftDeleted(db, id), id) == WithEmailSoftDeleted(db, id)
  {
  }

  /**
   * A soft-deleted email still blocks re-ingestion: the dedup lookup finds exactly
   * the same `Message-ID`s after a soft delete as before.
   */
  lemma SoftDeleteKeepsDedup(db: Db, id: nat, messageId: string)
    ensures MessageIds(WithEmailSoftDeleted(db, id).emails) == MessageIds(db.emails)
    ensures EmailRepository.GetByMessageId(WithEmailSoftDeleted(db, id), messageId).Some?
            == EmailRepository.GetByMessageId(db, messageId).Some?
  {
    var r := WithEmailSoftDeleted(db, id);
    forall m | m in MessageIds(db.emails) ensures m in MessageIds(r.emails) {
      var e :| e in db.emails && e.messageId == m;
      var i :| 0 <= i < |db.emails| && db.emails[i] == e;
      assert r.emails[i].messageId == m;
    }
    forall m | m in MessageIds(r.emails) ensures m in MessageIds(db.emails) {
      var e :| e in r.emails && e.messageId == m;
      var i :| 0 <= i < |r.emails| && r.emails[i] == e;
      assert db.emails[i].messageId == m;
    }
  }

  lemma SoftDeleteKeepsValid(db: Db, id: nat, files: map<string, Bytes>)
    requires ValidDb(db)
    ensures ValidDb(WithEmailSoftDeleted(db, id))
    ensures BlobsBacked(db, files) ==> BlobsBacked(WithEmailSoftDeleted(db, id), files)
  {
    var r := WithEmailSoftDeleted(db, id);
    assert EmailIds(r) == EmailIds(db) by {
      forall x | x in EmailIds(db) ensures x in EmailIds(r) {
        var e :| e in db.emails && e.id == x;
        var i :| 0 <= i < |db.emails| && db.emails[i] == e;
        assert r.emails[i].id == x;
      }
      forall x | x in EmailIds(r) ensures x in EmailIds(db) {
        var e :| e in r.emails && e.id == x;
        var i :| 0 <= i < |r.emails| && r.emails[i] == e;
        assert db.emails[i].id == x;
      }
    }
  }

  /** Finishing the newest run overwrites its row in place. */
  lemma FinishNewestRun(db: Db, run: JobRun, finished: JobRun)
    requires RunsKeyed(db) && run.id == db.nextRunId && finished.id == run.id
    ensures WithRun(db.(runs := db.runs + [run], nextRunId := db.nextRunId + 1), finished)
            == db.(runs := db.runs + [finished], nextRunId := db.nextRunId + 1)
  {
    var d := db.(runs := db.runs + [run], nextRunId := db.nextRunId + 1);
    assert d.runs[|db.runs|].id == run.id;
  }

  /** Re-adding a run that a rollback discarded inserts it again with its id. */
  lemma ReAddDiscardedRun(db: Db, finished: JobRun)
    requires RunsKeyed(db) && finished.id == db.nextRunId
    ensures WithRun(db, finished) == db.(runs := db.runs + [finished], nextRunId := db.nextRunId + 1)
  {
  }

  /** A run with an id above every stored one keeps the run keys valid. */
  lemma InsertRunKeepsValid(db: Db, run: JobRun)
    requires ValidDb(db) && run.id == db.nextRunId
    ensures ValidDb(db.(runs := db.runs + [run], nextRunId := db.nextRunId + 1))
  {
  }

  /** Replacing the filter table by one whose ids and names are those of the old one keeps the constraints. */
  lemma ReplaceFiltersKeepsValid(db: Db, filters: seq<EmailFilter>, files: map<string, Bytes>)
    requires ValidDb(db) && BlobsBacked(db, files) && |filters| == |db.filters|
    requires forall i :: 0 <= i < |filters| ==> filters[i].id == db.filters[i].id && filters[i].name == db.filters[i].name
    ensures ValidDb(db.(filters := filters)) && BlobsBacked(db.(filters := filters), files)
  {
    var r := db.(filters := filters);
    assert FiltersKeyed(r.filters) by {
      forall i, j | 0 <= i < j < |filters| ensures filters[i].id < filters[j].id && filters[i].name != filters[j].name {
        assert db.filters[i].id < db.filters[j].id && db.filters[i].name != db.filters[j].name;
      }
    }
  }

  /** Taking the newest run back out keeps the constraints. */
  lemma DropNewestRunKeepsValid(db: Db, run: JobRun)
    requires run.id == db.nextRunId
    requires ValidDb(db.(runs := db.runs + [run], nextRunId := db.nextRunId + 1))
    ensures ValidDb(db)
  {
    var d := db.(runs := db.runs + [run], nextRunId := db.nextRunId + 1);
    forall i | 0 <= i < |db.runs| ensures db.runs[i].id < db.nextRunId {
      assert d.runs[i].id < d.runs[|db.runs|].id;
    }
    forall i, j | 0 <= i < j < |db.runs| ensures db.runs[i].id < db.runs[j].id {
      assert d.runs[i] == db.runs[i] && d.runs[j] == db.runs[j];
    }
  }

  /** Rows stay backed when a file none of them names is removed. */
  lemma BlobsBackedRemove(db: Db, files: map<string, Bytes>, name: string)
    requires BlobsBacked(db, files)
    requires forall b :: b in db.attachments ==> b.filenameStored != name
    ensures BlobsBacked(db, files - {name})
  {
  }

  /** Rows stay backed when no file they name changes. */
  lemma BlobsBackedFrame(db: Db, files: map<string, Bytes>, files': map<string, Bytes>)
    requires BlobsBacked(db, files)
    requires forall n :: n in StoredNameSet(db) ==> n in files' && files'[n] == files[n]
    ensures BlobsBacked(db, files')
  {
    forall a | a in db.attachments
      ensures a.filenameStored in files' && a.sizeBytes == Some(|files'[a.filenameStored]|)
    {
      assert a.filenameStored in StoredNameSet(db);
    }
  }

  /** A new row is backed by the file that was just written under its name. */
  lemma BlobsBackedInsert(db: Db, a: Attachment, files: map<string, Bytes>)
    requires BlobsBacked(db, files)
    requires a.filenameStored in files && a.sizeBytes == Some(|files[a.filenameStored]|)
    ensures BlobsBacked(db.(attachments := db.attachments + [a], nextAttachmentId := db.nextAttachmentId + 1), files)
  {
  }

  /** `total_messages_saved` grows by exactly the saved count of a run appended to the history. */
  lemma {:induction false} SumsAppend(runs: seq<JobRun>, run: JobRun)
    ensures SumFetched(runs + [run]) == SumFetched(runs) + run.messagesFetched
    ensures SumSaved(runs + [run]) == SumSaved(runs) + run.messagesSaved
    decreases |runs|
  {
    if runs == [] {
      assert [run][1..] == [];
    } else {
      assert (runs + [run])[1..] == runs[1..] + [run];
      SumsAppend(runs[1..], run);
    }
  }

  /** With ids increasing along the table, the last run is the most recently created one. */
  lemma LastRunIsNewest(db: Db)
    requires RunsKeyed(db) && db.runs != []
    ensures JobRunRepository.GetLast(db) == Some(db.runs[|db.runs| - 1])
  {
    var r := JobRunRepository.GetLast(db);
    var last := |db.runs| - 1;
    forall k | 0 <= k < last ensures db.runs[k] != r.value {
      assert db.runs[k].id < db.runs[last].id <= r.value.id;
    }
  }
}
