/**
 * The scheduler lifecycle of `scheduler.py`: the module-level `_scheduler`, which
 * `start_scheduler` fills (unless it is already set) with a new running scheduler
 * holding one interval job, and `shutdown_scheduler` empties; and `_run_email_job`,
 * the job itself, which runs the scheduled fetch on a new session, swallows what
 * it raises and closes the session.
 *
 * The timing of the interval trigger is not modelled: the job is run by calling it.
 */
module Scheduler {
  import opened Wrappers
  import opened Models
  import opened Storage
  import opened ImapSearch
  import opened EmailFetchService

  /** A job registered with `add_job(trigger="interval", ...)`. */
  datatype IntervalJob = IntervalJob(id: string, minutes: nat)

  /** An `AsyncIOScheduler`: which instance it is (the n-th one constructed), its jobs and whether it runs. */
  datatype AsyncScheduler = AsyncScheduler(instance: nat, jobs: seq<IntervalJob>, running: bool)

  /** The fetch job: every 15 minutes, under the id "email_fetch_job". */
  const EmailFetchJob: IntervalJob := IntervalJob("email_fetch_job", 15)

  /** `add_job(..., replace_existing=True)`: a job with the same id is replaced, otherwise the job is appended. */
  function AddJob(jobs: seq<IntervalJob>, job: IntervalJob): (r: seq<IntervalJob>)
    ensures job in r
    ensures forall k :: 0 <= k < |jobs| && jobs[k].id != job.id ==> jobs[k] in r
    ensures forall x :: x in r ==> x == job || x in jobs
    decreases |jobs|
  {
    if jobs == [] then [job]
    else if jobs[0].id == job.id then [job] + jobs[1..]
    else
      var rest := AddJob(jobs[1..], job);
      assert forall k :: 1 <= k < |jobs| ==> jobs[k] == jobs[1..][k - 1];
      [jobs[0]] + rest
  }

  /** The state of the module: `_scheduler` and how many schedulers have been constructed so far. */
  datatype Lifecycle = Lifecycle(current: Option<AsyncScheduler>, constructed: nat)

  /** `start_scheduler` on the state `st`. */
  function Start(st: Lifecycle): (r: Lifecycle)
    ensures st.current.Some? ==> r == st
    ensures st.current.None? ==>
              && r.constructed == st.constructed + 1
              && r.current == Some(AsyncScheduler(st.constructed, [EmailFetchJob], true))
  {
    if st.current.Some? then st
    else
      var created := AsyncScheduler(st.constructed, [], false);
      var withJob := created.(jobs := AddJob(created.jobs, EmailFetchJob));
      Lifecycle(Some(withJob.(running := true)), st.constructed + 1)
  }

  /** `shutdown_scheduler` on the state `st`. */
  function Shutdown(st: Lifecycle): (r: Lifecycle)
    ensures r.current.None? && r.constructed == st.constructed
  {
    if st.current.Some? then Lifecycle(None, st.constructed) else st
  }

  /** Starting twice is starting once. */
  lemma StartIdempotent(st: Lifecycle)
    ensures Start(Start(st)) == Start(st)
  {
  }

  /** Shutting down twice is shutting down once; shutting down a stopped module changes nothing. */
  lemma ShutdownIdempotent(st: Lifecycle)
    ensures Shutdown(Shutdown(st)) == Shutdown(st)
    ensures st.current.None? ==> Shutdown(st) == st
  {
  }

  /** A start after a shutdown constructs a new scheduler, never the one that was shut down. */
  lemma RestartIsFresh(st: Lifecycle)
    requires st.current.Some? ==> st.current.value.instance < st.constructed
    ensures Start(Shutdown(Start(st))).current.Some?
    ensures Start(st).current.value.instance != Start(Shutdown(Start(st))).current.value.instance
    ensures Start(Shutdown(Start(st))).current.value.jobs == [EmailFetchJob]
  {
  }

  /** Every scheduler the module holds runs exactly the fetch job and is one already constructed. */
  ghost predicate WellFormed(st: Lifecycle) {
    st.current.Some? ==>
      && st.current.value.running && st.current.value.jobs == [EmailFetchJob]
      && st.current.value.instance < st.constructed
  }

  lemma LifecycleKeepsWellFormed(st: Lifecycle)
    requires WellFormed(st)
    ensures WellFormed(Start(st)) && WellFormed(Shutdown(st))
  {
  }

  /** The module `scheduler.py`, whose global `_scheduler` the two functions reassign. */
  class SchedulerModule {
    var scheduler: Option<AsyncScheduler>
    var constructed: nat

    function State(): Lifecycle
      reads this
    {
      Lifecycle(scheduler, constructed)
    }

    /** The module as imported: no scheduler. */
    constructor ()
      ensures State() == Lifecycle(None, 0) && WellFormed(State())
    {
      scheduler := None;
      constructed := 0;
    }

    method StartScheduler()
      modifies this
      ensures State() == Start(old(State()))
    {
      if scheduler.Some? {
        return;
      }
      var created := AsyncScheduler(constructed, [], false);
      constructed := constructed + 1;
      created := created.(jobs := AddJob(created.jobs, EmailFetchJob));
      created := created.(running := true);
      scheduler := Some(created);
    }

    method ShutdownScheduler()
      modifies this
      ensures State() == Shutdown(old(State()))
    {
      if scheduler.Some? {
        scheduler := None;
      }
    }
  }

  /**
   * `_run_email_job` on the store `db`: a new session, the scheduled fetch without
   * dynamic filters, an exception that escapes it only logged, and the session
   * closed, which discards whatever it left pending.  The result is the store
   * afterwards.  When opening the connection raised, nothing at all remains of the
   * call, not even the run row; otherwise the single search is for UNSEEN messages.
   */
  method RunEmailJob(db: Db, blobs: BlobStore, conn: Connection, now: Timestamp) returns (after: Db, commands: seq<ImapCommand>)
    requires ValidDb(db) && BlobsBacked(db, blobs.files)
    modifies blobs
    ensures blobs.undeletable == old(blobs.undeletable)
    ensures ValidDb(after) && BlobsBacked(after, blobs.files)
    ensures conn.OpenRaised? ==>
              after == db && commands == [] && blobs.files == old(blobs.files) && blobs.writeScript == old(blobs.writeScript)
    ensures conn.Opened? ==>
              && SafelyFinished(db, old(blobs.files), after, blobs.files)
              && MailboxOutcome(db, old(blobs.files), old(blobs.writeScript), conn.box, None, now,
                                after, blobs.files, blobs.writeScript, commands)
              && |commands| >= 3 && commands[0] == Select("INBOX") && commands[|commands| - 2..] == [Close, Logout]
    ensures conn.Opened? && conn.box.select == Answered("OK") ==> |commands| >= 4 && commands[1] == Search(["UNSEEN"])
  {
    UnseenSearch();
    var s := new Session(db);
    var raised;
    raised, commands := FetchAndStoreEmails(s, blobs, conn, None, now);
    if conn.Opened? {
      MailboxCommands(db, old(blobs.files), old(blobs.writeScript), conn.box, None, now,
                      s.committed, blobs.files, blobs.writeScript, commands);
    }
    // An exception that escapes the fetch is logged and goes no further.
    after := s.committed;
    s.Rollback();
  }

  /** With no dynamic filters the search is for UNSEEN messages, as one argument. */
  lemma UnseenSearch()
    ensures SearchCommand(None) == Search(["UNSEEN"])
  {
    KeyNamesHaveNoSpace();
    WordsOfWord("UNSEEN");
  }
}
