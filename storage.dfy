/**
 * The two stores the ingestion jobs and the API write to.
 *
 * `Session` is a database session: `committed` is the durable state every other
 * session sees, `pending` the state this session sees, its own uncommitted (flushed)
 * writes included.  `Commit` publishes `pending`; `Rollback` discards it, and so does
 * closing the session.
 *
 * `BlobStore` is the attachments folder: a map from file name to contents.  Whether
 * a write succeeds is up to the environment, given as a script of outcomes that the
 * writes consume in order (an exhausted script means every further write succeeds);
 * a failed write may leave nothing or a truncated file behind.  Removing a file fails
 * for the names in `undeletable`.
 */
module Storage {
  import opened Wrappers
  import opened Models

  class Session {
    var committed: Db
    var pending: Db
    /** Every state this session has published, oldest first. */
    ghost var commits: seq<Db>

    /** A fresh session on the store `db`: nothing pending. */
    constructor (db: Db)
      ensures committed == db && pending == db && commits == []
    {
      committed := db;
      pending := db;
      commits := [];
    }

    method Commit()
      modifies this
      ensures committed == old(pending) && pending == old(pending)
      ensures commits == old(commits) + [old(pending)]
    {
      committed := pending;
      commits := commits + [pending];
    }

    /** Discards the pending writes; also what closing the session does to them. */
    method Rollback()
      modifies this
      ensures committed == old(committed) && pending == old(committed)
      ensures commits == old(commits)
    {
      pending := committed;
    }
  }

  /** How the environment lets one file write end. */
  datatype WriteOutcome =
    | WriteOk
    | WriteFails(written: Option<nat>, cause: string)  // bytes left on disk, if the file was opened

  /** The folder after writing `data` to `name` with the given outcome. */
  function AfterWrite(files: map<string, Bytes>, name: string, data: Bytes, outcome: WriteOutcome): (r: map<string, Bytes>)
    ensures r.Keys <= files.Keys + {name}
    ensures forall n :: n in files && n != name ==> n in r && r[n] == files[n]
    ensures outcome.WriteOk? ==> name in r && r[name] == data
  {
    match outcome
    case WriteOk => files[name := data]
    case WriteFails(None, _) => files
    case WriteFails(Some(k), _) => files[name := data[..if k < |data| then k else |data|]]
  }

  /** The outcome of the next write; an exhausted script lets every write succeed. */
  function NextOutcome(script: seq<WriteOutcome>): WriteOutcome {
    if script == [] then WriteOk else script[0]
  }

  /** The outcomes left after one write. */
  function RestScript(script: seq<WriteOutcome>): seq<WriteOutcome> {
    if script == [] then [] else script[1..]
  }

  /** The outcome of write number `k` (counting from 0). */
  function OutcomeAt(script: seq<WriteOutcome>, k: nat): WriteOutcome {
    if k < |script| then script[k] else WriteOk
  }

  /** The outcomes left after `n` writes: write `k` of them is write `n + k` of `script`. */
  function Consumed(script: seq<WriteOutcome>, n: nat): (r: seq<WriteOutcome>)
    ensures forall k: nat :: OutcomeAt(r, k) == OutcomeAt(script, n + k)
  {
    if n <= |script| then script[n..] else []
  }

  /** Writes `lo` up to (not including) `hi` of `script` all succeed. */
  ghost predicate WritesSucceed(script: seq<WriteOutcome>, lo: nat, hi: nat) {
    forall k: nat :: lo <= k < hi ==> OutcomeAt(script, k).WriteOk?
  }

  /** After `n` writes, the next one has outcome `n`, and it leaves the outcomes after `n + 1` writes. */
  lemma ConsumeOne(script: seq<WriteOutcome>, n: nat)
    ensures NextOutcome(Consumed(script, n)) == OutcomeAt(script, n)
    ensures RestScript(Consumed(script, n)) == Consumed(script, n + 1)
  {
    if n + 1 <= |script| {
      assert script[n..][1..] == script[n + 1..];
    }
  }

  /** `n` writes and then `m` more consume as many outcomes as `n + m` writes, and succeed when both parts do. */
  lemma ConsumedTwice(script: seq<WriteOutcome>, n: nat, m: nat)
    ensures Consumed(Consumed(script, n), m) == Consumed(script, n + m)
    ensures WritesSucceed(script, 0, n) && WritesSucceed(Consumed(script, n), 0, m) ==> WritesSucceed(script, 0, n + m)
  {
    var r := Consumed(script, n);
    if n + m <= |script| {
      assert r[m..] == script[n + m..];
    }
    if WritesSucceed(script, 0, n) && WritesSucceed(r, 0, m) {
      forall k: nat | 0 <= k < n + m ensures OutcomeAt(script, k).WriteOk? {
        if k >= n {
          assert OutcomeAt(r, k - n) == OutcomeAt(script, k);
        }
      }
    }
  }

  class BlobStore {
    var files: map<string, Bytes>
    var writeScript: seq<WriteOutcome>
    var undeletable: set<string>

    constructor (files: map<string, Bytes>, writeScript: seq<WriteOutcome>, undeletable: set<string>)
      ensures this.files == files && this.writeScript == writeScript && this.undeletable == undeletable
    {
      this.files := files;
      this.writeScript := writeScript;
      this.undeletable := undeletable;
    }

    /** The outcome the next write will have. */
    function NextWrite(): WriteOutcome
      reads this
    {
      NextOutcome(writeScript)
    }

    /** `open(name, "wb").write(data)`: `ok` tells whether it raised nothing. */
    method Write(name: string, data: Bytes) returns (ok: bool, cause: string)
      modifies this
      ensures files == AfterWrite(old(files), name, data, old(NextWrite()))
      ensures writeScript == if old(writeScript) == [] then [] else old(writeScript)[1..]
      ensures undeletable == old(undeletable)
      ensures ok <==> old(NextWrite()).WriteOk?
      ensures !ok ==> cause == old(NextWrite()).cause
    {
      var outcome := NextWrite();
      files := AfterWrite(files, name, data, outcome);
      if writeScript != [] {
        writeScript := writeScript[1..];
      }
      ok := outcome.WriteOk?;
      cause := if ok then "" else outcome.cause;
    }

    /** `if os.path.exists(name): os.remove(name)`: `ok` is false when the removal raised. */
    method Remove(name: string) returns (ok: bool)
      modifies this
      ensures ok <==> name !in old(files) || name !in undeletable
      ensures files == if ok then old(files) - {name} else old(files)
      ensures writeScript == old(writeScript) && undeletable == old(undeletable)
    {
      ok := name !in files || name !in undeletable;
      if ok {
        files := files - {name};
      }
    }
  }
}
