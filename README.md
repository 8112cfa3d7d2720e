# E-mail ingestion job — a verified Dafny model

This project models the core of an e-mail ingestion service. The service reads
unseen messages from an IMAP mailbox, skips the ones it has already stored (it
matches them by `Message-ID`), and stores each new message in a SQL record store.
Each attachment goes into an attachments folder under a derived, unique file
name. Every ingestion run is recorded as a job run.

The model covers these parts:

- **The filter engine** (`services.apply_filters_to_email`), in `filters.dfy`. A rule
  matches when every field it configures occurs in the message, ignoring case. A
  message is accepted when some enabled, configured rule matches it, or when there
  are no rules at all.
- **The manual check** (`services.run_email_check_job` and
  `_save_attachment_with_rollback`), in `services.dfy`. It applies the enabled filter
  rules. It commits once, after the whole walk over the messages. If one attachment
  file write fails, the whole run is rolled back and finished as `error`.
- **The scheduled fetch** (`EmailFetchService.fetch_and_store_emails` and
  `_build_search_criteria`), in `email_fetch_service.dfy` and `imap_search.dfy`. It
  never consults the rules. A failed attachment write deletes only that attachment's
  row, and the run goes on.
- **The repositories** (`repositories.py`), in `repositories.dfy` and
  `pagination.dfy`. Queries are functions of a store state. Row writes are methods on
  a `Session`.
- **The tables and their constraints** (`models.py`), in `models.dfy`. The facts about
  which update keeps which constraint are in `store_invariants.dfy`.
- **The scheduler lifecycle** (`scheduler.py`), in `scheduler.dfy`.
- **The HTTP handlers that hold logic** (`main.py`), in `api.dfy`.

Shared modules:

- `wrappers.dfy` holds `Option`.
- `text.dfy` holds ASCII lower-casing and substring search.
- `seqs.dfy` holds find and filter over sequences.
- `dedup.dfy` holds the deduplication gate, `NewIds`/`Accepted`, which both
  orchestrators are proved against.
- `stored_names.dfy` holds the stored-name scheme `ID%08d-%08d<sep><name>` and the
  proof that it is injective.
- `storage.dfy` holds the database `Session` and the `BlobStore` (the attachments
  folder).

The database session is a class with two fields. `committed` is the state every
other session sees. `pending` is the state this session sees, including its own
flushed, uncommitted rows. `Commit` publishes `pending`, and `Rollback` discards
it. The id counters live inside the store value, so a rollback also takes back the
ids it handed out. The attachments folder is a map from file name to bytes. The
environment decides whether each file write succeeds: a script of outcomes is
consumed one per write. A failed write may leave nothing or a truncated file
behind. A removal fails for the names listed in `undeletable`.

Both orchestrators are proved against reference definitions. For the manual check,
a successful run commits exactly
`Ingested(store, Accepted(messages, IngestKey(rules), known ids))` plus the
finished run. The new rows' files hold their contents, and no other file changes. A
run fails exactly when one of the writes for those messages' attachments fails. The
error is the first failing write's, and a failed run commits only the finished run.
For the scheduled fetch, the committed
store is the fold `StoreAll` over the accepted messages, or only the finished run
when the walk raised.

The manual check's postcondition also proves these facts:

- Every committed end keeps all table constraints.
- Every attachment row's file exists and holds as many bytes as the row records.
- The files that rows already named are untouched.

## Model

| member | source | states |
|---|---|---|
| `Filters.FiltersAcceptIff` | services.py:26-50 | An email is accepted iff the rule list is empty or some rule is enabled, configures a field, and has every configured field as a case-insensitive substring of the email's field, with a missing field read as "". |
| `Filters.AnyRuleMatchesCharacterized` | services.py:31-50 | The walk over the rules, with its skips and early return, finds a match iff some rule of the list matches (OR across rules). |
| `Filters.ConditionsMeanFields` | services.py:34-47 | `all(conds)` holds iff each configured field is satisfied. An unconfigured field is vacuously true (AND within a rule). |
| `Filters.Conditions` | services.py:34-40 | The condition list has one entry per configured (truthy) field. It is empty iff the rule configures nothing. |
| `Filters.EmptyFiltersAcceptAll` | services.py:28-29 | With no rules, every email is accepted. |
| `Filters.OnlyUnusableFiltersRejectAll` | services.py:31-33 | A non-empty list whose rules are all disabled or configure nothing rejects every email. |
| `Filters.AddingRuleKeepsAccepted` | services.py:31-48 | Adding a rule at either end never rejects an email that a non-empty list accepted. |
| `Filters.FieldMatchIgnoresCase` | services.py:36-40 | A pattern and its lower-cased form match the same fields. |
| `Text.ContainsIffOccurs` | services.py:36 | Python's `needle in hay` holds iff the needle occurs at some offset of the hay. |
| `Dedup.NewIdsBounded` | services.py:72-107 | A walk never stores more messages than it walks, so `saved <= fetched`. |
| `Dedup.NewIdsAreFresh` | services.py:77-78 | Every stored identifier was not in the store before the walk, and none is stored twice. |
| `Dedup.NewIdsComeFromItems` | services.py:72-94 | Every stored identifier is the key of some walked message. |
| `Dedup.NewIdsCoverItems` | services.py:72-107 | Every walked message that has a key ends up stored, either before the walk or by it. |
| `Dedup.IngestTwiceStoresNothing` | services.py:77-78 | Dedup idempotence: walking the same messages again, against the store the first walk produced, stores nothing. |
| `Dedup.AcceptedMatchesNewIds` | services.py:72-107 | The accepted messages are walked messages, and their keys are exactly the stored identifiers, in order. |
| `Services.SuccessfulRunStoresNewAcceptedMessages` | services.py:68-107 | A successful run stores at most as many emails as messages fetched. Each stored email has a non-empty `Message-ID` that was not stored before and is not stored twice, and the enabled rules accepted it. |
| `Services.SecondRunStoresNothing` | services.py:70-94 | A second manual run over the same messages, with the same rules, stores nothing. |
| `Services.DisabledRulesAcceptAll` | services.py:70 | Only enabled rules are applied, so when every rule is disabled, every message with a `Message-ID` passes. |
| `Services.AllRowsIds` | services.py:147 | The attachment rows of a successful run have consecutive ids, and each row's stored name is the one derived from its email id, its own id and its original name with `_`. |
| `Services.SaveAttachmentWithRollback` | services.py:132-171 | A "temp" row is created and renamed to `ID<email>-<att>_<name>` before the write. On success the row is kept and the file holds the content. On failure the session is rolled back to the committed state, the partial file is removed unless it cannot be, and the error names the original file and the cause. |
| `Services.SaveAttachments` | services.py:97-105 | The loop over one email's attachments runs through iff none of its writes fails, and then every attachment has its row and file. Otherwise the first failing write ends it: the session is rolled back and the error names that write's attachment and cause. Exactly the writes made are consumed from the environment's outcomes. Only fresh derived names' files change. |
| `Services.IngestMessage` | services.py:73-107 | A message without a `Message-ID`, with a stored one, or rejected by the rules is skipped, with nothing changed and no write made. Otherwise its email row and attachment rows are the next ones the reference walk adds, and its attachments' writes all succeed. Or the message is one the walk stores, and the error is the first of its writes to fail. |
| `Services.WalkMessages` | services.py:72-107 | The message loop runs through iff none of the writes for the attachments of the messages it stores fails, and commits nothing. Without an exception, the pending store is the reference ingestion and `saved` is the number of new identifiers. With one, the pending store is the committed one. The error then belongs to a new, accepted message holding the first failing write, and `saved` counts the new messages before it. |
| `Services.RunEmailCheckJob` | services.py:54-129 | The run is committed as `running` first. It is then finished and committed on every path. `messages_fetched` is the number of messages. A raising source gives `error` with 0/0 and writes nothing. The run is `success` iff no write for the attachments of the accepted new messages fails, and then exactly those messages and attachments are committed. Otherwise everything of the run is rolled back and the run is `error`. Its text is the first failing write's, in a message the walk stores, and `messages_saved` counts the new messages before it. All constraints and file backing are kept. |
| `Services.FailureWithinRun` | services.py:96-115 | The write a raising walk fails at is one of the writes a walk that runs through makes, so a run cannot both raise and have every one of its writes succeed. |
| `Services.GetJobMetrics` | services.py:185-196 | The metrics report the newest run's start, end, status and error (none when no run exists) and the totals of fetched and saved over all runs. |
| `Services.MetricsAfterRun` | services.py:185-196 | After a run is appended, the metrics report that run, and both totals grow by exactly its counts. |
| `ImapSearch.BuildSearchCriteria` | email_fetch_service.py:29-45 | The search string is `UNSEEN`, followed by ` FROM "s"`, ` SUBJECT "s"` and ` TEXT "k"`, in that order, each only when its value is truthy, whatever the values contain. It is exactly `UNSEEN` when there are no dynamic filters or none of their values is truthy. |
| `ImapSearch.SearchStringClauses` | email_fetch_service.py:31-45 | Joining `UNSEEN` and the key parts with spaces gives `UNSEEN` followed by each truthy key's clause, with a space before it. |
| `ImapSearch.SearchArguments` | email_fetch_service.py:31-45 | When the values hold no whitespace, the words `imap.search` receives are `UNSEEN`, then `FROM "s"`, `SUBJECT "s"`, `TEXT "k"` as two words each, in that order, each only when its value is truthy. |
| `EmailFetchService.ReceivedAt` | email_fetch_service.py:136-145 | `received_at` is the parsed Date header when there is one and it parses, and the current time otherwise. |
| `EmailFetchService.ExtractBody` | email_fetch_service.py:115-134 | The body loop computes the reference body: the concatenated text parts (not attachments) of a multipart message, or the single payload. It stops at the first unknown charset. |
| `EmailFetchService.BodyFailsIff` | email_fetch_service.py:117-129 | Collecting a body raises iff some text part has an unknown codec, and then with the error of the first such part. |
| `EmailFetchService.StoreAttachments` | email_fetch_service.py:159-195 | The attachment loop computes the reference fold `StoreParts` over the message's parts, in order, and keeps the attachment ids unique. |
| `EmailFetchService.StoreAttachment` | email_fetch_service.py:160-195 | One part computes `StorePart`. A part marked as an attachment with a filename gets a "PENDING" row and a file write, consuming one write outcome. The row is renamed to `ID<email>-<att>-<name>` after a successful write and deleted after a failed one, whose error is swallowed. Any other part changes nothing. |
| `EmailFetchService.StorePartsAllWritten` | email_fetch_service.py:159-191 | When every write succeeds, each attachment part with a filename gets exactly one row, in walk order, with consecutive ids and its derived stored name. |
| `EmailFetchService.StorePartsAllFailed` | email_fetch_service.py:186-195 | When every write fails, no attachment row remains but the email row stays. Each attachment part still used one id and one write. |
| `EmailFetchService.IngestFound` | email_fetch_service.py:92-197 | A failed fetch, a missing `Message-ID` or a stored one skips the message. Otherwise the email and its attachments are stored and counted as saved, or the body decoding raises. |
| `EmailFetchService.WalkFound` | email_fetch_service.py:87-197 | The loop sends one fetch per message number. It stores exactly the new keyed messages with `saved` equal to their number, or stops at the message that raised. It never consults the filter rules. |
| `EmailFetchService.FetchAndStoreEmails` | email_fetch_service.py:47-226 | When opening the connection raises, the error escapes, the run is left pending and unfinished, and nothing is sent. A select or search that answers other than OK, or that raises (a BAD reply, a dropped connection), finishes the run as `error` with 0/0 and commits. After a raise the message is the exception's text: the rollback discards the flushed run row and finishing adds it back. The outcome is stated as `MailboxOutcome`. Otherwise the walk's outcome is committed with the run finished. Close and logout are sent on every path after the open. |
| `EmailFetchService.MailboxCommands` | email_fetch_service.py:55-226 | Whatever the mailbox answers, `select` is sent first, and `close` and `logout` are sent last. The search follows when `select` answered OK. |
| `EmailFetchService.FetchRaiseFinished` | email_fetch_service.py:209-220 | After a select or search that raised, the rolled-back run is added back, finished as `error` with 0/0 and the exception's text. The store stays valid. |
| `EmailFetchService.WalkOutcomeRun` | email_fetch_service.py:87-220 | Exactly one run is added, the one this call created, now finished. `messages_fetched` is the number of message numbers found and `messages_saved <= messages_fetched`. The status is `error` iff an error message is set. |
| `EmailFetchService.RefetchStoresNothing` | email_fetch_service.py:105-107 | After a walk that ran through, fetching the same messages again stores none of them. |
| `EmailFetchService.AbortedWalkStoresNothing` | email_fetch_service.py:209-220 | A walk that raised leaves the emails, the attachment rows and their counters as they were. |
| `EmailFetchService.StoreMessageKeepsValid` | email_fetch_service.py:147-195 | Storing a new message and its attachments keeps every table constraint and keeps every row backed by its file. |
| `Repositories.EmailRepository.GetByMessageId` | repositories.py:13-15 | An email is found iff one with that `Message-ID` is stored, whether soft-deleted or not. |
| `Repositories.EmailRepository.GetById` | repositories.py:67-69 | An email is found iff one with that id is stored. |
| `Repositories.EmailRepository.Create` | repositories.py:18-30 | A new email row with the next id, not deleted, is appended to the pending state. Nothing is committed. |
| `Repositories.EmailRepository.GetPaginated` | repositories.py:33-64 | `total` is the number of emails matching the filters. The items are the window `[(page-1)*page_size, +page_size)` of the matching emails in listing order. There are exactly `page_size` of them on a full page, `total - (page-1)*page_size` on the last partial page, and none past the end. |
| `Repositories.ListingIsOrderedMatches` | repositories.py:51-63 | The listing holds exactly the matching emails, each once, in `received_at DESC NULLS LAST, id DESC` order. |
| `Pagination.SortOrders` | repositories.py:58-60 | Sorting yields the listing order. |
| `Pagination.SortPermutes` | repositories.py:58-63 | Sorting keeps exactly the rows it was given. |
| `Pagination.Window` | repositories.py:61 | `OFFSET o LIMIT l` gives at most `l` elements, the ones at `o`, `o+1`, …, and none when `o` is past the end. |
| `Repositories.EmailRepository.SoftDelete` | repositories.py:72-74 | The pending state becomes the one with that email's `is_deleted` set. |
| `Repositories.EmailRepository.HardDelete` | repositories.py:77-78 | The pending state loses the email and, by the cascade, its attachments. |
| `Repositories.AttachmentRepository.Create` | repositories.py:83-93 | A new attachment row with the next id is appended to the pending state. |
| `Repositories.AttachmentRepository.GetById` | repositories.py:96-98 | An attachment is found iff one with that id is stored. |
| `Repositories.AttachmentRepository.Delete` | repositories.py:101-102 | The pending state loses that attachment row. |
| `Repositories.RenameAttachment` | services.py:147-149 | The in-place rename of `filename_stored` changes that row of the pending state only. |
| `Repositories.EmailFilterRepository.GetAll` | repositories.py:114-119 | With `enabled_only` the result is exactly the enabled filters. Without it, the result is all filters. |
| `Repositories.EmailFilterRepository.GetById` | repositories.py:122-124 | A filter is found iff one with that id is stored. |
| `Repositories.JobRunRepository.Create` | repositories.py:133-137 | A new run with the column defaults and the next id is appended to the pending state. |
| `Repositories.JobRunRepository.Finish` | repositories.py:140-146 | Exactly the end time, both counts, the status and the error message are overwritten. The id and start time stay. |
| `Repositories.JobRunRepository.GetLast` | repositories.py:149-151 | The result is the run with the highest id, or none iff no run exists. |
| `Repositories.JobRunRepository.GetAggregatedMetrics` | repositories.py:154-162 | The result is the last run and the sums of `messages_fetched` and `messages_saved` over all runs, which are 0 when there are none. |
| `StoreInvariants.SoftDeleteChangesOnlyTheFlag` | repositories.py:72-74 | A soft delete sets `is_deleted` on that email and changes nothing else. |
| `StoreInvariants.SoftDeleteIdempotent` | repositories.py:72-74 | Soft-deleting twice is the same as soft-deleting once. |
| `StoreInvariants.SoftDeleteKeepsDedup` | repositories.py:13-15 | A soft-deleted email still blocks re-ingestion: the dedup lookup finds the same `Message-ID`s before and after. |
| `StoreInvariants.DeleteEmailCascades` | models.py:29 | After a hard delete, neither the email nor any of its attachments remains, and every other email and attachment does. |
| `StoreInvariants.DeleteEmailKeepsValid` | models.py:36 | A hard delete keeps every constraint, including the foreign key from attachment to email, and keeps every remaining row backed. |
| `StoreInvariants.InsertEmailKeepsValid` | models.py:19 | Inserting an email with the next id and a `Message-ID` not yet stored keeps every constraint, including the uniqueness of `message_id`. |
| `StoreInvariants.InsertAttachmentKeepsValid` | models.py:36-38 | Inserting an attachment with the next id, for a stored email, under its derived name keeps every constraint. |
| `StoreInvariants.DeleteAttachmentKeepsValid` | repositories.py:101-102 | Deleting an attachment row keeps every constraint and keeps the other rows backed. |
| `StoreInvariants.SumsAppend` | repositories.py:154-160 | Appending a run grows each total by exactly that run's count. |
| `StoreInvariants.LastRunIsNewest` | repositories.py:149-151 | With ids increasing along the table, the last run is the most recently created one. |
| `Models.NewEmail` | models.py:26-27 | A new email has `is_deleted = False` and `created_at` set to the clock. |
| `Models.NewJobRun` | models.py:63-68 | A new run has status `running`, both counts 0, no end time and no error. |
| `Models.ValidDbStoredNamesUnique` | models.py:38 | The naming scheme and the unique ids make `filename_stored` unique. |
| `Models.FreshNameUnused` | models.py:38 | A name derived from an attachment id at or above the counter is not the name of any stored attachment. |
| `StoredNames.StoredNameInjective` | services.py:147 | Equal stored names come from the same email id, attachment id, separator and original name. So distinct attachment ids never share a file, in either job. |
| `StoredNames.Pad8RoundTrip` | email_fetch_service.py:182 | `%08d` has at least 8 digits and reads back as the same number. |
| `Scheduler.Start` | scheduler.py:28-43 | When a scheduler exists, the state is unchanged. Otherwise a new, running scheduler with the single job `email_fetch_job` every 15 minutes is recorded. |
| `Scheduler.Shutdown` | scheduler.py:46-51 | The state becomes "no scheduler", and the count of constructed schedulers is unchanged. |
| `Scheduler.StartIdempotent` | scheduler.py:30-31 | Starting twice is the same as starting once. |
| `Scheduler.ShutdownIdempotent` | scheduler.py:47-51 | Shutting down twice is the same as shutting down once, and shutting down with no scheduler changes nothing. |
| `Scheduler.RestartIsFresh` | scheduler.py:30-42 | A start after a shutdown constructs a new scheduler, not the one that was shut down, with exactly the fetch job. |
| `Scheduler.AddJob` | scheduler.py:34-40 | With `replace_existing`, the new job is present, jobs with other ids stay, and nothing else is added. |
| `Scheduler.LifecycleKeepsWellFormed` | scheduler.py:28-51 | Start and shutdown keep the invariant that a held scheduler runs exactly the fetch job. |
| `Scheduler.SchedulerModule.StartScheduler` | scheduler.py:28-43 | The global after the call is `Start` of the global before it. |
| `Scheduler.SchedulerModule.ShutdownScheduler` | scheduler.py:46-51 | The global after the call is `Shutdown` of the global before it. |
| `Scheduler.RunEmailJob` | scheduler.py:15-25 | The scheduled job runs the fetch with no dynamic filters (a search for `UNSEEN`), swallows what escapes, and closes the session. When the connection fails to open, no trace is left, not even the run. Otherwise the constraints and file backing are kept, and the committed store ends as `MailboxOutcome` states for the mailbox's replies. |
| `Api.ListEmails` | main.py:93-116 | `page < 1` or `page_size < 1` gives 400 before any query. Otherwise the page has `has_previous` iff `page > 1` and `has_next` iff `page*page_size < total`. |
| `Api.HasNextIffNextPageNonEmpty` | main.py:108 | `has_next` holds iff the next page has an email on it. |
| `Api.HasPreviousIffPreviousPageValid` | main.py:107 | `has_previous` holds iff the previous page number is accepted. |
| `Api.PagesBeforeNextAreFull` | main.py:98-108 | A page with `has_next` is full. |
| `Api.DeleteEmail` | main.py:129-141 | An unknown id gives 404 and changes nothing. Otherwise a hard delete (with cascade) or a soft delete is committed. |
| `Api.DeleteEmailKeepsStore` | main.py:135-140 | Either kind of delete keeps the constraints and the file backing. |
| `Api.DownloadAttachment` | main.py:146-161 | A missing row or file gives 404. An empty original name downloads as `attachment`. An empty or missing media type becomes `application/octet-stream`. |
| `Api.BackedAttachmentsDownload` | main.py:146-161 | With every row backed, every stored attachment downloads with as many bytes as its row records. |
| `Api.DeleteAttachment` | main.py:165-184 | An unknown id gives 404 and changes nothing. Otherwise the committed store is the old one without that row, committed before the file is touched. The file is then removed, and a failed removal is swallowed. |
| `Api.DeleteAttachmentKeepsStore` | main.py:171-182 | After the delete, whether or not the file was removed, the constraints hold and every remaining row is backed. |
| `Api.ApplyUpdate` | main.py:217-224 | Each payload field that is not None overwrites its field. The name, id and creation time never change. |
| `Api.ApplyUpdateIdempotent` | main.py:217-224 | Applying an update twice is the same as applying it once, and an empty update changes nothing. |
| `Api.UpdateFilter` | main.py:211-229 | An unknown filter gives 404 and changes nothing. Otherwise the committed store is the old one with that filter row replaced by the partially updated filter, which is returned. |
| `Api.UpdateFilterTouchesOnlyIt` | main.py:213-228 | The update changes only the filter it names. |
| `Api.UpdateFilterKeepsStore` | main.py:213-228 | The update keeps the constraints, including the unique filter names. |
| `Api.TriggerJob` | main.py:81-88 | The response carries the run's id, its final status (`success` or `error`) and its start time, and that run is in the committed store. The store, the folder and the write script end as `RunEmailCheckJob`'s `JobEnded` states for that run. |
| `Storage.Session.Commit` | services.py:110 | A commit publishes the pending state. |
| `Storage.Session.Rollback` | services.py:113 | A rollback discards the pending state. |
| `Storage.BlobStore.Write` | services.py:156-158 | A write changes only the file it names, according to the environment's next outcome. |
| `Storage.BlobStore.Remove` | services.py:163-167 | `if exists: remove` removes the file unless the removal fails, and then changes nothing. |

## Left out

- The IMAP client and MIME decoding (`email_client.py`) are not part of this model.
  The manual check receives either the decoded messages or the text of the exception
  the client raised. The scheduled fetch receives the replies of select, search and
  fetch, with each message already parsed into headers and parts.
- The OAuth token exchange and XOAUTH2 login (`gmail_oauth_service.py`) are not part
  of this model. Opening the connection either succeeds or raises.
- Charset decoding is a given per part: a decoded text, or none for an unknown codec.
  Date parsing is a given per message: a timestamp, or none when parsing raises. The
  clock is a `now` parameter, one per call.
- ILIKE treats `%` and `_` in the user's filter text as wildcards. The model uses
  plain substring matching. Lower-casing covers ASCII letters only.
- SQL flush and identity-map mechanics are not modelled. Ids come from explicit
  counters that a rollback resets. SQLite reuses the id of a deleted newest row, but
  the model's counter never goes back except on rollback.
- Column length limits (`String(255)` and others) are not modelled.
- Scheduling time and concurrency are not modelled. The interval trigger does not
  fire; `RunEmailJob` is called instead. The code has no guard against two runs
  overlapping, and none is added or verified.
- `Services.SaveAttachmentWithRollback`: only a failing file write is modelled. The
  generic fallback path (services.py:175-181), taken when creating or flushing the
  row itself raises, is not.
- `EmailFetchService.FetchAndStoreEmails`: `select` and `search` may raise, and those
  raises are modelled. Inside the message loop, the only exception modelled is an
  unknown charset while collecting the body. A `fetch` that raises, or a database
  error, is not modelled. A failing `close` is swallowed, and a failing `logout` is
  not modelled.
- Filter creation and deletion, `get_email` and the health, index and static
  endpoints are plain CRUD or plumbing and are not modelled.
- Logging is not modelled.

## Behaviour of the code worth knowing

- A non-empty rule list in which every rule is disabled or configures nothing
  rejects every message. It does not act like an empty list
  (`Filters.OnlyUnusableFiltersRejectAll`). The manual check, however, loads only
  the enabled rules, so all-disabled rules load as an empty list and accept
  everything (`Services.DisabledRulesAcceptAll`).
- In the manual check, one failed attachment write rolls back every email stored
  earlier in the same run, not just the current message. The only data commit
  comes after the whole walk.
- In the scheduled fetch, the run row is only flushed, not committed, before the
  connection opens. When opening the connection raises, the run is never finished
  and, once the session closes, never stored.
- The two jobs name files differently: `_` before the original name in the manual
  check, `-` in the scheduled fetch. The two schemes cannot collide
  (`StoredNames.StoredNameInjective`).
