# Aardbin in Dafny

Aardbin keeps encrypted records with attachments. The rows live in SQLite, the attachment bytes
live as files in a directory, and no transaction spans the two. This project models that system
and proves what it keeps: over every interleaving of requests, every failure and every crash for
the two stores, over every form and every cut into chunks for the upload parser, over every history
for the login limiter, and so on.

`dafny verify dfyconfig.toml` checks the whole project.

## How it is laid out

| files | what they model |
|---|---|
| `Schema`, `Crypto`, `Uploads`, `Effects`, `Wrappers` | the two tables as values, the cipher, pending uploads, what each exit of a create and an update leaves behind |
| `Protocol` | the attachment protocol as a step system: 26 steps of any number of requests, with failures, dropped requests, crashes and restarts |
| `ProtocolInvariant`, `ProtocolTheorems` | what every step keeps; rows and their files; who owns each file |
| `ProtocolAccounting` | exactly which step leaks which file and strands which temp file; exactly when a run ends clean |
| `ProtocolBlobs`, `ProtocolWrites`, `ProtocolSurvival` | blobs that do not decrypt are never overwritten; whose write a record ends up with; exactly when what it holds now is safe from requests under way |
| `ProtocolNotify`, `ProtocolUndisturbed`, `Notify`, `Browser` | from the commit to the refreshed list: exactly at which steps a change stays unannounced, the bounded channel, the event stream, the debounce timer and the refetch, across crashes and restarts |
| `ProtocolSolo`, `SoloRequests` | the handlers' statements as runs of one request in the step system, with the effects that `Handlers` states |
| `ProtocolRuns` | runs from an empty directory that show what can go wrong |
| `Files`, `Database`, `Handlers` | the file store, the database and the write handlers as classes that change state, with exact rollback |
| `Parser`, `ParserMeaning`, `ParserLimits` | the streaming form parser; over the parts alone, when a form is accepted, what it then says and how it is answered otherwise; its limits; what cutting into chunks can change |
| `RateLimit`, `LoginProtocol`, `Login` | the sliding-window limiter against its history; many requests between check and record; its two callers |
| `Listing`, `ListView` | the ordered queries, the batched attachment fetch, pages |
| `Text`, `Render`, `Disposition`, `Session` | white space and UTF-8, titles and previews, `Content-Disposition`, the session cookie |

## Modelling choices

- An id is a number. A UUID's canonical text has a fixed width, so its text order is the order of
  the numbers. Ids are fresh: the model draws one that was never drawn before.
- Clocks, nonces, text decoding and MIME guessing are parameters. The outcome of every I/O call is
  chosen freely; `faults` and `unremoved` count the failures so that contracts can speak of them.
- One database method is one step, because it holds the mutex throughout (`src/db.rs:81-253`). An
  error from it means that nothing was applied.
- The cipher is two functions; all that is assumed is that decrypting an encryption gives the text
  back (`Crypto.Lawful`). A restart may bring another key.
- A request may be dropped at any await. A file operation that a blocking thread still carries out
  after the drop is modelled as done before the drop or not at all; it concerns an id nobody else
  knows.
- `minted`, `sent` and `holder` in `Protocol.State` and `owed` in `Notify.System` are history: no
  step's outcome or enabledness depends on `sent`, `holder` or `owed`, and `minted` only says which
  ids are still fresh. A write or a rename needs its temp file to be there, which the invariant
  guarantees.
- `Protocol` has the interleavings; `Handlers` has the same statements as methods of classes and
  says what each exit leaves behind. `SoloRequests` proves that each of those exits is a run of
  `Protocol` with that effect on tables and files. The API's create and delete handlers run the same
  statements as the browser's (`src/api.rs:228-259`, `src/api.rs:358-377`).
- The queries behind a page of the list may each see other tables, in `ListView` as in `Notify`.
- A crash cuts every event stream and every refetch the server is working on. Pages stay open and
  their streams reconnect after the restart.
- `Part` and `Form` allow any list of parts, each any list of chunks that may break off. The limits
  are 64-bit numbers in the code and unbounded here.

## What the code does that its comments or documentation do not say

- Asking for a page beyond the only page gives an empty list that says "page 1 of 1": the guard for
  fetching again looks at the clamped page (`src/routes.rs:275-280`). `ListView.ViewIsClampedPage`
  has the exact condition, `ListView.BeyondSinglePageIsEmpty` an input. The API never fetches again:
  `ListView.ApiPageIsClamped` and `ListView.ApiBeyondLastIsEmpty`.
- When an attachment row is refused, the file of that upload is removed "to avoid orphans"
  (`src/routes.rs:609-612`), but the files of the uploads after it stay, and on a create also those
  whose rows the rollback takes away. `ProtocolAccounting.StepLeaksExactly` says which files, step
  by step, `ProtocolAccounting.EndsCleanExactly` when a run ends clean, and
  `ProtocolRuns.RefusedRowLeavesAFile` is a run that does not.
- An update whose record was deleted while its form was parsed answers 404 and leaves its uploads
  behind (`src/routes.rs:725`): `ProtocolRuns.VanishedRecordLeavesAFile`.
- A request past its commit that is dropped, whose row is refused, whose stamp cannot be written or
  whose rollback changes the tables again sends no event (`src/routes.rs:640-643`,
  `src/routes.rs:731-736`, `src/routes.rs:845-848`). Idle lists stay out of date if and only if no
  other request has an event to send at that moment, the tables have changed since the last event,
  and neither a commit nor a crash comes later: `ProtocolNotify.LosesExactly`,
  `ProtocolNotify.RecoversExactly`, `Notify.MissedForGoodExactly`. `ProtocolRuns` has two such runs,
  `StampErrorLosesTheRefresh` and `RefusedRowLosesTheRefresh`. Without database errors after a commit
  and without requests dropped there it never happens: `Notify.UndisturbedNoLostRefresh`.
- The rollback of one update writes its old blob over another update that was accepted in between
  (`src/routes.rs:731-735`). `ProtocolSurvival.BlobSurvivesExactly` has the condition on the state at
  the moment of the answer: no other update of the record is past its commit with rows left to insert
  or backing out, holding another blob. `ProtocolRuns.AcceptedUpdateIsOverwritten` is a run that
  violates it.
- The limit of 20 attachments counts one request, not one record.
- An unknown form field is counted but not checked. Once its text, which decoding can make longer
  than its bytes, has taken the total over the request limit, a file with an empty body is taken or
  refused depending on whether the body arrived as no chunk or as an empty chunk:
  `ParserLimits.ChunkingMattersExactly`, `ParserLimits.EmptyChunkMatters`. Whether a complete part with
  an empty body can arrive as no chunk at all, as an empty chunk, or as either, is up to the multipart
  library, which is not part of this model; the input assumes one that may yield both.
- Whether a file that is too large gets 413 or 422 depends on where its chunks end:
  `ParserLimits.TooLargeExactly`, `ParserLimits.SameFileTwoAnswers`.

## Model

| member | source | states |
|---|---|---|
| ProtocolInvariant.ReadRowInv | src/routes.rs:698-708 | an update goes on only for a record it could decrypt, remembers the blob it read, and keeps the invariant |
| ProtocolInvariant.OpenUploadInv | src/files.rs:36-42 | a new temp file belongs to the request that opened it and to nobody else |
| ProtocolInvariant.WriteChunkInv | src/routes.rs:511-548 | the open temp file holds exactly the chunks received and the counted size is their length, until a write fails |
| ProtocolInvariant.RenamedInv | src/files.rs:44-52 | the renamed file holds every chunk received and belongs to the request |
| ProtocolInvariant.AbortTempInv | src/files.rs:54-56 | the temp file of an aborted upload is there afterwards if and only if its removal failed; the invariant holds either way |
| ProtocolInvariant.CleanOneInv | src/routes.rs:587-591 | cleaning up removes files of this request only |
| ProtocolInvariant.CommitCreateInv | src/routes.rs:632-639 | inserting a record under a new id with a blob that can be decrypted keeps the invariant, and the request goes on to its rows exactly when the insert succeeds |
| ProtocolInvariant.CommitUpdateInv | src/routes.rs:719-731 | an update overwrites only a record that can be decrypted; when the record has gone, all its uploads are leaked; the invariant holds |
| ProtocolInvariant.CommitDetachInv | src/db.rs:232-253 | the deleted row's file passes to the deleting request |
| ProtocolInvariant.EraseOneInv | src/routes.rs:745-747 | erasing removes files whose rows have gone, and no other |
| ProtocolInvariant.ScanTempInv | src/files.rs:75-79 | the startup scan keeps the invariant and leaves rows and final files as they are |
| ProtocolInvariant.CommitDeleteInv | src/db.rs:111-122 | deleting a record hands exactly the files of the cascaded rows to the deleting request and disturbs no other request |
| ProtocolInvariant.RowAcceptedInv | src/routes.rs:593-615 | inserting a row moves its file from the request to the row; size and bytes fit |
| ProtocolInvariant.RowRefusedInv | src/routes.rs:609-613 | a refused row keeps the invariant although the uploads after it are abandoned |
| ProtocolInvariant.RollBackInv | src/routes.rs:640-643 | rolling back a create or an update keeps the invariant whatever others did meanwhile |
| ProtocolInvariant.DropInv | src/routes.rs:617-754 | a request may vanish at any await |
| ProtocolInvariant.CrashInv | src/main.rs:44-46 | so may the whole process |
| ProtocolInvariant.LocalInv | src/routes.rs:413-848 | a step that touches only ids its own request is concerned with keeps everything other requests rely on |
| ProtocolInvariant.StepInv | src/routes.rs:413-848 | every step of every request, failing or not, every drop, crash, sweep and restart keeps the invariant: who holds each file, what it contains, who may write which record |
| ProtocolTheorems.SentIsReceived | src/routes.rs:513-536 | over any run the recorded bytes of an upload are the chunks received for it, in order |
| ProtocolTheorems.RowsHaveTheirFiles | src/routes.rs:511-615 | in every reachable state each attachment row has a live parent and a final file under its id holding exactly the chunks received, with the length the row states |
| ProtocolTheorems.OneOwner | src/routes.rs:553-615 | a file held by a request has no row, is not leaked, and no other request holds it |
| ProtocolTheorems.FilesAreAccountedFor | src/routes.rs:413-848 | in every reachable state the final files are the disjoint union of those with a row, those held by exactly one request, and the leaked |
| ProtocolAccounting.StepLeaksExactly | src/routes.rs:598-613 | each step adds to the leaked files exactly the set named for it, all of them new, and no step takes one away |
| ProtocolAccounting.RunLeaksExactly | src/routes.rs:723-736 | after any run the leaked files are those leaked by its steps |
| ProtocolAccounting.StepStrandsExactly | src/files.rs:54-56 | each step adds to the stranded temp files exactly the set named for it, and only the startup scan takes any away |
| ProtocolAccounting.RunStrandsExactly | src/files.rs:73-79 | after any run the stranded temp files are those stranded by its steps and not swept since |
| ProtocolAccounting.EndsCleanExactly | src/routes.rs:617-754 | once idle, the directory equals the attachment rows if and only if no step leaked, and the temp files are exactly those stranded and not swept |
| ProtocolAccounting.OnlyLossyExitsLose | src/files.rs:54-69 | a step leaks and strands nothing unless it is a crash, a drop, a failed removal, a refused row with uploads after it, the rollback of a create with rows, or an update whose record has gone |
| ProtocolAccounting.LosslessRunEndsClean | src/routes.rs:617-754 | a run without those exits ends, once idle, with the directory equal to the attachment rows and no temp file |
| ProtocolAccounting.SweepEmptiesTemp | src/files.rs:73-79 | the startup scan takes temp files away one by one and leaves rows and final files alone |
| ProtocolBlobs.StepBlob | src/routes.rs:698-736 | within one process a record's blob stays, or goes from readable to readable, at every step of every request, rollbacks included |
| ProtocolBlobs.GoneForGood | src/db.rs:91-122 | a deleted record never comes back, not even through a rollback |
| ProtocolBlobs.UnreadableIsNeverOverwritten | src/routes.rs:698-736 | over any run of one process an unreadable blob stays byte-identical until its record is deleted, and a readable record stays readable |
| ProtocolWrites.StepWrites | src/db.rs:81-122 | a step leaves a record deleted, with the blob it writes, or with the blob it had |
| ProtocolWrites.LastWriteWins | src/routes.rs:719-736 | over any run a record is gone if and only if a step deleted it, and otherwise has the blob of the last write |
| ProtocolWrites.UpdateSurvivesExactly | src/routes.rs:719-736 | looking back over a given run: an update's blob is the record's at its end if and only if no later step deletes the record and the last later write, rollbacks included, is of the same blob |
| ProtocolSurvival.BlobSurvivesExactly | src/routes.rs:719-736 | looking ahead from any state: every run without a later update leaves the record with the blob it has now or deleted, if and only if no update of it that is past its commit has rows to insert or is backing out with another blob |
| ProtocolSurvival.UnarmedSurvives | src/routes.rs:731-736 | without such a request the blob stays, whatever else interleaves |
| ProtocolSurvival.ArmedWritesBack | src/routes.rs:598-613 | with one, a run exists in which its row is refused and its rollback writes the other blob |
| ProtocolNotify.RefusedByForeignKey | src/routes.rs:598-613 | when the database itself does not fail, a row is refused only because its record was deleted meanwhile |
| ProtocolNotify.RollBackChangesNothing | src/routes.rs:640-643 | the rollback after such a refusal changes nothing, so it needs no event |
| ProtocolNotify.StepShape | src/routes.rs:617-848 | what each step does to the requests that have an event to send: committing adds one, sending and the silent exits take one away, and a change without an event is silent |
| ProtocolNotify.LosesExactly | src/routes.rs:640-848 | a step leaves a change with nobody to announce it if and only if it is a drop past the commit, a refused row, a failed stamp or a rollback that changes the tables, no other request has an event to send, and the tables have changed since the last event |
| ProtocolNotify.RecoversExactly | src/routes.rs:645-848 | a change stays lost until a request commits or the process crashes |
| ProtocolNotify.RunLosesExactly | src/routes.rs:617-848 | over any run, with drops, errors, crashes and restarts: a change is lost at the end if and only if a step lost one and no commit and no crash came after it |
| ProtocolUndisturbed.UndisturbedStep | src/routes.rs:598-848 | when inserts of rows and stamps meet no database error and nobody with an event to send is dropped, every change has a request that will announce it; rows refused by the foreign key, crashes, restarts and all other failures allowed |
| ProtocolUndisturbed.UndisturbedRunsLoseNothing | src/routes.rs:598-848 | so no run of such steps from an empty directory loses a change |
| Notify.MovedCovered | static/app.js:84-100 | each move of a client (connecting, opening, reading, the timer, a refetch, rendering) keeps a stale list covered by a pending refresh or an owed event |
| Notify.ReceiverKeeps64 | src/main.rs:48 | a receiver that takes nothing keeps 64 events and lags from the 65th on |
| Notify.StepInv | src/routes.rs:877-890 | so does every other move and every step of the server: failures, drops, crashes and restarts |
| Notify.StaleIsCovered | static/app.js:84-100 | whatever fails, a connected client whose list is older than the database has a refresh coming, or the tables have changed since the last event |
| Notify.NoLostRefresh | static/app.js:84-100 | whenever a connected client's list is older than the database, a request is between commit and send, or an event or lag marker is unread or on the wire, or the stream has yet to open, or the timer is armed, or a refetch is outstanding; after every run at whose end no lost change remains |
| Notify.IdleClientsAreUpToDate | static/app.js:84-100 | once no request has an event to send and nothing is pending, a connected client shows the database as it is, across lag, coalescing, reconnects, crashes and restarts |
| Notify.UndisturbedNoLostRefresh | static/app.js:84-100 | in runs without database errors after a commit and without requests dropped there, with deletions interleaved at will: whenever a connected client's list is older than the database, a request is between commit and send or the client has a refresh pending |
| Notify.UndisturbedClientsAreUpToDate | static/app.js:84-100 | once such a run has come to rest, every connected client with nothing left to do shows the database as it is |
| Notify.MissesLastOf | static/app.js:84-100 | a client that fetches the list just before a change after which no event comes keeps showing what the tables were then |
| Notify.MissedExactly | static/app.js:84-100 | for every run of the server, some behaviour of a client leaves it connected, with nothing to do and an old list, if and only if the run ends with a change after its last event and its last crash |
| Notify.MissedForGoodExactly | src/routes.rs:640-848 | when no request has an event to send, that is so if and only if a step lost a change and no commit and no crash came after it |
| ProtocolRuns.StampErrorLosesTheRefresh | src/routes.rs:836-848 | the run in which record 9 loses attachment 0 and the stamp cannot be written: an idle connected client keeps showing the attachment, which has gone |
| ProtocolRuns.RefusedRowLosesTheRefresh | src/routes.rs:636-643 | the run in which a create is refused its first row and rolled back: a client that fetched the list between commit and rollback keeps showing record 2, which does not exist |
| ProtocolRuns.RefusedRowLeavesAFile | src/routes.rs:598-613 | the same run: both tables as before, the second file left behind, no event |
| ProtocolRuns.VanishedRecordLeavesAFile | src/routes.rs:723-725 | the run in which record 9 is deleted while an update of it is parsed: the upload is left behind |
| ProtocolRuns.AcceptedUpdateIsOverwritten | src/routes.rs:731-735 | the run in which a second update is accepted and announced while a first one has a row to insert, and the rollback of the first one overwrites it |
| ProtocolSolo.ChunksRun | src/routes.rs:510-548 | the inner loop as steps: the temp file holds the chunks in order |
| ProtocolSolo.UploadRun | src/routes.rs:498-569 | an upload as steps: its file in place with its bytes, on the list with its size, the temp store as before |
| ProtocolSolo.RefusedUploadRun | src/routes.rs:550-556 | a refused upload as steps: both stores as before |
| ProtocolSolo.ItemsRun | src/routes.rs:433-584 | all uploads of a form as steps |
| ProtocolSolo.InsertRun | src/routes.rs:593-615 | the loop over the rows as steps: after k of them the first k rows are in |
| SoloRequests.CreateIsARun | src/routes.rs:632-647 | each exit of a create is a run with the effect on tables and files that the handler's contract states |
| SoloRequests.UpdateIsARun | src/routes.rs:719-740 | the same for an update, its missing record included |
| SoloRequests.DeleteIsARun | src/routes.rs:742-754 | a deletion as a run: rows, then the children's files, then the event |
| SoloRequests.DetachIsARun | src/routes.rs:836-848 | deleting an attachment as a run, with and without its stamp |
| Browser.ListPage.OnDataChanged | static/app.js:86-92 | the armed timer covers the new event and all that waited before it |
| Browser.ListPage.OnTimer | static/app.js:88-92 | one refresh for a whole burst, not before 300 ms of quiet; timer and refetches are those of the client in the pipeline afterwards |
| Browser.ListPage.Refresh | static/app.js:89-91 | a refetch starts or waits behind the one under way, as in the pipeline |
| Browser.ListPage.OnOpen | static/app.js:96-100 | opening a stream refreshes at once and leaves the timer alone |
| Parser.StreamFile | src/routes.rs:487-569 | one file part: on success a fresh final file with exactly its bytes and the counted size; on failure both stores as before up to failed removals, refused for the first limit its chunks went over |
| Parser.ReadText | src/routes.rs:447-479 | a title or content part keeps its text as `ParserMeaning.AcceptedSays` reads it, or is refused with its answer |
| Parser.ReadPart | src/routes.rs:446-583 | one part: what it adds to the draft, to the total and to the store |
| Parser.ReadParts | src/routes.rs:433-584 | all the parts or those before the first refused one |
| Parser.ParseRecordForm | src/routes.rs:413-591 | a refused form leaves both stores as before up to failed removals, with the right answer; an accepted one adds exactly its uploads, distinct, each with its bytes and size |
| Parser.CleanupUploads | src/routes.rs:587-591 | removes exactly the files of the uploads, up to failed removals |
| Parser.OverLimitStays | src/routes.rs:513-536 | later chunks do not change why a file is refused |
| ParserMeaning.AcceptedSays | src/routes.rs:433-584 | an accepted form's content is the decoded text of its last content part, its title that of its last title part, trimmed and cut at 200 characters, each empty if there is none; its files are the file parts that have a file name, in order, with name, MIME type and bytes |
| ParserMeaning.AcceptedExactly | src/routes.rs:419-584 | a form is accepted if and only if its declared length is within the request limit, it does not break off, and each part fits after those before it: texts complete and within their limits, at most 20 files, each complete and within both limits unless it has no chunk |
| ParserMeaning.LengthAnswer | src/routes.rs:419-431 | 413 when the declared length is over the request limit; 422 when the form only breaks off after parts that all fit |
| ParserMeaning.TextAnswer | src/routes.rs:447-479 | a text that is the first part not to fit gets 413 if it is complete and takes the total over the request limit, else 422 |
| ParserMeaning.FileAnswer | src/routes.rs:480-552 | a file that is the first part not to fit gets 413 if and only if it is not the 21st and some chunk ends past the request limit and within the attachment limit, else 422 |
| ParserMeaning.ConcatInOrder | src/routes.rs:513-536 | a body is its chunks put together in order |
| ParserLimits.AcceptedIsWithinLimits | src/routes.rs:459-536 | an accepted form has at most 20 files within the attachment limit, content within its limit, a title of at most 201 characters, and all its bytes within the request limit |
| ParserLimits.ChunksMatterExactly | src/routes.rs:513-536 | two cuts of the same part are treated alike if and only if it is not a taken, empty file after an overflow, or both cuts have chunks or neither has |
| ParserLimits.FoldExactly | src/routes.rs:433-584 | when one cut of a form's parts is taken, another is refused or taken alike, alike if and only if no empty file after an overflow has chunks in one cut only |
| ParserLimits.ChunkingMattersExactly | src/routes.rs:419-584 | two cuts of any form get the same outcome if and only if the accepted one, if any, agrees with the other at every part |
| ParserLimits.ChunkingDoesNotMatter | src/routes.rs:433-584 | any two ways of cutting a form into non-empty chunks give the same verdict, title, content, files and bytes |
| ParserLimits.TooLargeExactly | src/routes.rs:513-531 | a refused file gets 413 if and only if some chunk ends past the request limit and within the attachment limit |
| ParserLimits.EmptyChunkMatters | src/routes.rs:571-576 | a form within the body limit on which an empty chunk changes the verdict, for any field that decodes to a text over the limit |
| ParserLimits.OverflowingField | src/routes.rs:571-576 | such a field exists whenever decoding replaces invalid bytes by the replacement character and the framing takes less than two thirds of the limit |
| ParserLimits.SameFileTwoAnswers | src/routes.rs:513-531 | one file within the body limit that gets 422 as a whole and 413 in two pieces |
| Files.FileStore.BeginUpload | src/files.rs:36-42 | a new empty temp file under an id never used before |
| Files.FileStore.WriteAll | src/routes.rs:532-537 | appends the chunk, or fails and may leave part of it |
| Files.FileStore.FinalizeUpload | src/files.rs:44-52 | moves the temp file's bytes to the final store and gives their length |
| Files.FileStore.AbortUpload | src/files.rs:54-56 | the temp file goes or stays, nothing else changes |
| Files.FileStore.DeleteAttachment | src/files.rs:65-69 | the final file goes or stays, nothing else changes |
| Files.FileStore.OrphanScan | src/files.rs:73-93 | afterwards the temp store holds exactly as many files as could not be removed; final files are only reported; an unreadable directory ends the scan with an error and nothing but temp files removed |
| Database.Db.CreateRecord | src/db.rs:81-89 | inserts the blob with both stamps under a new id, or changes nothing |
| Database.Db.UpdateRecord | src/db.rs:91-98 | writes blob and update stamp, keeps the creation stamp, and says whether the record was there |
| Database.Db.TouchRecord | src/db.rs:100-107 | changes the update stamp only |
| Database.Db.DeleteRecord | src/db.rs:111-122 | deletes record and children and gives each child's id exactly once |
| Database.Db.GetRecord | src/db.rs:124-140 | the stored row, or that there is none |
| Database.Db.InsertAttachment | src/db.rs:168-183 | refused without a parent; the foreign key holds afterwards |
| Database.Db.DeleteAttachment | src/db.rs:232-253 | deletes only an attachment of the given record |
| Handlers.InsertUploads | src/routes.rs:593-615 | refused without a database error exactly when the record has gone; at the first refused row exactly the rows before it are in, each with its upload's file name, MIME type and size, its file is removed, the files after it stay |
| Effects.RowsOfUploads | src/routes.rs:598-608 | the row of each upload names the record and has the upload's file name, size and MIME type and the stamp |
| Effects.DropUndoesCreate | src/routes.rs:640-643 | deleting a record just created undoes it together with any rows inserted for it |
| Effects.RestoreReplacesUpdate | src/routes.rs:731-736 | writing any old blob and stamp back replaces those of the update and leaves the rows inserted |
| Effects.RestoreUndoesUpdate | src/routes.rs:731-736 | writing the old blob and stamp back restores the records table and leaves the rows inserted |
| Handlers.App.FinishCreate | src/routes.rs:640-643 | all rows in, or none and no record when the rollback goes through |
| Handlers.App.FinishUpdate | src/routes.rs:731-736 | all rows in, or the old blob and stamp written back |
| Handlers.App.SaveUpdate | src/routes.rs:715-739 | an update from its parse on, whatever other requests did to the tables since its check; accepted: the record has the form's last title and content encrypted, its old creation stamp and the new update stamp, and a row and a file for each file part |
| Handlers.App.StoreCreated | src/routes.rs:632-643 | what each exit of a create after its parse leaves in the tables and on disk |
| Handlers.App.BlobSaysText | src/routes.rs:632-634 | under a lawful cipher what an accepted form is encrypted to opens to its last title, as stored, and its last content |
| Handlers.App.CreateRecord | src/routes.rs:617-647 | rolled back: both tables as before; accepted: one new record with the last title and content of the form encrypted and both stamps, for each file part in order a row with its name, MIME type, size and stamp and a file with its bytes, nothing else changed, one event; refused: the right answer and nothing left |
| Handlers.App.StoreUpdated | src/routes.rs:719-736 | what each exit of an update after its parse leaves in the tables and on disk, a record that has gone included |
| Handlers.App.UpdateRecord | src/routes.rs:692-740 | a missing or unreadable record is not touched; one deleted meanwhile is answered as missing and the uploads stay; accepted: the form's texts encrypted under the old creation stamp, a row and a file for each file part; rolled back: the records table as before, the attachments grown by exactly the rows before the refused one |
| Handlers.App.EraseFiles | src/routes.rs:745-747 | removes exactly the named files, up to failed removals |
| Handlers.App.DeleteRecord | src/routes.rs:742-754 | the record, its rows and exactly their files go; otherwise nothing changes; one event |
| Handlers.App.DeleteAttachment | src/routes.rs:830-848 | the row, then its file, then the stamp, then one event; when the stamp fails, row and file are gone and no event is sent |
| RateLimit.DrainOld | src/ratelimit.rs:60-68 | drops expired failures from the front |
| RateLimit.LimiterRefinesHistory | src/ratelimit.rs:31-68 | after any calls over any addresses each drained deque is sorted and equals the failures since the last success that are inside the window |
| RateLimit.LoginRateLimiter.CheckIp | src/ratelimit.rs:32-44 | locked out if and only if five failures since the last success are less than 300 seconds old; the wait is what is left of the oldest one's 300 seconds, at least one second; other addresses untouched |
| RateLimit.LoginRateLimiter.RecordFailure | src/ratelimit.rs:46-52 | appends to the live failures of that address only |
| RateLimit.LoginRateLimiter.RecordSuccess | src/ratelimit.rs:54-57 | clears that address only |
| RateLimit.LockedOutExactly | src/ratelimit.rs:32-44 | locked out exactly while the fifth newest failure is inside the window |
| RateLimit.LockoutTimeIsRight | src/ratelimit.rs:36-43 | the reported wait is the least that is at least one second and reaches the expiry of the oldest live failure, before which the address stays locked out; with no failure added it is enough if and only if the fifth newest has expired by then, always so when exactly five were live |
| LoginProtocol.DequeBound | src/routes.rs:165-202 | with at most k requests of an address between check and record, its recorded failures and requests in flight never exceed 4 + k |
| LoginProtocol.SpanBound | src/api.rs:59-93 | between successes no span shorter than five minutes holds more than 4 + k recorded failures of an address |
| LoginProtocol.SpanBoundIsReached | src/routes.rs:165-202 | for every k at least 1 a run in which one span holds exactly 4 + k recorded failures |
| Login.PostLogin | src/routes.rs:156-217 | the form checks, then records a failure or clears the address; a locked-out address gets the time left to wait |
| Login.ApiAuth | src/api.rs:48-97 | the API checks, records a wrong key, clears nothing, and records nothing for a missing or malformed header |
| LoginProtocol.AdmitsExactly | src/ratelimit.rs:32-44 | in every run with any number of requests in flight, a check is let through if and only if fewer than five failures since the last success are inside the window |
| Listing.OrderedUnique | src/db.rs:151-154 | there is one way only to put a set of rows in order |
| Listing.AllRecordsListing | src/db.rs:143-166 | the list has every record exactly once, newest first, ties by id |
| Listing.RecordsNewestFirst | src/db.rs:151-154 | the list has each record of the table once: greater `updated_at` first, then greater id first |
| Listing.AttachmentsOldestFirst | src/db.rs:195-228 | both attachment queries give exactly the rows of the records asked for: smaller `created_at` first, then smaller id first |
| Listing.AsManyAsChildren | src/db.rs:195-207 | a record's query has one row for each of its attachments |
| Listing.BatchRefinesPerRecord | src/db.rs:195-228 | one record's rows picked out of the batched query are its own query, in the same order |
| ListView.FillGroups | src/routes.rs:284-287 | groups the batched result by record, in order |
| ListView.TakeGroups | src/routes.rs:282-298 | each row gets exactly its own attachments and the map ends empty |
| ListView.CardSays | src/routes.rs:289-329 | a card has its record's id and stamp, the number of its attachments, how many there are beyond the first, the oldest of them, and is empty and flagged if and only if the blob does not decrypt |
| ListView.SavedCardSays | src/routes.rs:301-314 | the card of a saved record shows the submitted title, trimmed and cut at 200 characters, else the first line of the content, trimmed and cut at 80, else the placeholder, and the content's preview |
| ListView.BuildListView | src/routes.rs:270-343 | the page of cards, newest first, with counts, first attachment, clamped page number and both neighbours, each query seeing the tables of its own time |
| ListView.ApiListRecords | src/api.rs:262-327 | the API's page: the rows of the page asked for, newest first, the clamped number reported, each query seeing the tables of its own time |
| ListView.PageSizes | src/db.rs:143-166 | every page but the last is full, the last has a row unless there are no records, a page beyond it is empty |
| ListView.PageNewestFirst | src/db.rs:143-166 | every page has rows of the table, newest first |
| ListView.PagesPartitionTheList | src/routes.rs:273-341 | following `has_next` from page 1 takes exactly `total_pages` pages, which joined are the list |
| ListView.ViewIsClampedPage | src/routes.rs:270-280 | the rows are those of the reported page if and only if the request is at most 1, or there are several pages, or no records |
| ListView.ApiPageIsClamped | src/api.rs:267-277 | the API's rows are those of the page it reports if and only if the page asked for exists or there are no records |
| ListView.BeyondSinglePageIsEmpty | src/routes.rs:270-280 | one record, page 2 asked for: page 1 of 1 and no rows |
| ListView.ApiBeyondLastIsEmpty | src/api.rs:267-277 | the same request to the API: page 1 reported and no rows |
| Disposition.EncodeValue | src/files.rs:107-116 | the byte loop encodes the name |
| Disposition.ContentDisposition | src/files.rs:96-118 | both loops build the header: kind, quoted fallback, encoded name |
| Disposition.FallbackKeeps | src/files.rs:97-106 | the fallback keeps letters, digits, '.', '-', '_' and spaces in their places and has an underscore for every other character; no name becomes "file" |
| Disposition.OneByte | src/files.rs:107-116 | a letter, a digit, '.', '-' or '_' is sent as it is and every other byte as a percent sign and two more characters |
| Disposition.PlainNameIsKept | src/files.rs:96-118 | a name of such characters only is sent unchanged both times |
| Disposition.DecodeEncode | src/files.rs:107-116 | percent-decoding the value gives back exactly the bytes |
| Disposition.EncodeIsValueChars | src/files.rs:107-116 | the value has only attr-char and pct-encoded of section 3.2.1 of RFC 5987 |
| Disposition.HeaderReadsBack | src/files.rs:96-118 | the marker occurs at one place only, what follows it decodes to the name, the header has exactly two quotes, the fallback is not empty |
| Disposition.ValueNamesTheFile | src/files.rs:107-116 | different names have different values |
| Session.TokenRoundTrip | src/session.rs:51-72 | an issued token validates exactly until now + ttl |
| Session.ValidateExactly | src/session.rs:57-72 | a value validates if and only if it is `v1.`, a number that parses to a future expiry, and the hex digest of `v1.` and that expiry's decimal print |
| Session.ForgedExpiryFails | src/session.rs:45-72 | a value with the digest of another expiry does not validate, unless the two digests are the same |
| Session.HexDigits | src/session.rs:45-49 | each byte of a digest has its two lower-case hex digits at its place, the high half first |
| Session.HexInjective | src/session.rs:45-49 | different digests have different hex strings |
| Session.IssueSetCookie | src/session.rs:75-85 | the cookie is the name, the issued token and the attributes as they are sent; the name=value pair is its first piece |
| Session.ExtractValidSession | src/session.rs:98-109 | the verdict is that of `Session.FirstVerdict` on the pieces of the header |
| Session.FirstSessionDecides | src/session.rs:102-107 | the first session cookie decides, whatever it holds and whatever follows |
| Session.NoSessionNoVerdict | src/session.rs:108 | without a session cookie nothing is valid |
| Session.SplitRejoins | src/session.rs:102 | the pieces of the header with semicolons between them are the header |
| Session.CookieRoundTrip | src/session.rs:75-109 | an issued cookie after any other cookies and before anything is found and gets its own verdict |
| Session.ParseDecimal | src/session.rs:64-66 | printing a number below 2^64 and parsing it gives it back |
| Session.ParseExactly | src/session.rs:64-66 | a string parses to a number if and only if that is below 2^64 and the string is its decimal print after an optional plus sign and any number of zeros |
| Session.DecimalIsShortest | src/session.rs:45-54 | the decimal print of a number has no leading zero |
| Render.SaveTitleIdempotent | src/routes.rs:475 | storing a stored title changes nothing; at most 201 characters |
| Render.StoredTitleIsShown | src/render.rs:87-97 | a stored title that is not empty is shown as it is |
| Render.PlaceholderExactly | src/render.rs:87-97 | the placeholder shows if and only if title and first line are blank |
| Render.ShownTitle | src/render.rs:87-97 | the submitted title, trimmed and cut at 200 characters, else what is before the first line feed, trimmed and cut at 80, else the placeholder |
| Render.TruncateIdempotent | src/render.rs:74-81 | truncating twice is truncating once |
| Render.SnippetStable | src/render.rs:100-108 | the preview of a preview is itself, has no line feed and at most 161 characters |
| Render.OneLineNext | src/render.rs:100-107 | the preview of a line is the line trimmed; a line before other text puts its trimmed form and a dot in front of that text's preview, the dot only when neither is empty |
| Render.SnippetCut | src/render.rs:107 | the preview is cut at 160 characters |
| Text.TrimDropsBlank | src/render.rs:88 | trimming takes white space off both ends, all of it and nothing else |

## Left out

- AES-GCM, HMAC and SHA-256: functions with no property but the round trip of the cipher.
- The multipart wire format, HTTP, SQLite and the event-stream protocol: parts, chunks, replies,
  table functions and a queue stand for them.
- Power loss and file-system durability: only process crashes are modelled. A write that a file
  handle buffers and that fails later is not modelled; `FinalizeUpload` may fail instead.
- Failures of the list's own queries: while a client is connected its refetches are taken to
  succeed, and refetches of one page to run one after the other.
- LoginProtocol.DequeBound: bounds recorded failures, not attempts; an attempt that records nothing
  is not counted by the code either.
- Overflow of `(page - 1) * page_size` and of `now + ttl`: numbers are unbounded, and the session
  lemmas require an expiry below 2^64.
- The number of seconds in `Retry-After`, which drops fractions: the returned duration is modelled.
- HTML templates, languages, relative times, drag and drop, downloads, copying, the guard against
  foreign origins, configuration and the command-line client.
