# Venue Inventory, as a verified model

Four parts of the application share one SQLite database and one data directory,
and between them form a small distributed system: the customer's page with its
autosave queue, the request handlers of customers and administrators, the image
files that catalogue rows refer to, and the backup, restore and rollback
commands. This project models them in Dafny and proves what the code is written
to guarantee, over every run and every interleaving.

| file | models |
|---|---|
| `Numbers.dfy` | the decimal parsers of a request, and the digits in requests and file names |
| `Database.dfy` | the tables and constraints as a value, and each write transaction as one step |
| `Runs.dfy` | properties of whole runs: what a revision means, provenance, deletion, independence |
| `Handlers.dfy` | the handlers, statement by statement with their rollbacks, each equal to one step |
| `Page.dfy`, `Replies.dfy`, `BasketPage.dfy` | the browser script: what each event makes of the page, what that comes to card by card, and the mutable records and queue that do it |
| `Autosave.dfy`, `Convergence.dfy` | page, request in flight, server and everybody else, interleaved |
| `Images.dfy` | item create, update, delete and backup taking turns under the snapshot lock |
| `Checksums.dfy`, `Manifest.dfy`, `Verify.dfy`, `Archive.dfy`, `Restore.dfy` | an archive's listing and manifest, its verification, its creation and the staged restore |
| `DataDirectory.dfy` | the renames of restore and rollback, with a fault at any operation |
| `Naming.dfy` | the search for an unused name, and concurrent backups in one root |
| `RateLimit.dfy` | the sliding-window limiter |
| `Totals.dfy` | the grouped totals of the booking list and the totals of a reply |

Code that updates state is modelled by classes whose methods are proved equal to
functions on values (`Store`, `BasketPage`, `Tree`, the limiter's `Store`); the
run properties are then proved about those functions. Methods without state
(parsers, verification, totals, name search) keep the loops of the original.

Concurrency is interleaving. A run of the database is any sequence of committed
or rolled-back transactions, and the two reads behind a reply are two steps, so
anything may come between them. The image protocol and the archive names are
step machines with a program counter per actor, where a step may fail and an
actor may crash. The file system of a restore is a map from names to contents;
`fault` says which rename, directory creation or sync fails.

SHA-256, JSON text, SQLite's file readers, date parsing, `int(stem, 16)` and
`str.lower` are functions of a parameter `World`. What is relied on is
`Verify.Hashes` (feeding a hash in pieces is feeding it the whole, and digests
are 64 lower-case hex digits) and, for the round trip only, `Archive.Lawful`:
the names come back in order, a dumped manifest loads as itself, and 32
lower-case hex digits are a lower-case base-16 number.

## Where the obvious statement is false

* Equal revisions do not mean equal baskets: deleting an item removes rows of
  past bookings without moving a revision. `SameRevisionSameBasketLessDeletions`
  is the exact relation and `MissingRowWasPast` says which rows may go.
* Reading a reply's rows before its revision would be unsafe; the code reads the
  revision first. `RowsBeforeRevisionWouldBeUnsafe` is a run that shows it.
* `rollback_restore` does not undo a fault while it is still moving live entries
  out: its handler moves what is still live over the preserved state.
  `Tree.RollbackRestore` proves exactly when such a fault is harmless, and that
  a fault at the first rename overwrites the preserved database.
* `verify_backup` accepting an archive does not mean it restores: only the staged
  restore compares the images with the database. `StageRestore` has the exact
  condition, `AcceptedArchiveThatDoesNotRestore` a family of archives.
* A quiet page does not always have its last edits in the basket: a commit that
  fails drops the wish, newer edits of that card included, and leaves it to the
  Retry button. `FailedCommitKeepsOldBasket` is such a run; `PageConverges` has
  the exact condition.
* A name that `is_generated_image_filename` accepts may still make its archive
  unverifiable: `WrittenArchiveIsAccepted` has the exact condition,
  `DoubleSpaceIsNotCarried` a family of names.
* `docs/prd/venue-inventory-poc.md:82-84` says stock caps a selection only when it
  is first increased. The code refuses any quantity above the current stock, also
  a reduction to a value still above it (`app/views/customer.py:161`). The model
  follows the code; `StockCutBlocksReduction` is a run.

## Model

| member | source | states |
|---|---|---|
| Numbers.QuantityRoundTrip | app/baskets.py:39-50 | every number a page prints is read back as itself, or refused exactly above 2,147,483,647; the digit limit refuses nothing legal |
| Numbers.RevisionRoundTrip | app/views/customer.py:320-329 | the same for revisions and the signed 64-bit limit |
| Numbers.ParseAccepts | app/baskets.py:39-50 | of all texts exactly those are accepted that are blanks, zeros, the decimal of a number, and blanks, within the digit limit and the maximum; the result is that number |
| Database.ApplyKeepsIntegrity | app/models.py:89-106 | every step keeps positive quantities, both foreign keys and the id counter ahead of every booking |
| Database.RunKeepsIntegrity | app/models.py:47-106 | so does every run |
| Database.CustomerWriteMeans | app/views/customer.py:116-192 | the customer's write in terms of the tables: an exact condition for every answer; saved means one row set and one revision up, anything else that nothing changed |
| Database.AdminWriteMeans | app/views/admin.py:323-353 | the administrator's write stores the very quantity, above the stock and on hidden items too, and nothing else but one revision; or nothing at all |
| Database.BookingStepsMean | app/views/admin.py:205-222 | a new booking, a changed date and a removal, each with all it leaves alone |
| Database.ItemStepsMean | app/views/admin.py:489-551 | a new item, and a change of stock or visibility, each with all it leaves alone |
| Handlers.Store.ReplaceSelection | app/baskets.py:227-252 | after the call the row is absent for zero and holds the quantity otherwise, and no other row has changed |
| Handlers.Store.SelectionUpdate | app/views/customer.py:94-194 | an exact condition for every answer: malformed, stale, not found, unavailable, out of range, failed and saved, in the order of the checks; saved sets exactly one row and moves one revision by one, any other answer leaves everything as it was |
| Handlers.Store.BookingSelectionUpdate | app/views/admin.py:323-353 | ignores stock, visibility and the expected revision: a committed write leaves the row with exactly the given quantity, or without one for zero, moves the revision by one and changes nothing else; an uncommitted one changes nothing |
| Handlers.Store.BasketItems | app/baskets.py:159-199 | the outer join gives every visible or selected item, and no other, with its quantity or zero, its stock and its visibility |
| Handlers.Store.ItemDelete | app/views/admin.py:577-626 | all or nothing: blocked exactly if a booking on or after the captured day selects the item; if removed, exactly the item and its rows are gone, and they are the rows the past-rows statement took |
| Handlers.Store.BookingDelete | app/views/admin.py:368-388 | takes the booking with exactly its selections, its code and its sessions, or nothing |
| Handlers.Store.BookingCreate | app/views/admin.py:192-249 | a booking is created exactly if one of the ten codes has an unused digest and no other failure comes first; it takes the first such code and an id never in use, and starts at revision 0 with an empty basket; otherwise nothing changed |
| Handlers.CascadeIsVacuousExactlyWhenUnblocked | app/views/admin.py:586-602 | after the past rows are gone the foreign-key cascade removes something if and only if a booking blocks |
| Runs.RevisionCountsAcceptedWrites | app/views/customer.py:116-126 | over every run a booking's revision has grown by exactly the accepted writes to it, and a deleted booking's id never comes back |
| Runs.RejectedStepKeepsBasket | app/views/customer.py:127-171 | a step that does not move a booking's revision leaves its basket alone, except for the row of an item it deletes |
| Runs.SameRevisionSameBasketLessDeletions | app/views/admin.py:586-602 | between two moments with the same revision the basket has lost exactly the rows of items deleted in between |
| Runs.MissingRowWasPast | app/views/admin.py:569-593 | each lost row was lost to a deletion at which its booking lay before the captured day |
| Runs.AcceptedWriteActsOnShownBasket | app/baskets.py:202-224 | for any transactions between reading the revision, reading the rows and the write: a write accepted at the revision shown acts on the basket shown, less only rows that deletion took from a past booking, and sets one row |
| Runs.RowsBeforeRevisionWouldBeUnsafe | app/baskets.py:203-206 | with the two reads swapped there is a run in which a write is accepted on a basket never shown |
| Runs.OverrunIsTheAdministrators | app/views/customer.py:139-180 | a row above stock or on a hidden item has an administrator write, stock cut or hide after its last customer write |
| Runs.ReductionNeedsStock | app/views/customer.py:161-171 | a customer may reduce a row of a visible item to a quantity exactly if that quantity is in stock |
| Runs.StockCutBlocksReduction | app/views/customer.py:161-171 | a run: five held, the stock cut to three, and going down to four is out of range |
| Runs.DeletionRemovesOnlyPastSelections | app/views/admin.py:582-616 | item deletion changes nothing, or removes the item and only selections of bookings dated before the captured day |
| Runs.NoCurrentSelectionIsLost | app/views/admin.py:564-626 | with a clock that does not go back, and any writes and date edits since the day was captured, no selection current at commit time is lost |
| Runs.RunOnSolo | app/views/customer.py:94-194 | a booking's replies and state in the shared database are those of a database that has only this booking and receives only its own steps and the catalogue's |
| Runs.BookingsAreIndependent | app/views/customer.py:94-194 | two runs with the same catalogue steps and the same steps on a booking give it equal replies, revision and selections, whatever other bookings do |
| Page.EventKeepsQueue | app/static/js/basket.js:52-150 | each event keeps the queue invariant, sends at most one request and only when none is in flight; only a user's event adds to the work outstanding |
| Page.QueueInvariant | app/static/js/basket.js:52-254 | at every event boundary of every run: queued if and only if in the queue, once; every unsent edit is queued or about to fire; an idle page has an empty queue; requests sent and replies taken differ by what is in flight |
| Page.RequestsAfterLastEditAreBounded | app/static/js/basket.js:82-150 | after the last user event at most as many more requests are sent as cards then held an unsent edit, whatever timers and replies do |
| Page.QuietPageHasNothingUnsent | app/static/js/basket.js:82-90 | nothing in flight and no timer running means no unsent edit |
| BasketPage.BasketPage.constructor | app/static/js/basket.js:10-39 | page load makes one record per card, an empty queue and no request |
| BasketPage.CardState.Note | app/static/js/basket.js:52-72 | what an edit does to a card's record: valid, invalid, locked, delayed or immediate |
| BasketPage.CardState.SetAvailability | app/static/js/basket.js:294-316 | locking a card stops its timer and drops its unsent and remembered quantities |
| BasketPage.BasketPage.Drain | app/static/js/basket.js:82-102 | the recursion over the shared queue of records turns the page into `Page.Drain` of what it was |
| BasketPage.BasketPage.Enqueue | app/static/js/basket.js:74-80 | queues a record once and drains |
| BasketPage.BasketPage.Schedule | app/static/js/basket.js:52-72 | an input or change event turns the page into `Page.Schedule` of what it was |
| BasketPage.BasketPage.RetrySave | app/static/js/basket.js:238-246 | the retry button likewise |
| BasketPage.BasketPage.RefreshAll | app/static/js/basket.js:264-291 | the walk over a reply's entries, in any order, refreshes exactly the listed cards it names |
| BasketPage.BasketPage.HandleSaved | app/static/js/basket.js:152-196 | a saved reply keeps newer wishes and invalid drafts, and drops an emptied card from the basket-only view |
| BasketPage.BasketPage.HandleRefused | app/static/js/basket.js:198-236 | stale and failed saves never resend on their own and remember the newest wish |
| BasketPage.BasketPage.HandleStockChange | app/static/js/basket.js:205-218 | a stock refusal resends a newer valid wish and otherwise falls back to the server's value |
| BasketPage.BasketPage.Settle | app/static/js/basket.js:118-145 | the choice among the reply handlers, for every code the endpoint sends, and for replies that cannot be read |
| BasketPage.BasketPage.Receive | app/static/js/basket.js:104-150 | a reply, its handler, and the release that follows whatever happened turn the page into `Page.Handle` of what it was |
| Replies.UnavailableReplyLocks | app/static/js/basket.js:127-135 | after item_unavailable the card is locked, with nothing unsent, remembered, armed or in flight, whether or not the reply has a row for it |
| Replies.NotFoundReplyForgets | app/static/js/basket.js:136-140 | after item_not_found the wish is given up and the card otherwise only shows the reply |
| Replies.OutOfRangeReply | app/static/js/basket.js:205-218 | a newer wish valid under the new stock is pursued; otherwise the card shows the server's value and remembers nothing |
| Replies.SavedReply | app/static/js/basket.js:152-196 | an invalid draft stays, a newer wish is pursued, otherwise the card shows the saved quantity and leaves the basket-only view at zero |
| Replies.RefusalReply | app/static/js/basket.js:198-236 | stale, failed, malformed and unreadable replies resend nothing, keep the text, and leave the newest wish to the Retry button of an unlocked card |
| Replies.ReplyForOtherCard | app/static/js/basket.js:256-291 | every other card takes stock, quantity and availability from its row, if it is listed and has one; unsent wishes are pursued unless the row locks the card |
| Replies.EditMeans | app/static/js/basket.js:52-80 | what an edit does to its card and to the queue, locked, invalid or valid, delayed or immediate, and that no other card changes |
| Replies.RetryMeans | app/static/js/basket.js:238-246 | the retry button sends what was remembered, unless nothing was or the card is locked |
| Replies.TimerMeans | app/static/js/basket.js:69-80 | an armed timer hands its card's wish over, once |
| Autosave.ReplyTakesRevision | app/static/js/basket.js:256-259 | every parsed reply, of any code, brings the page to its revision, and the next request carries it |
| Autosave.ParsesIsParsing | app/views/customer.py:97-109 | the server refuses a request as malformed exactly if one of the numbers the page printed exceeds its limit |
| Autosave.MoveKeepsAccount | app/views/customer.py:127-137 | every move keeps: stale rejections, requests given up on and a page out of step are paid for by foreign writes and lost replies |
| Autosave.StaleRejectionsArePaidFor | app/views/customer.py:127-137 | over any run of one page on a surviving booking, stale rejections are at most foreign accepted writes plus lost replies |
| Autosave.LostRequestMayBeServed | app/static/js/basket.js:144-149 | a request whose reply the page gave up on may still be served, as if it had been answered, and only once |
| Convergence.CalmRunStaysOnTrack | app/static/js/basket.js:52-229 | while the page is the only writer, the catalogue stands still and no reply is lost, every wish is pending, on its way, in the basket, or refused since and remembered for the Retry button; commits may fail at any point |
| Convergence.PageConverges | app/static/js/basket.js:52-229 | then no request is rejected as stale, and for each unlocked card of a quiet page the basket holds the last valid edit if and only if no refusal has answered the card since that edit, or the refusal showed that very quantity; a refused card keeps what the reply showed and its wish as last attempt |
| Convergence.FailedCommitKeepsOldBasket | app/static/js/basket.js:220-236 | a run in which one failing commit leaves a quiet page and a basket without the edit |
| Convergence.EditIsSaved | app/static/js/basket.js:52-196 | from an idle page in step with the server, an edit in stock with nothing going wrong ends in the basket, with one revision up on both sides and the page idle and showing it |
| Convergence.LoadedPageIsFresh | app/static/js/basket.js:15-39 | a page rendered from the database, with any of its rows, is where these runs start |
| Images.StepIsSound | app/views/admin.py:438-529 | each step of create, update, delete and backup, failing or crashing, keeps the reference invariant, the lock discipline and every other actor's claims |
| Images.CommittedCreate | app/views/admin.py:452-471 | a committed create adds one row with the upload or none; a failed one changes no row and cleans its upload up |
| Images.CommittedUpdate | app/views/admin.py:504-528 | a committed update leaves the upload if there is one, none if the loaded image is removed, else what the row held; it cleans up exactly the image it replaced or removed, or its own upload if it failed |
| Images.CommittedRemoval | app/views/admin.py:507-528 | on a row unchanged since it was loaded, removal empties the row and cleans up exactly its image |
| Images.CommittedDelete | app/views/admin.py:578-629 | a committed deletion removes exactly its row and cleans up its image |
| Images.UploadMeans | app/images.py:46-74 | an upload becomes a complete file with the uploaded data under the new name, and no temporary file stays |
| Images.FailureMeans | app/images.py:74-84 | a failing upload or a crash changes no row and no final file and gives the lock back |
| Images.WholeCreate | app/views/admin.py:438-473 | the whole undisturbed request: row, file and lock at its end |
| Images.WholeUpdate | app/views/admin.py:489-529 | the same for an update, with or without an upload or a removal |
| Images.WholeDelete | app/views/admin.py:564-630 | the same for a deletion |
| Images.WholeBackup | app/backups.py:101-117 | an undisturbed backup finishes with exactly the referenced images and their bytes |
| Images.ReferencedImagesExist | app/images.py:63-74 | at every moment each committed image is a complete file and no two items share one |
| Images.RetiredNamesStayRetired | app/views/admin.py:492-528 | a name once dereferenced is never referenced again, although an update unlinks a name it read before the lock |
| Images.BackupIsCoherent | app/backups.py:363-388 | a finished backup holds exactly the images its database copy references, with the bytes they had at one moment of the run; the missing-image error cannot happen |
| Images.LockDiscipline | app/snapshot_lock.py:19-35 | after any step at most the lock's owner is inside the locked region, and no other program's local state has moved |
| DataDirectory.Tree.ApplyStagedRestore | app/backups.py:669-703 | succeeds exactly if no operation faults; for a fault at any operation the live four names are as before and nothing is left under prior; on success live is the staged pair without sidecars and prior the old state; no rename ever overwrites, and at every step each old entry is in exactly one of live and prior, under whose name at most the staged entry lives |
| DataDirectory.Tree.RollbackRestore | app/backups.py:253-305 | succeeds exactly if there is a prior database and no operation faults, and then puts the prior state back, sidecars included; a fault after the move-out leaves live and prior as they were; a fault while moving out does so if and only if non-empty prior images were all that was at stake |
| DataDirectory.Tree.RestoreThenRollback | app/backups.py:214-305 | restore, any application changes, rollback: both succeed exactly if nothing faults, and then the four names are exactly what they were |
| DataDirectory.Tree.MoveAll | app/backups.py:679-684 | the move-out loop moves exactly the existing names up to the one that faults |
| DataDirectory.StruckEntryLeaves | app/backups.py:295-299 | after a fault while moving out, the handler takes the entry that was struck away from live unless it is refused |
| Checksums.ParseChecksums | app/backups.py:611-623 | the parsing loop computes `Parsed` |
| Checksums.ListingMeans | app/backups.py:611-623 | any payload is accepted exactly if it is ASCII and each line is a digest, a double space and a path without one; the result assigns them in order |
| Checksums.ListingReadsBack | app/backups.py:481-485 | a printed listing reads back as its map if and only if every path is ASCII without line breaks and double spaces; otherwise it does not read at all |
| Checksums.AssignedAt | app/backups.py:172-175 | with distinct paths the map gives each path its own digest |
| Manifest.ParseManifest | app/backups.py:559-608 | accepts a JSON value exactly if it describes a manifest, and returns that one |
| Manifest.OrderedAndDifferent | app/backups.py:596-599 | the order test and the duplicate test together mean strictly ascending names |
| Manifest.LessMeans | app/backups.py:596-597 | the order is that of code points: a proper prefix, or smaller at the first difference |
| Manifest.PrintedManifest | app/backups.py:456-480 | a printed manifest is read back exactly if it is well formed, and then as itself |
| Manifest.UuidPathIsPrintable | app/images.py:63-66 | a generated name can be carried by a line of the listing |
| Archive.PlainIsCarried | app/images.py:120-128 | so can any other accepted name of plain characters, with a sign or underscores |
| Archive.DoubleSpaceIsNotCarried | app/images.py:120-128 | a name with two adjacent spaces cannot, although it may be accepted |
| Verify.HashMember | app/backups.py:532-556 | the chunked read gives the digest, the length and a copy of the whole content |
| Verify.ValidateTarMembers | app/backups.py:500-514 | accepts exactly non-empty lists of distinct, safe, regular members |
| Verify.ComponentsMean | app/backups.py:504-512 | the components that must be plain are what the slashes of a name separate |
| Verify.CheckMembers | app/backups.py:180-200 | the loop passes if and only if every data member matches the manifest in digest and length |
| Verify.VerifyBackup | app/backups.py:153-211 | accepts exactly the archives whose names are the manifest's paths, whose listing is the manifest's map, whose data members match it and whose database is valid at its revision; returns that manifest |
| Archive.ReferencedImageFilenames | app/backups.py:391-407 | returns the rows exactly if they are readable, distinct and of the generated form |
| Archive.CopyReferencedImages | app/backups.py:363-388 | copies exactly the referenced files, with their digests and lengths, or fails exactly if one is missing |
| Archive.BuildArchive | app/backups.py:101-131 | an archive is built exactly if the database is valid, its revision and references readable, every image there and every name ASCII |
| Archive.LinesRoundTrip | app/backups.py:481-485 | the listing of a well-formed manifest reads back as the map verification expects, if and only if every path can be printed |
| Archive.WrittenArchiveIsAccepted | app/backups.py:456-497 | the archive written for a consistent manifest is accepted if and only if listing and tar file can carry every image name, and with that manifest only |
| Restore.ValidateStagedRestore | app/backups.py:649-666 | passes exactly if database, images and references are those of the manifest |
| Restore.AcceptedIsStagedRight | app/backups.py:649-666 | for an accepted archive only the references can still be wrong |
| Restore.StageRestore | app/backups.py:214-240 | an archive restores exactly if it is acceptable and its database references exactly its images |
| Restore.RoundTrip | app/backups.py:101-132 | the archive of any data directory is accepted, with its own manifest, if and only if every name is carried; it restores to the snapshot's bytes and exactly the referenced files |
| Restore.CreateBackup | app/backups.py:76-150 | a backup succeeds exactly for directories that can be backed up and whose names are carried |
| Restore.BackupThenStage | app/backups.py:76-240 | for those directories and no others, backup then staged restore returns the snapshot and its referenced files |
| Restore.AcceptedArchiveThatDoesNotRestore | app/backups.py:664-666 | archives that verify and do not restore |
| Restore.RestoreBackup | app/backups.py:214-250 | succeeds exactly if the archive is restorable, a target that must be empty is, and neither the ownership step nor a rename faults; then its content lives and the old state is prior; on any failure the live state is as before; the stage is always gone |
| Naming.NextUnused | app/backups.py:731-738 | the search ends and returns the first unused name |
| Naming.FirstCandidates | app/backups.py:758-766 | the names tried are the plain one, then `-2` and so on in decimal |
| Naming.StepIsSound | app/backups.py:96-150 | each step of any backup keeps: one holder per name, old names untouched, verified files still the verified ones |
| Naming.NoOneElsesArchive | app/backups.py:770-788 | no step overwrites or removes a name that was there before or that another backup holds |
| Naming.FinishedRoot | app/backups.py:132-150 | once all have finished without a crash every new name holds a verified archive published by exactly one backup, and no temporary file is left |
| Naming.VerifiedIsPublished | app/backups.py:135-150 | a verified backup that replaces and cleans up is done with its name published under the very bytes that were verified, whatever other backups do before, between and after |
| Naming.WholeBackup | app/backups.py:96-150 | an undisturbed backup leaves the old root plus its archive under the first free name of its timestamp, without its temporary file |
| Naming.FailureUnwinds | app/backups.py:105-135 | a failure, a refusal by the verification and a failing replace all lead to the cleanup, with every final name as it was |
| Naming.FailureGivesBack | app/backups.py:145-150 | that cleanup leaves neither the reservation nor the temporary file |
| Naming.PublishedStays | app/backups.py:133-135 | a published archive is never changed again |
| Naming.SearchEnds | app/backups.py:758-767 | an undisturbed search ends within as many probes as there are entries, plus one |
| Naming.FailedClaimLostRace | app/backups.py:779-786 | a claim fails only because another backup claimed the name since it was found free |
| Naming.RetriesArePaidFor | app/backups.py:779-786 | over any run, a backup's failed claims are at most the names other backups reserved |
| Naming.RetriesAreBounded | app/backups.py:779-786 | and so at most the number of other backups |
| RateLimit.Store.FailedAttempts | app/rate_limit.py:26-30 | the pruning count is the count over the full history as long as `since` has not gone back |
| RateLimit.Store.RecordFailure | app/rate_limit.py:32-34 | appends to one key's history and to no other |
| RateLimit.Store.Clear | app/rate_limit.py:36-38 | forgets one key's history and no other |
| RateLimit.RateLimiter.IsBlocked | app/rate_limit.py:55-57 | blocks exactly when the full history holds at least the limit of failures later than the window's start |
| RateLimit.PruneKeepsLater | app/rate_limit.py:26-30 | a list pruned at one moment still counts right from any later one |
| RateLimit.CheckedThenRecorded | app/views/admin.py:97-113 | a request is let through and its failure recorded exactly if fewer failures than the limit lie in the window |
| RateLimit.WindowBound | app/views/admin.py:97-113 | with at most n requests between check and record, a window without a reset holds at most the limit minus one plus n failures |
| Totals.CountRows | app/baskets.py:90-101 | the one-pass grouping gives each booking with rows its own count and sum |
| Totals.BookingListTotalsOf | app/baskets.py:79-146 | for any list of ids, repeated or unknown ones included, the merged queries give each booking the count, unit sum, negative flag and hidden flag of its own basket, each as of the moment its query ran |
| Totals.UnitsLess | app/baskets.py:211-222 | the sum over a basket does not depend on the order |
| Totals.SnapshotAgreesWithList | app/baskets.py:202-224 | a reply's totals over the joined items are those of the booking list |

## Left out

- Flask routing, templates, styles, cookies, headers, CSRF, logging, configuration and migrations: plumbing and library behaviour.
- Sign-in, sessions, access codes, booking-list filters and form validation: one branch settles each of them.
- Image decoding and resizing, hashing, gzip and tar encoding, JSON text and SQLite internals: functions of `World`, or of the model's state.
- The page's status text, badges, focus, disabled flag and empty-state markup; inputs are the number they spell or none.
- BasketPage.BasketPage.Receive: exceptions inside the page's own reply handlers, and a reply whose JSON is of another shape than the endpoint's, are not modelled; failed fetches and unreadable bodies are.
- `item_toggle_visibility`, `booking_update` and the form of `item_update`: steps of the database model, without a handler method of their own.
- Item names, descriptions and timestamps.
- Revisions beyond signed 64 bits: numbers in the database are unbounded.
- `prune_backups`, `remove_stale_uploads`, the restore drill and the command line.
- Ownership and modes, and durability beyond "this sync may fail"; compensating renames and `rmtree` are taken to succeed.
- Images.StepIsSound: the four handlers are step machines and not class methods, because their interleaving is the point; a program's local state is its phase.
- Restore.RestoreBackup: runs alone; rows written by the application while the files are being replaced are not modelled, nor is the refusal of the root directory.
- Naming.FinishedRoot: an error in the cleanup's own unlink counts as a crash.
- Totals.BookingListTotalsOf: assumes the schema's constraints at each of the three moments, which every step keeps.
