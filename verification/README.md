# Receipt pipeline: a verified model

The application turns card-alert emails into charges, asks for a receipt in a
Discord channel, stores what people upload, deletes the upload once it is safely
on disk, and reminds about, ages out and exports what is left.  This project
models that pipeline as a relational state with a job queue, a disk and a
channel, and proves what its design rests on:

* no uploader's message is deleted except by a finalize run whose own check
  found every payload attachment of the charge intact, that upload's among them
  (`Finalizing`, on the custody argument of `Custody`);
* nothing behind the saved mail cursor is lost, whatever is replayed
  (`Polling`), and each stored email has exactly one charge;
* over every run of every handler: no row refers to a deleted charge, so reused
  ids are safe; charges that ask for a receipt have none; refund links are
  injective and chain-free (`Invariants`, `Lifecycle`, `Runs`);
* the job queue ensures one outstanding job per key, takes exactly the first due
  jobs, and does a bounded amount of work (`Outbox`, `OutboxRuns`); a handler's
  report reaches its job exactly when no discard hits a running one (`Reports`);
* amounts survive printing and reading, in every regional spelling and with the
  currency the text names (`Amounts`, `AmountLaws`, `Currencies`); normalising a
  text keeps its layout (`Normalize`, `Layout`); greedy refund links are as many as possible (`Refunds`); digest
  messages are packed into the fewest chunks (`Chunking`); in an export of any
  run a name stands for one receipt (`ExportNames`, `Exports`).

## How it is built

`Schema` holds the tables as maps keyed by row id and the class `Database`, whose
fields the handlers update; `Db` is its committed value.  Every handler that
changes the tables is a method on `Database`, one session per call, with the
loops of the source, proved against a function or relation on `Db`
(`Enqueued`, `Ingested`, `Silenced`, `Linked`, `ChargeDeleted`, ...).  What each
of those does is then told once more, independently, by the columns of the rows,
the characters of the texts or plain numbers (`IngestedRows`,
`FinalizeDeletesExactly`, `SlugIsItsWords`, ...).  The events of the state machines
(`Lifecycle.Step`, `Finalizing.Next`, `Polling.PollStep`, `OutboxRuns.Apply`,
`Reports.Moved`) are the same functions and relations.  `Storage.Disk` and
`Tasks.Channel` are the files and the messages; a text column that the code only
tests for truth uses "" for NULL; times are seconds; message ids are numbers.

What the source leaves to its environment is a parameter: regular expressions
(`Ingest.Regex`, `ParseRules.Email`, `Web.Parser`), the checksum
(`Storage.Hash`), what normalization and the disk make of a file, Discord's
answers, the clock, the ids Discord hands out, and the codes concurrent writers
hold.  Statements hold for all of them; what needs a collision-free checksum
says so.

`dafny verify dfyconfig.toml` checks the project.

## Where the code differs from its own description

* The schema comment "same photo sent twice attaches once" (app/models.py:385):
  the second link violates the constraint and the handler raises, so the second
  upload stays in the orphan queue (`Capturing.FiledWhereResolved`).
* A message with two storable files raises after the first was captured, before
  anything is linked (`Capturing.CaptureMessage`).
* A short-code collision can lose an email after all, if and only if all five
  attempts collide; the cursor moves on (`Polling.CollisionsLoseOnlyTogether`,
  `Polling.RaisedIsPassed`).
* An image that is only rotated is re-encoded without being declared converted
  and so is refused (`Storage.UndeclaredConversionIsRefused`).
* Attaching by hand does not ask whether the attachment is assigned;
  `Runs.AttachKeepsInvExactly` says exactly when that does harm.
* The edit form that answers it could not read the amount or the status has
  already saved the fields before it, because the session commits on a redirect
  (`Web.RefusedEditSavesNothingExactly`).
* With a lapse window under a day the digest can miss a charge the next sweep
  lapses (`Runs.ShortWindowsMiss`).
* Only the last date is remembered, so a date fires again exactly when another
  one fired since (`Scheduling.DateRepeatsExactly`).
* A message of which only some files could be stored is answered "left in place"
  (app/discordbot/bot.py:440-448), yet it is filed, verified and deleted for the
  file that was stored; the others go with it
  (`Capturing.FiledMessageIsWholeExactly`, `Finalizing.DeletedMessageKeepsAllExactly`).
* The edit form can set a status that contradicts the receipts
  (`Runs.EditKeepsInvExactly`); the runs set only statuses that do not.
* Receipt names are injective on codes only up to the characters that file
  systems refuse (`ExportNames.NamesCollideExactly`); on the codes that runs
  allocate they are injective (`Exports.NameTellsTheReceipt`).
* A code of ten digits is allocated like any other but never read back from a
  message (`Matching.CodeFindsCharge`).
* The worker reports by row id.  Reports reach their jobs if and only if no
  discard hits a running job (`Reports.ReportsReachTheirJobs`); after one that
  does, the report can settle another job that reuses the id (`Reports.LateReport`,
  `Reports.StaleFinishSettlesAnotherJob`).

## Model

| member | source | states |
|---|---|---|
| Outbox.Enqueue | app/services/jobs.py:47-104 | adds a job under its key, replaces a finished holder of the key, answers nothing when the key is outstanding, and touches no other row |
| Outbox.EnqueueEnsuresOnce | app/services/jobs.py:56-104 | afterwards exactly one row has the key and it is outstanding; None exactly when one was before; rows under other keys are the same rows |
| Outbox.EnqueueUnkeyed | app/services/jobs.py:80-86 | a job without a key is always added and nothing else changes |
| Outbox.EnqueueAnswers | app/services/jobs.py:80-104 | row by row: nothing is added exactly when a pending or running job has the key; otherwise the job gets its own row, a finished one with the key goes, all others stay |
| Outbox.Claim | app/services/jobs.py:123-139 | marks exactly the claimable rows running with one more attempt and hands them out in order |
| Outbox.ClaimableIsPrefix | app/services/jobs.py:125-132 | a claim takes due pending jobs in (next_run_at, id) order, as many as the limit allows, and every due job left behind comes later than all it took |
| Outbox.ClaimTakesTheFirst | app/services/jobs.py:125-138 | of two due rows the one with the earlier time, or the same and the smaller id, is taken first; a due row is left only when the limit was reached |
| Outbox.ClaimTakesDueRows | app/services/jobs.py:125-138 | the rows taken were pending and due and are running with one more attempt; no other row changes |
| Outbox.ClaimHandsOut | app/services/jobs.py:133-139 | what is handed out: each taken row once, with its kind and payload, earliest first |
| Outbox.Finish | app/services/jobs.py:142-163 | done on success, dead when attempts are used up, otherwise pending after the wait; nothing for a vanished row |
| Outbox.FailureIsRetried | app/services/jobs.py:153-162 | a failed job with attempts left is due again after 2, 4, 8, 16, 32, 64, 128, 256, 512 seconds and after 600 from the tenth attempt on; no other row changes |
| Outbox.ResetOrphanedJobs | app/services/jobs.py:107-120 | every running job is pending now, none is running, others stay |
| Outbox.ReviveDead | app/services/jobs.py:245-260 | every dead job is pending with its attempts reset, others stay; counts them |
| Outbox.DiscardForTransaction | app/services/jobs.py:215-228 | removes exactly the jobs whose payload names the charge, in any status |
| Outbox.WorkKeepsRows | app/services/jobs.py:107-163 | claiming, finishing, recovering and reviving add, remove and rename no row |
| OutboxRuns.StartsAreBounded | app/services/jobs.py:133-156 | in every run, a handler starts at most max_attempts times plus the crashes that caught it running |
| OutboxRuns.ValidExtends | app/services/jobs.py:47-163 | every queue operation keeps keys unique, so the runs of the theorems below stop for no other reason than a discard of a running job |
| OutboxRuns.BoundIsAttained | app/services/jobs.py:107-120 | a job can be started that often: a crash loop spends no retry |
| OutboxRuns.ClaimSpendsStarts | app/services/jobs.py:133-138 | a claim lowers the starts left over all jobs by exactly the jobs it takes, and the remaining work with them |
| OutboxRuns.FinishSpendsWork | app/services/jobs.py:142-163 | a handler's outcome lowers the remaining work |
| OutboxRuns.WorkTerminates | app/services/jobs.py:123-163 | without crashes, new jobs or revivals a run of claims and outcomes is no longer than the work there is |
| OutboxRuns.WorkRemainsUntilSettled | app/services/jobs.py:123-163 | work is possible exactly while some job is neither done nor dead, so a finished run leaves all settled |
| OutboxRuns.DeathTakesItsTime | app/services/jobs.py:153-162 | a job of n attempts that dies has waited at least 2^n - 2 seconds, for n up to ten, and 1022 + 600(n - 10) beyond |
| OutboxRuns.FailingRunDies | app/services/jobs.py:153-162 | and a job that always fails and is run when due dies after exactly that time |
| OutboxRuns.LifetimeTable | app/services/jobs.py:153-162 | that time for one to ten attempts, in seconds: the default eight wait 254 |
| OutboxRuns.EarlierDueStartsNoLater | app/services/jobs.py:125-132 | of two fresh jobs the one due earlier is started no later, in every run that leaves them alone |
| Reports.ReportGoesToTheRow | app/services/jobs.py:142-163 | a handler that still has its job settles exactly that job, once |
| Reports.ReportsReachTheirJobs | app/services/jobs.py:123-228 | in every run every handler in flight has the job it was handed, at every moment, if and only if no discard hits a running job |
| Reports.LateReport | app/services/jobs.py:142-146 | after a discard of a running job its report never reaches it, and changes the table if and only if the freed id is in use again and the report moves the other job now there |
| Reports.StaleFinishSettlesAnotherJob | app/services/jobs.py:142-146 | for every table, discard, enqueue and late report in a row: the report falls on the new job if and only if that took the freed id, for a job without a key exactly when that id is the next one |
| Reports.NextIdIs | app/services/jobs.py:80-86 | the next row id is this one if and only if it is one past the highest left, or 1 when none is left |
| Keys.KeyTextIsInjective | app/services/jobs.py:50-52 | two keys have the same text exactly when they are the same key |
| Keys.KeyTexts | app/services/ingest.py:284-289 | the key texts themselves: family, then numbers, between colons |
| ShortCodes.NextShortCode | app/services/shortcode.py:26-32 | the code is one past the highest, at least 1000, and free; the search loop never moves |
| ShortCodes.NextCodeFollows | app/services/shortcode.py:26-32 | of charges with allocated codes the next is the least number from 1000 on above them all |
| ShortCodes.Allocate | app/services/shortcode.py:35-62 | inserts the charge under the next code at a fresh id, touching nothing else; fails exactly when every attempt collides |
| ShortCodes.WrittenCodeIsFound | app/services/shortcode.py:65-73 | for every text around it, a code of three to nine digits after a # that no word character follows is found: after the codes of the text before, before those of the text after |
| ShortCodes.LongCodeIsPassedOver | app/services/shortcode.py:65-73 | a number of ten digits or more after a # is no code and hides none that follows |
| ShortCodes.ExtractedExactly | app/services/shortcode.py:65-73 | a code is extracted if and only if it stands somewhere in the text: a #, white space, three to nine digits, then the end or no word character |
| ParseRules.ParseEmail | app/services/parsing.py:262-296 | the fields come from the least (priority, id) enabled rule that matches the envelope and extracts; otherwise all tried rules in order, or none |
| ParseRules.OutcomeIs | app/services/parsing.py:262-296 | told by the rules: smallest priority, then smallest id, among enabled fitting rules that find fields; the failures name the fitting rules in that order |
| ParseRules.OutcomeIgnoresListOrder | app/services/parsing.py:270-273 | the outcome depends on the set of rules, not on the order of the list |
| Normalize.NormalizeText | app/services/parsing.py:121-129 | computes the normal form of the text |
| Normalize.NormalizedIsNormal | app/services/parsing.py:121-129 | no CR or tab, no double blank, no trailing blank, no three newlines in a row, nothing to strip |
| Normalize.NormalizeIsIdempotent | app/services/parsing.py:121-129 | normalizing twice is normalizing once, and exactly the normal texts stay as they are |
| Layout.NormalizingKeepsTheText | app/services/parsing.py:121-129 | every visible character stays in its place, and between two of them there was white space, one line break, or more, exactly as before |
| Amounts.ParseAmount | app/services/parsing.py:132-177 | reads an amount and currency as the specification function does, failing where it fails |
| AmountLaws.MoneyRoundTrip | app/formatting.py:13-21 | for every integer and three-capital code the reader gives back what `money` printed, amount and currency |
| AmountLaws.MoneyPlainRoundTrip | app/formatting.py:24-30 | the reader gives back what `money_plain` printed |
| AmountLaws.FormatIndependence | app/services/parsing.py:401-417 | six regional spellings of w units and c cents all read as 100w + c |
| AmountLaws.GroupingIndependence | app/services/parsing.py:401-437 | every grouping of a whole number reads as 100w |
| AmountLaws.SpellingsAndSigns | app/services/parsing.py:147-160 | a leading minus, a trailing minus and parentheses each negate a spelling |
| AmountLaws.LoneSeparator | app/services/parsing.py:420-437 | with one separator, three digits after it and one to three before without a leading zero are thousands; anything else is a fraction |
| AmountLaws.RoundHalfUpMeans | app/services/parsing.py:172-177 | rounding to cents is the one integer within half a unit, ties away from zero |
| AmountLaws.CodeSuffix | app/services/parsing.py:374-398 | a code of three capitals after the number never disturbs it: a known one is answered, with an unknown one the default is, whatever the default |
| Currencies.PrefixedDollar | app/services/parsing.py:382-389 | each of the thirteen prefixed dollar signs names its own currency, for every sign, default and spelling |
| Currencies.BareSymbol | app/services/parsing.py:391-398 | each of the five symbols names its currency; a bare dollar sign the default's if that is one of seven dollars, else the US dollar |
| Currencies.CodesAre | app/services/parsing.py:45-52 | the sixteen codes and the seven dollars, written out |
| Currencies.CodeInFront | app/services/parsing.py:374-380 | a known code before the number, in any case, is answered in capitals |
| Currencies.InnerSign | app/services/parsing.py:161-166 | between a word and the number a minus sign or an opening parenthesis negates, and nothing else does |
| Currencies.PlusSign | app/services/parsing.py:151-155 | a leading plus sign changes nothing |
| Currencies.MoneyIs | app/formatting.py:13-21 | what `money` prints, by currency, digit by digit |
| Currencies.GroupedIs | app/formatting.py:20-20 | a comma stands before every third digit from the right and nowhere else |
| Ingest.ApplyMerchantRules | app/services/ingest.py:44-62 | the matching rule with the lowest id files the charge; only that charge changes |
| Ingest.MatchesWhereItApplies | app/models.py:228-239 | a plain pattern matches exactly where it stands in the merchant's name, in any mixture of cases |
| Ingest.RulesFile | app/services/ingest.py:51-62 | the first rule that applies fills an empty category and, if it skips receipts, sets the status and appends its note; nothing else changes |
| Ingest.LinkRefund | app/services/ingest.py:135-168 | a credit gets a most recent unclaimed charge of its merchant and opposite amount, nothing if there is none, and only its link changes |
| Ingest.RefundIsLatest | app/services/ingest.py:142-165 | told by the columns: a credit is linked exactly when some charge of its merchant, opposite amount and no later time is neither refund nor claimed, and to a latest such charge |
| Ingest.IngestMessage | app/services/ingest.py:182-290 | duplicate, filtered, raised or created, each exactly when; anything but a new charge leaves the database as it was |
| Ingest.EnvelopeAllowedExactly | app/services/ingest.py:171-179 | the coarse filter passes a message exactly when each text asked for stands in its field, in any mixture of cases |
| Ingest.IngestAnswers | app/services/ingest.py:187-201 | the four answers, each exactly when, with five attempts at a code |
| Ingest.IngestedRows | app/services/ingest.py:203-257 | the email has the message's columns; the charge has the parsed amount, currency, merchant and time with their defaults, or the placeholder; rules and refund link touch none of these |
| Ingest.IngestedFiling | app/services/ingest.py:259-260 | the new charge's status, category, notes and refund link, by the first rule that applies and the latest charge it can reverse |
| Ingest.IngestedNotice | app/services/ingest.py:276-290 | its notify job: kind, payload, key, eight attempts, due at once; none for a charge a rule filed |
| Refunds.GreedyIsOptimal | app/services/ingest.py:146-168 | in time order, no assignment of refunds to distinct earlier charges of one merchant and amount links more of them |
| Refunds.GreedyIsAssignment | app/services/ingest.py:146-168 | what ingest links is itself such an assignment, so the maximum is attained |
| Refunds.IngestExtends | app/services/ingest.py:243-259 | each ingest in time order extends such a history by one entry |
| Withdrawal.DiscardWithdraws | app/services/jobs.py:215-228 | discarding one more charge's jobs loses no queued deletion and no other job |
| Withdrawal.AskWithdraws | app/services/ingest.py:119-126 | asking for one more message's deletion disturbs no other row |
| Withdrawal.WithdrawnRows | app/services/jobs.py:215-228 | row by row: new are only deletions of the messages, one outstanding for each; gone are only jobs that name the charges and old deletions of those messages |
| Silencing.SilenceMerchant | app/services/ingest.py:65-132 | switches on one rule for the pattern; files exactly the matching receipt-less charges in the four stale statuses; none of their jobs is left, each withdrawn announcement has one outstanding deletion, all else is as it was; counts them |
| Silencing.SilencedRule | app/services/ingest.py:89-98 | the rule used: one with the pattern or a new one, on, skipping receipts, with the category and note asked for |
| Silencing.SilencedCharges | app/services/ingest.py:100-115 | the charges filed, by status, attachments and the rule's pattern, and what each then says |
| Silencing.SilencedJobs | app/services/ingest.py:117-128 | the queue after it: one deletion per withdrawn announcement, no job of a filed charge, nothing else new or gone |
| Silencing.SilencingAgainChangesNothing | app/services/ingest.py:83-132 | repeated, it files zero and changes nothing |
| Silencing.LaterChargesAreFiled | app/services/ingest.py:44-62 | a later matching charge is filed unless and only unless the lowest-id matching rule asks for receipts |
| Lapsing.SweepLapsed | app/services/ingest.py:413-444 | exactly the open charges announced before the cutoff lapse; counts them |
| Lapsing.SweptRows | app/services/ingest.py:420-434 | told by the columns: new and notified charges announced more than 3600 seconds per hour ago lapse now, no other row changes |
| Lapsing.BuildDigest | app/discordbot/tasks.py:244-294 | every outstanding charge is in exactly one list, oldest first, warned exactly when announced by the warning cutoff; nothing is sent exactly when there is nothing to say |
| Lapsing.DigestLists | app/discordbot/tasks.py:256-294 | told by the columns: who is listed, under which heading, in which order, and both counts |
| Lapsing.NothingToSay | app/discordbot/tasks.py:291-292 | when the digest is silent, told by the columns |
| Chunking.Chunk | app/discordbot/tasks.py:377-389 | the chunks join back to the text, those of several lines are under the limit, and no order-preserving packing uses fewer |
| Chunking.FewestMessages | app/discordbot/tasks.py:377-389 | no other cutting of the text at line ends into messages below the limit uses fewer |
| Storage.StoreReceiptBytes | app/services/storage.py:102-212 | stores exactly when size, type and read-back checks leave no doubt; a failure leaves no file |
| Storage.StoredExactly | app/services/storage.py:118-190 | the tests of a stored file one by one, and what is recorded of it |
| Storage.AssertDurable | app/services/storage.py:237-258 | passes exactly when the file is there with the recorded size and checksum |
| Storage.DeleteStoredFile | app/services/storage.py:261-271 | removes that path and no other |
| Storage.UndeclaredConversionIsRefused | app/services/images.py:192-214 | on a sound disk an acceptable download is stored exactly when it is kept byte for byte or declared converted |
| Storage.DurableIsTheUpload | app/services/storage.py:253-258 | a durable file with an upload's checksum is that upload |
| Bot.PersistCapture | app/discordbot/bot.py:83-126 | adds one unassigned attachment and one record; fails without trace when the message is recorded already |
| Bot.CapturedRows | app/discordbot/bot.py:102-126 | the two rows of a capture, column by column |
| Bot.LinkAttachments | app/discordbot/bot.py:146-201 | files exactly the still unassigned attachments, marks the charge, appends the note, queues one verification; a second copy of a file fails the whole call |
| Bot.LinksNothing | app/discordbot/bot.py:158-171 | nothing changes for an unknown code or when no attachment asked for is free |
| Bot.LinkedRows | app/discordbot/bot.py:161-181 | otherwise exactly the free attachments go under the charge, which gets status, time and note; it fails exactly when the charge would have two copies of a file |
| Bot.LinkedJob | app/discordbot/bot.py:190-200 | one finalize job for all attachments of the call, keyed by the smallest, is ensured |
| Bot.ReportIs | app/discordbot/bot.py:159-201 | the answer names the charge and counts the attachments filed |
| Bot.LinkingAgainChangesNothing | app/discordbot/bot.py:152-171 | linking the same attachments again, to any charge, changes nothing |
| Capturing.CaptureMessage | app/discordbot/bot.py:398-499 | nothing storable changes nothing; a recorded message or a second storable file raises; a single new file is captured and then decided on |
| Capturing.FiledWhereResolved | app/discordbot/bot.py:453-475 | an upload is filed exactly when it is the only storable file of a new message, the rule names a charge, and the charge has no copy; then under that charge |
| Capturing.CaptureAnswers | app/discordbot/bot.py:449-499 | every answer exactly when, and what it leaves: raised, filed, asked, no charges, nothing stored |
| Capturing.LandedAre | app/discordbot/bot.py:402-423 | the files on disk after a message: the old ones and what landed for each upload that could be stored |
| Capturing.FiledMessageIsWholeExactly | app/discordbot/bot.py:440-475 | a filed message had every file stored if and only if it had one file; with more, the others failed and it is filed all the same |
| Tasks.RecordNotification | app/discordbot/tasks.py:80-98 | the announced charge gets message, time and status and the record is added; a deleted charge is ignored, a recorded message fails without trace |
| Tasks.AnnouncedRows | app/discordbot/tasks.py:80-98 | the rows after an announcement, column by column |
| Tasks.RecordConfirmation | app/discordbot/tasks.py:162-180 | adds the confirmation record of an existing charge or fails without trace |
| Tasks.MarkDeleted | app/discordbot/tasks.py:146-159 | stamps exactly the given records and flags exactly the given attachments |
| Tasks.LoadFinalize | app/discordbot/tasks.py:117-143 | fails if any payload attachment still linked to the charge is not durable; otherwise answers exactly their source messages and the announcement |
| Tasks.LoadedExactly | app/discordbot/tasks.py:117-143 | told by the rows: when the check passes, and which sources and announcement it answers |
| Tasks.DeleteEach | app/discordbot/tasks.py:216-234 | deletes exactly what Discord lets go and reports it in order |
| Tasks.RunFinalize | app/discordbot/tasks.py:183-237 | without a passed check nothing changes; with one it posts, deletes and records as asked |
| Tasks.FinalizeDeletesExactly | app/discordbot/tasks.py:183-237 | told by the rows: a message is gone after a run exactly when the check passed, the run ended well, Discord let it go, and it was the source of a checked attachment with receipts to be deleted or the announcement with announcements to be deleted; nothing but the confirmation appears |
| Tasks.FinalizeRecords | app/discordbot/tasks.py:146-180 | the confirmation, the deletion times and the flags it leaves in the tables |
| Tasks.FinalizeDeletesItsQueue | app/discordbot/tasks.py:210-237 | the messages gone are in the queue of a passed check, and all of it that Discord lets go is gone |
| Web.AttachOrphan | app/web/routes_ui.py:318-345 | files the attachment under the charge, whose status advances only if it asked for a receipt; fails without trace on an unknown id or a copy |
| Web.AttachedRows | app/web/routes_ui.py:330-341 | the rows after it, and exactly when it fails |
| Web.AssignOrphan | app/web/routes_ui.py:606-634 | the same, but an assigned attachment stays where it is |
| Web.Detach | app/web/routes_ui.py:348-380 | back to the orphan queue; a charge that loses its last receipt asks again |
| Web.DetachedRows | app/web/routes_ui.py:358-376 | the rows after it: only the charge marked as having a receipt that loses its only one is back to notified |
| Web.ResendNotification | app/web/routes_ui.py:422-453 | forgets the announcement and queues a new one under a key of its own |
| Web.ResentRows | app/web/routes_ui.py:436-450 | the rows after it, the job column by column |
| Web.UpdateTransaction | app/web/routes_ui.py:249-315 | saves merchant, amount, category, notes and status; an unreadable amount or an unknown status is refused, with what was read before it saved all the same |
| Web.EditedFields | app/web/routes_ui.py:266-309 | the row after it, field by field, for every form |
| Web.RefusedEditSavesNothingExactly | app/web/routes_ui.py:268-309 | a refused edit saves nothing if and only if the fields read before the refusal were left alone |
| Web.Skip | app/discordbot/commands.py:75-77 | files the charge as needing no receipt |
| Web.Reparse | app/web/routes_settings.py:309-349 | exactly the stalled emails that parse now are cleared, their charges take the fields, and a charge that needed attention asks again; counts the emails |
| Web.ReparsedRows | app/web/routes_settings.py:321-349 | every email and charge after it, column by column |
| Web.DeleteTransaction | app/web/routes_ui.py:456-552 | the charge goes; its receipts go with their files or to the orphan queue, its records, its last email, its jobs and refund links to it go; each of its messages still up gets one outstanding deletion; all else stays |
| Web.DeletionTakesDown | app/web/routes_ui.py:495-532 | told by the rows: exactly one outstanding deletion for each announcement or confirmation of the charge that is still up, no other new job, none of the charge left |
| Web.DeletionLeaves | app/web/routes_ui.py:480-523 | told by the rows: which charges, receipts, records and emails are left, and what they say |
| Web.DeletionKeepsFiles | app/web/routes_ui.py:484-487 | exactly the files of the charge's receipts go, and only when asked for |
| Web.DeleteAttachment | app/web/routes_ui.py:555-579 | only an unassigned attachment goes, with its file |
| Lifecycle.IngestKeepsInv | app/services/ingest.py:182-290 | a new charge keeps every invariant, however its id was used before |
| Lifecycle.SilenceKeepsInv | app/services/ingest.py:65-132 | silencing keeps every invariant |
| Lifecycle.LinkKeepsInv | app/discordbot/bot.py:146-201 | linking keeps every invariant |
| Lifecycle.DetachKeepsInv | app/web/routes_ui.py:348-380 | detaching keeps every invariant |
| Lifecycle.DeleteKeepsInv | app/web/routes_ui.py:456-552 | deleting a charge leaves no row that refers to it and keeps every other invariant |
| Lifecycle.ReparseKeepsInv | app/web/routes_settings.py:309-349 | parsing again keeps every invariant |
| Lifecycle.StepKeepsInv | app/models.py:268-433 | every handler's committed session keeps every invariant |
| Runs.InvAlways | app/models.py:268-433 | in every state of every run: emails and charges in bijection, codes distinct numbers from 1000 on, unique keys and files, valid references, receipts matching statuses, refund links injective and chain-free |
| Runs.SweepSparesReceipts | app/services/ingest.py:422-434 | the sweep never touches a charge that has a receipt |
| Runs.IngestAnnounces | app/services/ingest.py:276-290 | nothing refers to the id a new charge gets, and unless a rule filed it its own fresh notification is queued in the same commit |
| Runs.DigestWarnsInTime | app/discordbot/tasks.py:256-280 | with a window of a day or more, a charge outstanding for a digest and lapsed within a day is in its "lapsing soon" list, over every run |
| Runs.ShortWindowsMiss | app/discordbot/tasks.py:256-280 | with any shorter window it is false: for every such window, clock and rule set there is a run whose digest leaves the charge out of that list |
| Runs.EditKeepsInvExactly | app/web/routes_ui.py:304-309 | an edit keeps the invariants if and only if the status it sets fits the receipts the charge has |
| Runs.AttachKeepsInvExactly | app/web/routes_ui.py:330-341 | attaching by hand keeps the invariants if and only if it does not take the only receipt of another charge in receipt_attached |
| Runs.DetachUndoesAttachExactly | app/web/routes_ui.py:330-376 | detaching what was just attached restores the files always, and the charge exactly when it kept its status or was notified and unmatched |
| Runs.ResendAnnounces | app/web/routes_ui.py:441-450 | after a resend the handler finds something to announce and its job is outstanding; once announced, a retry finds nothing |
| Custody.StepOwned | app/discordbot/tasks.py:333-351 | every session leaves queued deletions to messages the bot sent and attachments with their uploads' checksums |
| Custody.SilenceOwned | app/services/ingest.py:119-128 | silencing only asks for messages the bot sent |
| Custody.DeleteOwned | app/web/routes_ui.py:492-532 | deleting a charge only asks for messages the bot sent |
| Finalizing.StoreIsSound | app/services/storage.py:120-190 | a stored file not declared converted has the checksum of the whole upload |
| Finalizing.NextIsSound | app/discordbot/tasks.py:117-237 | every act, crash and fault keeps custody: a run may only delete bot messages and sources of files it checked |
| Finalizing.UploadsAreDeletedOnlyAfterTheirCheck | app/discordbot/tasks.py:183-237 | in every history the application deletes an uploader's message only in a finalize run whose own check found every payload attachment of the charge durable, this message's among them; untouched since, the file is durable at the deletion and, unless converted, one of the files the message carried |
| Finalizing.DeletionsFollowTheSettings | app/discordbot/tasks.py:212-216 | in every history what a finalize run deletes was, at its check, a checked source with receipts to be deleted or the announcement with announcements to be deleted; an upload is only ever the first |
| Finalizing.DeletedMessageKeepsAllExactly | app/discordbot/bot.py:402-475 | with its captured file kept, every file of a message is kept if and only if all of them are the same bytes: a message with one file loses nothing, one with different files loses all but one |
| Finalizing.FailedCheckStartsNothing | app/discordbot/tasks.py:128-130 | one failed file and a check starts no run |
| Finalizing.FailedCheckDeletesNothing | app/discordbot/tasks.py:128-237 | a run number whose check failed deletes nothing afterwards unless a later check of that number, made before the deletion, found every file in order |
| Finalizing.PassedCheckCanDelete | app/discordbot/tasks.py:210-225 | after a passed check every checked source can be deleted |
| Finalizing.Untouched | app/services/storage.py:261-271 | a file changes only by a fault or a user's removal |
| Polling.IngestBatch | app/services/ingest.py:293-304 | each message runs in its own session in order, and the count is of the created ones |
| Polling.NothingIsLost | app/services/ingest.py:331-362 | over every interleaving, everything behind the cursor is stored, filtered or later deleted, unless it raised or could not be fetched; at most one email per id, exactly one charge per email |
| Polling.CollisionsLoseOnlyTogether | app/services/shortcode.py:35-62 | a new wanted message is lost to code collisions if and only if all five attempts collide |
| Polling.RaisedIsPassed | app/services/ingest.py:301-362 | wherever in a batch an ingest raised, once its poll saves, the cursor is past the message and it is not stored, unless something ingested it meanwhile |
| Polling.OnlyDeletionErases | app/web/routes_ui.py:514-523 | only deleting a charge takes a stored email away, and only its own |
| Polling.DeletedMessageCanReturn | app/web/routes_ui.py:472-475 | once its charge is deleted a message can be ingested again |
| Matching.ResolveFollowsPriority | app/services/matching.py:131-151 | reply, then first existing code in text order, then the only outstanding charge, then the newest 25 with truncated exactly when more are open, then the recent ones |
| Matching.ChoiceIsNewest | app/services/matching.py:80-128 | the choice offered: at most 25, outstanding or else of the last seven days, newest first, none left out that is newer |
| Matching.LapsingOnlyQuiets | app/services/matching.py:56-94 | lapsing any charges takes exactly those out of the implicit choice and changes no reply or code outcome |
| Matching.SweepIsALapse | app/services/ingest.py:431-434 | the sweep is such a lapse |
| Matching.ReplyFindsCharge | app/services/matching.py:56-65 | a reply to a charge's announcement finds it in every sound state |
| Matching.CodeFindsCharge | app/services/matching.py:68-77 | a charge's code written after no other charge's code finds it in any status while it has at most nine digits; a longer one is passed over |
| Scheduling.DueTasks | app/services/scheduler.py:35-54 | fires at most once per remembered date, digest before sweep, and commits the date first |
| Scheduling.EachDateFiresOnce | app/services/scheduler.py:43-45 | while dates do not go back, a tick fires exactly when its hour has come and its date has not fired |
| Scheduling.DateRepeatsExactly | app/services/scheduler.py:43-45 | whatever the dates do, a date fires again if and only if its hour has come and another date fired since it last did |
| Scheduling.FreshDateFires | app/services/scheduler.py:43-45 | a date that has not fired yet fires if and only if its hour has come |
| Scheduling.EnqueueTasks | app/services/scheduler.py:57-70 | each of the distinct tasks has one outstanding job afterwards: the one it had, or else a new one, twenty seconds after the one before; no other row changes |
| Scheduling.TaskRows | app/services/scheduler.py:57-70 | the row of each task: the outstanding one it had, or its own, due 20 seconds after the task before |
| Scheduling.DigestGoesFirst | app/services/scheduler.py:46-70 | of a freshly enqueued digest and sweep the sweep is never started first |
| ExportNames.NameDeterminesCodeAndIndex | app/services/export.py:117-126 | for underscore-free codes a receipt name determines the index and the code up to refused characters |
| ExportNames.NamesCollideExactly | app/services/export.py:75-81 | two names collide exactly when the cleaned codes and the indexes agree |
| ExportNames.SlashAndDashCollide | app/services/export.py:75-81 | two different codes, of a kind never allocated, whose receipts share every name |
| ExportNames.NameIs | app/services/export.py:117-126 | the receipt name of a charge with a numeric code: date, code, slug, index and extension |
| ExportNames.SlugIsItsWords | app/services/export.py:70-72 | the slug is the words of the merchant in lower case joined by dashes, cut at forty characters, or "unknown" |
| ExportNames.ExtensionIs | app/services/export.py:121-121 | the extension is what follows the last dot of the stored name, in lower case |
| ExportNames.NoExtensionIs | app/services/export.py:121-121 | and `.bin` for a name whose only dots are its first or last character |
| ExportNames.FilesAreDistinct | app/services/export.py:129-157 | with proper codes no name in the CSV's receipt_files repeats |
| ExportNames.FreeName | app/services/export.py:177-189 | for any base name the collision loop ends with the first free attempt |
| ExportNames.NameEntries | app/services/export.py:177-189 | archive names are pairwise distinct and, with proper codes, exactly those of the CSV |
| Exports.ExportsKeepTheirNames | app/services/export.py:129-189 | in every state of every run the codes of an export are proper, so no name in the CSV repeats and the archive has the names the CSV lists |
| Exports.NameTellsTheReceipt | app/services/export.py:117-126 | in every state of every run two entries of an export have the same name if and only if they are the same attachment |

## Left out

- Web.UpdateTransaction: does not model the QuickBooks account behind the category; the category is the text it ends up as.
- AmountLaws.MoneyRoundTrip: does not model the 28-digit context of decimal arithmetic; amounts are exact integers of any size.
- Amounts.ParseAmount: covers ASCII text and the currency symbols; digits and letters of other scripts are not part of this model.
- Ingest.IngestMessage: does not model losing a race on the unique message id to a concurrent poll, which ends like a duplicate; card ending and cardholder are not part of this model.
- Silencing.SilencingAgainChangesNothing: assumes the repeat finds the same rule, as it must unless the pattern was entered twice, because the query that looks for one has no order.
- Matching.ResolveFollowsPriority: rows of equal time come in id order where the query leaves the order open.
- OutboxRuns.StartsAreBounded: excludes discarding a job while its handler runs; `Reports` says exactly what that does.
- Finalizing.NextIsSound: takes each session and each Discord call as one step; handlers interleave between them, not within.
- Polling.IngestBatch: uses one clock reading for a batch.
- `strip_codes`, the picker's option list, and the wording of messages.
- Error texts, completion times and log rows of jobs and sessions.
- The check that a stored path lies inside the receipts directory, thumbnails, and the temporary file of a download.
- Heartbeat alerts and the QuickBooks account synchronization.
- Network clients, image work, passwords, sessions, templates, migrations, settings forms and time zone conversion.
- Amount search and the edit form's rendering of amounts, which go through floating point.
