# MailBridge verification model

A Dafny model of the parts of MailBridge that must not go wrong: the Safe Send ledger that decides whether a message
may leave and makes sure it leaves at most once, the sent-copy writer that must not duplicate mail on an unreliable
IMAP server, the bounded reads that are continued call by call, the bounded search over many folders, and the small
shared structures that guard access (semaphores, rate limiter, one-time settings sessions, signed message identifiers).

`dafny verify dfyconfig.toml` checks the whole project.

## How the model is built

- `MailTypes`, `SendPolicy`, `Ledger` hold the data and what each store transaction does to the tables, as functions on
  values. `MailboxStore` is the store itself, a class whose fields are the tables and whose methods write them in place
  with rollback; every method is proved equal to the `Ledger` function of the same name. `MailSendService` does the same
  for the service over the store, against `SendServiceSpec`.
- `LedgerInvariants`, `LedgerRows` and `RateWindow` prove what every sequence of store transactions keeps, in any order,
  by any users. `DraftEdits`, `SendLimits`, `SendOutcomes` and `ServiceDetails` say what a call does exactly when: which
  edits are accepted and that none is lost, when a limit refuses and lets go, when a confirmation can be redeemed, when
  a send goes through, and what is stored.
- `SendProtocol` is the fine-grained transition system: one step is one transaction, one transport event or one crash,
  and any other call, edit or policy change may run between two steps of a send. What a call read before its first
  write is an arbitrary plan that passed the code's checks, so reads may be stale. A disabled step changes nothing, so
  every sequence of steps is a run and every theorem is about all of them. `AtMostOnce`, `ConfirmedDelivery`,
  `ProtocolLedger`, `AuditTrail`, `DraftLifecycle`, `Deliveries` and `SentRows` are the theorems, `Witnesses` holds
  concrete runs for what they must allow.
- `ServiceInvariants` proves what the service's calls keep and matches each stretch of a send between two awaits with
  protocol steps. `ServiceRuns` turns that into a simulation of whole schedules, in which other calls and crashes come
  between any two such stretches, and carries the theorems over; `ServiceDrafts` shows when a draft becomes sent, and
  `ServiceReplays` what a key answers for ever after.
- `SentCopy`, `Paging`, `Continuation`, `KnowledgeScope`, `SearchFanout` treat the IMAP server as an arbitrary script:
  what is listed, whether a SEARCH is answered with a list at all, what is expunged before it is fetched, what breaks,
  what is stored although an error came back, is universally quantified. A search that is not answered reads as empty.
- `Concurrency`, `RateLimiter`, `SettingsSessions` with `SessionRotation`, and `TextCodecs` with `StableId` cover the
  shared structures; `Lists` has the sorting and slicing that several modules use. Loops of the original are loops here,
  classes are classes.

Timestamps are integers. SHA-256 is a free constructor, so it is collision-free by assumption; random identifiers and
tokens are fresh; HMAC is an arbitrary function; encryption is the identity.

## What turned out not to hold as one might expect

- The row of a sent draft need not hold what was delivered, because marking it sent checks no version: for any two texts
  there is a run that delivers the first and leaves the second in the row (`Witnesses.SentRowCanDiffer`). The row's
  version tells: it is the confirmed version plus one if and only if there was no edit in flight
  (`SentRows.SentVersionIsExact`), and then the row is what was delivered (`SentRows.UneditedRowWasDelivered`).
- A draft that was accepted need not become sent. Storing the receipt and marking the draft are two stretches: if the
  process stops between them, every later send replays the receipt or is refused and none marks the draft. It is sent
  if and only if the call that stored the receipt is resumed first (`ServiceDrafts.HolderDecides`,
  `Witnesses.AcceptedDraftCanStayEditable`).
- An audit trail is not always `submitting` and one final state. A completion that commits and whose read-back throws is
  followed by `unknown` exactly when the call gets to record its giving up (`AuditTrail.TrailIsExact`; a run that
  does is `Witnesses.ThirdEventHappens`).
- The sent-copy writer reads an unanswered search as "none found". At most one copy is stored whatever else happens if
  and only if every retry has an answered search (`SentCopy.StoresOnceExactlyWhen`); leaving an existing copy alone
  needs one in every attempt (`SentCopy.LeavesAloneExactlyWhen`), hence at least one observation delay.
- A raw-source walk with an unknown total size delivers the whole message only for the lengths and windows of
  `Continuation.RawWalkWithoutSize`.
- Paging reads an unanswered search as the end of the folder, and so it does a full page of which one message was
  expunged before it was fetched. Every finished walk lists all that was there throughout if and only if every search
  is answered and all that is listed is fetched (`Paging.WalkIsCompleteExactlyWhen`); what one walk misses is exactly
  what its last call leaves behind (`Paging.WalkMissesExactly`).
- A search over folders that reports neither a cut nor a failure can still miss matches. Without the attachment filter
  it can be trusted if and only if every folder's search is answered and loses no more listed messages than the slack
  between fetched and returned makes up for (`SearchFanout.FanoutExactlyWhen`); with the filter, if and only if every
  folder that has matches is answered, with no more than are fetched from it (`SearchFanout.FilteredFanoutExactlyWhen`).
- The fixed-window limiter admits twice its configured number in one window length (`RateLimiter.TwiceTheLimit`,
  attained by `RateLimiter.TwiceIsAttained`).
- A settings session in its last partial second is used up but not replaced (`SessionRotation.AuthorizedExactlyWhen`),
  and an expiry in the first second of 1970 counts as no expiry (`SessionRotation.ExpiryGrowsExactlyWhen`).
- Encoding a message identifier checks nothing; a locator out of bounds encodes and is refused when decoded
  (`StableId.DecodeEncode`).

## Model

The main results come first; the members that tie the code's own shape to their specifications follow.

| member | source | states |
|---|---|---|
| AtMostOnce.SubmittedAtMostOnce | src/services/mailSendService.ts:222-253 | Over every interleaving, fault and crash: at most one transport call and one reservation per user and key, and each transport call follows its own call's reservation of the same payload hash. |
| ServiceRuns.ServiceSendsAtMostOnce | src/services/mailSendService.ts:222-253 | So over every schedule of service calls the transport is called at most once per user and key, and the ledger stays consistent. |
| ServiceRuns.ServiceIsSimulated | src/services/mailSendService.ts:67-253 | Every schedule of service calls by any users, with other calls and crashes at every await of a send, has the tables and the transport calls of some protocol run, in which every prepare carries the draft's own hash. |
| ConfirmedDelivery.DeliveryIsConfirmed | src/services/mailSendService.ts:146-183 | Every draft submission redeems, injectively, a confirmation consumed once, by its own call, before expiry, with equal hash, draft version and policy version, and no edit of the draft or change of the policy between prepare and consume. |
| Deliveries.ReceiptsAreDeliveries | src/services/mailSendService.ts:236-241 | Over every run each stored receipt belongs to exactly one transport call: it is what that call returned, and the stored hash is that of the payload it was given. |
| SentRows.SentVersionIsExact | src/app/store.ts:488-499 | A sent draft's row has the confirmed version plus one if and only if nobody edited it between its holder's consumption of the confirmation and the marking. |
| SentRows.UneditedRowWasDelivered | src/services/mailSendService.ts:174-180 | In that case the row's hash is the stored receipt's and that of the one payload the transport was given. |
| SentRows.EditAfterAnswerSticks | src/app/store.ts:432-444 | In every reachable state where the transport has answered a draft's call, an edit is accepted and survives into the sent row, while the receipt keeps the submitted payload's hash. |
| Witnesses.SentRowCanDiffer | src/app/store.ts:488-499 | For any two different texts a run from the empty store delivers the first and ends with the second in the sent row, whose hash is not the receipt's. |
| ServiceDrafts.HolderDecides | src/services/mailSendService.ts:178-182 | Over every schedule: once a draft's call has stored a receipt naming an accepted recipient, the draft is sent after any further turns if and only if that call was resumed before its process stopped; if it stopped, the draft stays editable. |
| ServiceDrafts.SentExactlyWhenMarked | src/app/store.ts:488-499 | Over every schedule a draft is sent if and only if some turn resumed a call of that draft with a stored receipt naming an accepted recipient. |
| ServiceDrafts.UnmarkedForEver | src/services/mailSendService.ts:153-163 | With a receipt stored and no call left to mark the draft, whatever follows, the draft stays editable, the receipt stands, and every further send replays it or is refused. |
| Witnesses.AcceptedDraftCanStayEditable | src/services/mailSendService.ts:178-182 | For any text a run from the empty store delivers it, stores an accepted receipt, and leaves the draft editable after a crash. |
| DraftEdits.NoLostUpdate | src/app/store.ts:432-444 | Over any store calls: of any two edits of one draft made with the same expected version, texts and attachments alike, at most one is accepted, whatever is executed between; the other changes nothing. |
| SendOutcomes.DraftSendExactlyWhen | src/services/mailSendService.ts:146-183 | A draft's send goes on to the transport, with exactly the draft's text, if and only if nothing is stored under its key, it is editable, no rule is broken, an unused, unexpired confirmation of this text, version and policy is given with the current version, and the key can be reserved; else at most the confirmation is used up. |
| SendOutcomes.DirectSendExactlyWhen | src/services/mailSendService.ts:201-234 | A direct send goes on to the transport, with exactly the given text, if and only if nothing is stored under its key, the policy allows direct sends, no rule is broken and the key can be reserved; else nothing changes. |
| SendOutcomes.DraftSendRefusals | src/services/mailSendService.ts:151-177 | Each refusal of a draft's send, if and only if, in the order in which the code looks. |
| SendOutcomes.DirectSendRefusals | src/services/mailSendService.ts:213-219 | Each refusal of a direct send, if and only if, in the order in which the code looks. |
| SendOutcomes.ReserveRefusals | src/app/store.ts:564-624 | What a known key answers a reservation, and that a refused one changes nothing. |
| SendOutcomes.SettleRefusals | src/app/store.ts:625-683 | Each refusal of completing and of marking unknown, if and only if; an uncertain row gets the error's code and time. |
| SendOutcomes.PrepareSendExactlyWhen | src/services/mailSendService.ts:131-144 | Each refusal of preparing a draft's send; it succeeds if and only if the draft is editable, no rule is broken and the new id is free, and what is returned is of this version, hash and policy and lives exactly the policy's seconds. |
| SendOutcomes.SettleAnswers | src/services/mailSendService.ts:236-252 | The caller is told the receipt if and only if the transport gave one and it was stored and read back, else that the outcome is unknown; the operation says unknown unless its receipt was stored. |
| SendOutcomes.StoredReceiptAnswers | src/services/mailSendService.ts:151-163 | A key with a receipt answers that receipt for the text it was stored for and a conflict for any other, and changes nothing. |
| SendOutcomes.PrepareIsExact | src/app/store.ts:501-535 | Each refusal of preparing, if and only if; the prepared row is the draft's only one and lives exactly the policy's seconds. |
| SendOutcomes.ConsumeIsExact | src/app/store.ts:537-562 | Each refusal of redeeming, if and only if; nothing but the row's use is written. |
| SendOutcomes.ValidateIsExact | src/services/mailSendService.ts:255-267 | A message is unblocked if and only if its mailbox is registered, enabled and known, its domains can be read and no rule is broken, the limits counted over the stored reservations. |
| SendOutcomes.PreparedDraftGoesThrough | src/services/mailSendService.ts:131-178 | The confirmation that preparing returned, given back with the version shown before it expires, takes the draft's text to the transport. |
| SendOutcomes.PreparedIsRedeemable | src/app/store.ts:501-562 | Over any store calls that do not disturb it, a prepared confirmation is redeemed at every time before the end of its life, and at none after. |
| SendOutcomes.RedeemedOnce | src/app/store.ts:537-562 | Of two redemptions of a confirmation the second fails, whatever is executed between, unless it is prepared anew. |
| ServiceReplays.DirectKeyReplays | src/services/mailSendService.ts:201-212 | Over every schedule: once a receipt is stored under a direct key, every later send under it answers that receipt for the text with the stored hash and a conflict for any other, changes no table and calls no transport. |
| ServiceReplays.RetryAnswersTheReceipt | src/services/mailSendService.ts:201-241 | Over every schedule: once a direct call has stored its receipt, the same send made again at any later point answers the receipt that the transport gave that call. |
| ServiceReplays.DraftKeyReplays | src/services/mailSendService.ts:151-163 | The same of a draft's key, for the text the draft has by then. |
| SendLimits.ReserveIsLimitedExactlyWhen | src/app/store.ts:351-361 | A new key is refused by the hourly limit if and only if that many of the mailbox's reservations are at most 3,600,000 ms old, else by the daily one if and only if that many are at most 86,400,000 ms old; a known key by neither. |
| SendLimits.OldReservationsAreForgotten | src/app/store.ts:592-605 | After any store calls: if every reservation of the mailbox is more than a day old, no limit refuses the next. |
| SendLimits.GateCountsTheSame | src/services/mailSendService.ts:255-267 | The gate reports each limit if and only if its window is full, and as remaining what is left of it. |
| AuditTrail.TrailIsExact | src/services/mailSendService.ts:236-252 | An operation's audit states are exactly submitting, or submitting and its final state, unless its holder both lost a stored answer and recorded its giving up; then, and only then, unknown follows the final state. |
| Witnesses.ThirdEventHappens | src/app/store.ts:654-683 | For any directly sent message there is a run from the empty store that ends with the trail submitting, accepted, unknown. |
| RateWindow.SlidingWindowBound | src/app/store.ts:351-361 | Any closed hour and any closed day of any run, not only those ending at a check, holds at most the limit of reservations. |
| ProtocolLedger.RunsRespectLimits | src/app/store.ts:592-605 | The sliding-window bound holds over every interleaved run, although calls may act on stale policy readings. |
| LedgerInvariants.LedgerIsConsistent | src/app/store.ts:564-683 | After any sequence of store calls: a completed operation, and no other, has exactly one receipt, with equal hash, counts and state; ids are distinct; exactly one rate event per operation; folding the audit log gives every operation's state. |
| LedgerInvariants.WriteRefines | src/app/store.ts:315-683 | Every store write is one step of the abstract ledger, or none. |
| LedgerInvariants.SettledIsFinal | src/app/store.ts:578-590 | Over every sequence of store calls no key is forgotten, its hash never changes, and done and uncertain are final. |
| ProtocolLedger.ConsistentAlways | src/services/mailSendService.ts:146-253 | The ledger invariant holds in every state of every interleaved run. |
| DraftLifecycle.SubmissionsPassTheGate | src/services/mailSendService.ts:166-219 | Every transport call satisfied the policy its call had read: mode, recipient count, denied and allowed domains, external rule, both limits. |
| DraftLifecycle.SentMeansAccepted | src/services/mailSendService.ts:178-182 | A sent draft has a stored receipt under its key naming at least one accepted recipient, and its row has that receipt's time and message id. |
| DraftLifecycle.VersionsIdentifyRows | src/app/store.ts:432-499 | A draft's version never goes back, equal versions mean an equal row, and a sent row is frozen. |
| AtMostOnce.NeverSubmittedAgain | src/services/mailSendService.ts:236-252 | Once a key's holder has submitted, failed, settled or crashed, no continuation of the run submits that key. |
| AuditTrail.SettledIsNeverSubmitted | src/app/store.ts:586-589 | An operation that has left submitting is never submitted again, whatever runs later. |
| AuditTrail.AbandonedIsNeverSubmitted | src/app/store.ts:586-589 | A call that crashed after its reservation leaves its key blocked: no continuation submits it. |
| AuditTrail.AbandonedStaysAsItIs | src/app/store.ts:586-589 | The operation of a call that is over keeps its row, submitting or not, through every continuation of the run. |
| ServiceInvariants.ConfirmationsAreFresh | src/services/mailSendService.ts:131-144 | After any sequence of service calls a draft has at most one confirmation, and while it is editable the row carries its current version, hash and policy version. |
| ServiceInvariants.ConfirmedHashPinsContent | src/services/mailSendService.ts:355-369 | Between any two reachable drafts, equal hashes mean equal content, attachment bytes included. |
| ServiceInvariants.AttachmentsStayBounded | src/services/mailSendService.ts:96-109 | At most 10 attachments with distinct ids, each 1 byte to 10 MiB with an honest digest, at most 18 MiB in all, after any sequence of service calls. |
| ServiceInvariants.ConfirmationsAreShortLived | src/app/store.ts:512-514 | A confirmation prepared in any reachable state can be used for between half a minute and ten minutes, and only for a message of at most 50 recipients. |
| LedgerRows.RowsMeanWhatTheySay | src/app/store.ts:385-683 | After any store calls: an error code is there if and only if the outcome is uncertain, a completed state and its time are those of the receipt's recipients, audit rows have a reason if and only if they did not pass, and drafts name their sending if and only if sent. |
| LedgerRows.IdIsTakenExactlyWhen | src/app/store.ts:606-620 | After any store calls an operation id counts as taken if and only if an operation of the same user has it. |
| LedgerRows.AuditCountsAreTrue | src/services/mailSendService.ts:222-252 | Over every run each audit row of a send counts the recipients, and those of another domain, of the text its operation's holder had to send. |
| ServiceDetails.AttachExactlyWhen | src/services/mailSendService.ts:96-109 | An attachment is added, as the last and with nothing else changed, if and only if the draft is editable and of the given version, has fewer than 10 and none of this id, and stays within 18,874,368 bytes, and the attachment itself is accepted. |
| ServiceDetails.PolicyIsReadBack | src/app/store.ts:315-349 | A policy is replaced if and only if mailbox and numbers are in order; then it is read back with the next version, the mailbox's confirmations are gone, and nothing of other mailboxes changes. |
| ServiceDetails.ComposeIsExact | src/services/mailSendService.ts:275-293 | A text is composed if and only if the mailbox is registered, there are 1 to 50 recipients and the text rules hold; every field goes to the field of its name. |
| ServiceDetails.UpdateKeepsThreadAndAttachments | src/services/mailSendService.ts:79-94 | Updating replaces text and recipients, keeps thread and attachments, and is accepted if and only if the row is editable, of this version and mailbox. |
| ServiceDetails.CreatedDraftsHoldTheirText | src/services/mailSendService.ts:67-73 | A created draft holds the composed text; a reply's draft goes to whom the reply is to and keeps its thread. |
| DraftEdits.UpdateIsExact | src/app/store.ts:432-450 | Each refusal of an update, if and only if; what an accepted one stores, in this row and for the next version, with the draft's confirmations dropped and all else as it was. |
| DraftEdits.StaleEditIsRefused | src/app/store.ts:432-486 | An edit of text or attachments with any but the current version is refused and leaves every table as it is. |
| DraftEdits.CreateIsExact | src/app/store.ts:385-398 | A draft is created, at version 1 and unsent, if and only if the mailbox is there and the id is new. |
| DraftEdits.AttachmentRefusals | src/app/store.ts:451-500 | Each refusal of adding and removing attachments and of marking a draft, if and only if. |
| DraftEdits.MarkIsExact | src/app/store.ts:488-499 | Marking changes an editable row only, raises its version by one, keeps the text and records the receipt's time and message id. |
| DraftEdits.AddThenRemove | src/app/store.ts:451-486 | Adding an attachment appends it or refuses an id in use; removing it from the next version gives back the text there was. |
| DraftEdits.RemoveIsExact | src/app/store.ts:467-486 | Removing takes out exactly the attachment of that id, wherever it stands, or reports that there is none. |
| SendPolicy.ValidationIsTrue | src/send/safeSendPolicy.ts:11-48 | The counts, the warning and the two budgets shown are those of the recipients and of the policy. |
| SendPolicy.ReasonsAreExact | src/send/safeSendPolicy.ts:17-41 | Each of the seven reasons is given if and only if its rule is broken by the addresses in the three fields, in plain words; the evaluation throws if and only if some domain cannot be read. |
| SendPolicy.GateIsExact | src/send/safeSendPolicy.ts:9-48 | A rule is reported once if it is broken and not at all otherwise; the message is blocked exactly when some rule is broken; evaluation fails exactly when the mailbox's, a recipient's or a listed domain cannot be canonicalised. |
| SentCopy.StatusExactlyWhen | src/send/sentCopy.ts:66-117 | Saved by the provider is reported for attempt k if and only if every earlier attempt failed and this one sees a copy in a folder that opens and closes; appended, if and only if it sees none and its append is answered; a missing folder, only if it listed none. |
| SentCopy.ReportIsExact | src/send/sentCopy.ts:66-117 | For every script the report is that of the first attempt that does not fail, or that all failed with the last one's error: too large, seen, appended, no folder or used up, each with its folder, attempt number and error. |
| SentCopy.SaveIsSafe | src/send/sentCopy.ts:66-117 | Whatever fails: attempts are bounded and a claimed copy is present; at most one copy if every retry has an answered search; none on an existing one if every attempt has; never one on top of another if every attempt's last search is answered and no other client saves after it. |
| SentCopy.StoresOnceExactlyWhen | src/send/sentCopy.ts:89-97 | For a given pattern of answered searches at most one copy is stored by every server behaviour, if and only if no retry goes without an answered search; the first attempt does not matter. |
| SentCopy.LeavesAloneExactlyWhen | src/send/sentCopy.ts:89-97 | An existing copy is left alone by every server behaviour, if and only if every attempt has an answered search. |
| SentCopy.NeverDoublesExactlyWhen | src/send/sentCopy.ts:130-135 | With no outside save between search and append, no copy is stored on top of another, if and only if every attempt searches and its last search is answered. |
| SentCopy.DelayIsExactlyNeeded | src/send/sentCopy.ts:89-97 | With every search answered, an existing copy is left alone by every server behaviour if and only if at least one observation delay is configured. |
| Paging.WalkIsCompleteExactlyWhen | src/imap/imapFlowAdapter.ts:115-124 | Every finished walk, whatever the folder holds at each call, lists every message present throughout, if and only if the server answers every search with a list and fetches all it listed. |
| Paging.WalkMissesExactly | src/services/mailService.ts:223-260 | Over a changing folder a finished walk lists strictly descending UIDs, nothing no call saw, and every message present throughout but exactly those its last call leaves behind, unanswered or short of a lost message. |
| Paging.UnansweredSearchEndsWalk | src/imap/imapFlowAdapter.ts:115-116 | For any folder and limit, one unanswered search finishes the walk with nothing listed. |
| Paging.OneLossEndsWalk | src/services/mailService.ts:251-257 | For any limit, one message expunged between the search and the fetch finishes a walk that never lists an older one. |
| Paging.WalkEnds | src/services/mailService.ts:257 | The cursor strictly decreases, so the walk ends within a bounded number of calls whatever arrives or disappears. |
| Paging.WalkListsOnlyOldMessages | src/services/mailService.ts:223-260 | With arrivals only at larger UIDs, a walk from the start lists only messages of its first snapshot. |
| Paging.WalkKeepsValidity | src/services/mailService.ts:247-250 | A finished walk never crossed a change of UIDVALIDITY. |
| Paging.PageIsTop | src/services/mailService.ts:236-258 | A page misses exactly what is below its next cursor and what the call leaves behind; the cursor is its own last UID, given only if something is left for it and nothing is left behind. |
| Paging.PageIsFull | src/services/mailService.ts:236-258 | A page of an answered folder that loses nothing has exactly the number asked for, at least 1 and at most 100, or all that are left, and goes on if and only if more are left. |
| Paging.PageIsRefusedExactlyWhen | src/services/mailService.ts:230-250 | A continuation is refused if and only if only one of cursor and UIDVALIDITY is given, or the latter changed. |
| Paging.SearchIsTop | src/imap/imapFlowAdapter.ts:115-120 | Filter, sort, slice and reverse give the largest eligible UIDs in descending order, and nothing eligible above the last is missing. |
| Continuation.ReadWindow | src/imap/imapFlowAdapter.ts:310-346 | For any split into chunks, the loop returns exactly the slice of the whole content, truncated exactly when more follows; a break matters only before the window is full. |
| Continuation.CallIsExact | src/services/mailService.ts:429-471 | One attachment call returns exactly as many bytes from its offset as were asked for within the limits, or what is left, and a continuation if and only if something is left. |
| Continuation.RawCallIsExact | src/services/mailService.ts:316-348 | The same of one raw-source call whose server tells the size. |
| Continuation.WalkReadsEverything | src/services/mailService.ts:452-466 | Following the continuation offset with any window sizes returns the rest of the content byte for byte, and enough calls always finish. |
| Continuation.RawWalkWithSize | src/services/mailService.ts:316-348 | With a known total size the raw-source walk delivers the whole message, whatever window each call asks for. |
| Continuation.RawWalkWithoutSize | src/services/mailService.ts:330-334 | Without it, for any windows, the walk delivers the whole message if and only if the first call asking for more than is left has something left, and the adapter cuts no call up to it. |
| Continuation.RawWalkSameWindow | src/services/mailService.ts:330-334 | With one window throughout: if and only if the length is no multiple of it, and it does not exceed the adapter's limit unless the rest fits in at once. |
| SearchFanout.FanoutExactlyWhen | src/services/mailService.ts:500-556 | Without the attachment filter, every untruncated, failure-free result holds every match of every folder (or one of equal key and no worse rank), for all contents and completion orders, if and only if every folder's search is answered and loses at most the slack between listing and fetching. |
| SearchFanout.FilteredFanoutExactlyWhen | src/services/mailService.ts:500-556 | With the filter, every untruncated, failure-free result for folders of given match counts holds every passing match, if and only if each folder with matches is answered and has no more than are fetched from it. |
| SearchFanout.NothingNewerIsLeftOut | src/services/mailService.ts:500-556 | For every completion order: of all that folders list, fetch and let pass, what the result lacks is no newer than the whole result, which then has exactly the limit of 1 to 200, or no newer than its folder's whole answer, which then has exactly its limit; and the result says it was cut. |
| SearchFanout.FolderAnswerIsNewest | src/imap/imapFlowAdapter.ts:118-145 | A folder's answer is newest first within the limit, and if anything fetched and passing is left out, it has exactly the limit and nothing older. |
| SearchFanout.ResultIsNewest | src/services/mailService.ts:553-556 | If the result lacks something that a folder found, and with deduplication every representative of it, it has exactly the limit, nothing older, and says it was cut. |
| SearchFanout.TruncatedExactlyWhen | src/services/mailService.ts:541-556 | A result says it was cut if and only if some folder's answer reached the limit it was asked with, or there was more than the limit of 1 to 200 to return. |
| SearchFanout.AnswersDecide | src/imap/imapFlowAdapter.ts:115-145 | For all configurable limits, with at most 40 messages of a folder expunged during its search, clean unfiltered results are complete if and only if every folder's search is answered. |
| SearchFanout.CandidatesAreNewest | src/imap/imapFlowAdapter.ts:117-120 | The candidates are all matches or exactly five times the limit, at least 50 and at most 500, and nothing passed over has a larger UID. |
| SearchFanout.UnfilteredFolderExactlyWhen | src/imap/imapFlowAdapter.ts:115-145 | Every folder content answered below the limit is answered completely, if and only if the search is answered and the losses before the fetch do not exceed the candidate cut less the limit. |
| SearchFanout.FilteredFolderExactlyWhen | src/imap/imapFlowAdapter.ts:115-145 | With the attachment filter, every folder content of n matches answered below the limit is answered completely, if and only if n is 0, or the search is answered and n is at most the candidate cut. |
| SearchFanout.FilteredFolderCanMiss | src/imap/imapFlowAdapter.ts:119-141 | For every requested and configured limit one folder's only passing match is missed, while the search reports neither a cut nor a failure. |
| SearchFanout.UnansweredFolderIsSilent | src/imap/imapFlowAdapter.ts:115-121 | For every folder and limit, an unanswered search gives an empty result that reports neither a cut nor a failure. |
| SearchFanout.UntruncatedIsComplete | src/services/mailService.ts:500-556 | In an untruncated result without the filter, each folder that is answered and loses no more than the slack has all its matches, whatever happens to the others. |
| SearchFanout.ResultIsSound | src/services/mailService.ts:542-555 | Whatever was cut or failed, the result holds only the folders' own matches that pass the filter, newest first, within the limit, and its failures are exactly those of the unlisted mailboxes and failed folders. |
| KnowledgeScope.DedupeMergesExactlyAlike | src/services/knowledgeScope.ts:67-87 | Of all messages with the same mailbox, time, sender, subject and attachment count exactly one is kept, from the most preferred of their folders; no two that are kept agree in all five. |
| KnowledgeScope.DedupeIsSpecified | src/services/knowledgeScope.ts:73-87 | The result meets the quadratic specification: position by position, the earliest of minimal rank of the next new key. |
| KnowledgeScope.EveryMessageIsRepresented | src/services/knowledgeScope.ts:73-87 | Every message is represented by one of equal key in a folder at least as preferred. |
| KnowledgeScope.DedupeKeepsOrder | src/services/mailService.ts:553-555 | The newest-first order of the input survives although messages are substituted. |
| KnowledgeScope.DedupeIsIdempotent | src/services/knowledgeScope.ts:73-87 | Deduplicating twice changes nothing more. |
| Concurrency.EveryScheduleFinishes | src/services/mailService.ts:91-110 | Without further arrivals every schedule is finite, and one that cannot go on has finished all work and given back every permit. |
| Concurrency.InvAlways | src/services/mailService.ts:654-658 | For any mix of nested and plain work, with failures: permits are conserved on both levels, and each queue is exactly the waiting work. |
| Concurrency.AtMostFourAndTwo | src/services/mailService.ts:44-56 | Over every run at most four nested tasks are past the fan-out gate and at most two work on one mailbox. |
| Concurrency.NoDeadlock | src/services/mailService.ts:521-549 | While anything is unfinished, something can take its next step. |
| Concurrency.SemStaysFair | src/util/concurrency.ts:19-31 | Nobody waits while a permit is free, and those granted followed by those waiting are those that arrived, in order. |
| RateLimiter.TwiceTheLimit | src/security/rateLimit.ts:8-25 | For one client and a monotone clock, any closed interval of one window length holds at most twice the configured number of accepted requests. |
| RateLimiter.TwiceIsAttained | src/security/rateLimit.ts:14 | For every configuration some run reaches twice the number, so no smaller bound is true. |
| RateLimiter.RemainingIsHonest | src/security/rateLimit.ts:18 | Of a client's further requests before the reset, exactly the advertised remaining number is accepted, whatever others send. |
| RateLimiter.ClientsAreIndependent | src/security/rateLimit.ts:12-16 | Other clients' traffic never changes a client's bucket or what it is allowed. |
| SessionRotation.ChainsStaySingleAndEnd | src/app/settingsApi.ts:213-219 | Over every run a chain has at most one live token, keeps its user, and never outlives its first session. |
| SessionRotation.ConsumeIsExact | src/app/settingsSessions.ts:51-67 | Each refusal and the grant of a presented token, if and only if; a well-formed token is gone afterwards and no other is. |
| SessionRotation.IssueIsExact | src/app/settingsSessions.ts:30-49 | Each refusal and the issue of a session, if and only if; whose it is, when it ends, and which others stay. |
| SessionRotation.RotationCarriesOver | src/app/settingsApi.ts:210-229 | A request let through trades its token for a new one of the same user, scopes and client, with the new CSRF text and no later end. |
| SessionRotation.DeadAfterLifetime | src/app/settingsSessions.ts:38-39 | From start plus lifetime on, no token of the chain authorises anything. |
| SessionRotation.TokenWorksOnce | src/app/settingsSessions.ts:52-60 | Presenting a token with any CSRF text, right or wrong, uses it up for every later run; a malformed request leaves it. |
| SessionRotation.RevokedStaysOut | src/app/settingsSessions.ts:69-73 | After revocation no run brings a session of that user back, and no request is authorised as that user, until one is issued anew. |
| SessionRotation.AuthorizedExactlyWhen | src/app/settingsApi.ts:210-229 | A request goes through if and only if its token is stored and unexpired, its CSRF text is the issued one, and neither the session's last whole second nor a fresh lifetime is over at the final check. |
| SessionRotation.ExpiryGrowsExactlyWhen | src/app/settingsApi.ts:215-219 | Rotation extends a session if and only if its expiry lies in the first second of 1970 and below a fresh lifetime. |
| SessionRotation.RevocationIsExact | src/app/settingsSessions.ts:69-73 | Revocation removes that user's sessions and no other. |
| StableId.DecodeEncode | src/security/stableId.ts:28-66 | An identifier decodes to its locator if and only if the locator is within the bounds the decoder checks. |
| StableId.EncodeIsInjective | src/security/stableId.ts:28-38 | Identifiers of different messages differ, for every key and every locator. |
| StableId.DecodedIsAuthentic | src/security/stableId.ts:40-66 | Whatever decodes carries the authentication code of its own payload and is within bounds. |
| StableId.ParseJsonText | src/security/stableId.ts:28-35 | The JSON text of any locator parses back to its four members, whatever characters the ids contain, lone surrogates included. |
| TextCodecs.Base64UrlRoundTrip | src/security/stableId.ts:35-50 | Decoding unpadded base64url returns the bytes that were encoded, for every length. |
| TextCodecs.Base64Vectors | src/security/stableId.ts:35-50 | The test vectors of section 10 of RFC 4648, and the two symbols in which base64url differs. |
| TextCodecs.Utf8Vectors | src/security/stableId.ts:35-55 | The examples of section 7 of RFC 3629, one of each length. |
| TextCodecs.OnlyUtf8Decodes | src/security/stableId.ts:35-55 | Whatever bytes decode are the encoding of the well-formed text they decode to. |
| TextCodecs.Utf8RoundTrip | src/security/stableId.ts:35-55 | Decoding UTF-8 returns every well-formed UTF-16 text, surrogate pairs included. |
| MailTypes.HashDeterminesPayload | src/services/mailSendService.ts:355-369 | The payload hash leaves the attachment bytes out, yet two payloads with honest digests have equal hashes exactly when they are equal. |
| SendPolicy.EvaluateSendPolicy | src/send/safeSendPolicy.ts:17-47 | Pushing reasons one by one yields the specified validation, counts, warning and remaining budget included. |
| MailboxStore.Store.CreateDraft | src/app/store.ts:385-399 | A new draft row at version 1, or an error and no change. |
| MailboxStore.Store.UpdateDraft | src/app/store.ts:432-449 | Optimistic update: version check, sent and mailbox checks, version plus one, the draft's confirmations dropped; on error nothing changes. |
| MailboxStore.Store.AddDraftAttachment | src/app/store.ts:451-465 | Appends one attachment through the same update, or refuses a duplicate id. |
| MailboxStore.Store.RemoveDraftAttachment | src/app/store.ts:467-486 | Filters out one attachment through the same update, or reports that it is not there. |
| MailboxStore.Store.MarkDraftSent | src/app/store.ts:488-499 | Marks an editable draft sent without checking its version; a sent draft is left as it is. |
| MailboxStore.Store.SetSendPolicy | src/app/store.ts:315-349 | Inserts at version 1 or raises the version by one, and drops the confirmations of every draft of the mailbox. |
| MailboxStore.Store.CreateSendConfirmation | src/app/store.ts:501-535 | Replaces the draft's confirmations by one new row with its audit event; an id clash rolls everything back. |
| MailboxStore.Store.ConsumeSendConfirmation | src/app/store.ts:537-562 | Uses a matching, unused, unexpired row once; otherwise the error the code gives, in its order, and no change. |
| MailboxStore.Store.ReserveSendOperation | src/app/store.ts:564-623 | Conflict, replay, busy or unknown for a known key; limits, then one operation, one rate event and one audit row for a new one; constraint failures roll back. |
| MailboxStore.Store.CompleteSendOperation | src/app/store.ts:625-656 | Settles a submitting operation with its receipt, counts and audit row together, or rolls all of it back. |
| MailboxStore.Store.MarkSendOperationUnknown | src/app/store.ts:658-683 | Turns a submitting operation unknown and audits it; a settled one keeps its row but is still audited. |
| MailboxStore.Store.Rollback | src/app/store.ts:937-947 | Restores every table to its value at BEGIN. |
| LedgerInvariants.ReserveRefines | src/app/store.ts:574-621 | Reserving is the abstract compare-and-set on key to hash and status, or a limit or constraint refusal of an absent key that changes nothing. |
| LedgerInvariants.CompleteRefines | src/app/store.ts:638-654 | Completing is the abstract settle; it succeeds exactly when the key is in flight and the receipt's mailbox exists. |
| LedgerInvariants.MarkUnknownRefines | src/app/store.ts:668-681 | Marking unknown is the abstract settle to uncertain, and touches no other key. |
| LedgerInvariants.ExecuteKeeps | src/app/store.ts:937-947 | Each single store write, successful or rolled back, keeps the whole ledger invariant. |
| RateWindow.AppendKeepsWindow | src/app/store.ts:592-605 | One admitted reservation keeps the bound for every interval, although the usage and the row are stamped by two clock readings. |
| AtMostOnce.SoundAlways | src/services/mailSendService.ts:146-253 | The protocol invariant: each call's recorded positions are its own log events in protocol order, and a key has an operation row exactly when one unique call reserved it. |
| ConfirmedDelivery.GuardedAlways | src/app/store.ts:501-562 | In every reachable state each stored confirmation was prepared by a logged event that nothing has disturbed since, and every consumption redeemed such an event. |
| ProtocolLedger.StepIsAtMostOneWrite | src/services/mailSendService.ts:222-253 | A protocol step changes the tables by exactly one named store write, or not at all. |
| DraftLifecycle.WriteEvolves | src/app/store.ts:440-444 | Every change of a draft raises its version by exactly one, and only an edit changes its payload. |
| DraftLifecycle.AdmissibleMeansWithinPolicy | src/send/safeSendPolicy.ts:26-33 | An unblocked validation means every clause of the policy holds of the recipients themselves. |
| MailSendService.Service.Validate | src/services/mailSendService.ts:255-267 | Registry, sending and policy checks, then the exact policy gate on the current usage. |
| MailSendService.Service.CreateDraft | src/services/mailSendService.ts:67-69 | Composes and stores, or refuses with no change. |
| MailSendService.Service.UpdateDraft | src/services/mailSendService.ts:79-94 | Replaces the text and recipients, keeping reply headers and attachments. |
| MailSendService.Service.AddDraftAttachment | src/services/mailSendService.ts:96-109 | Status, version, count, normalisation and total-size checks in the code's order, then the store update. |
| MailSendService.Service.UpdateSendPolicy | src/services/mailSendService.ts:120-123 | A registered mailbox's policy is replaced. |
| MailSendService.Service.PrepareDraftSend | src/services/mailSendService.ts:131-144 | Validates and stores one confirmation of the draft as it is now. |
| MailSendService.Service.BeginSendDraft | src/services/mailSendService.ts:146-178 | Up to the await: replay, every check in order, consume, reserve; a confirmation stays consumed when the reservation is refused. |
| MailSendService.Service.BeginSendDirect | src/services/mailSendService.ts:201-220 | Up to the await: replay, mode and policy checks, reserve. |
| MailSendService.Service.SendOnce | src/services/mailSendService.ts:222-235 | Reserves, and either replays a stored receipt or goes on to deliver. |
| MailSendService.Service.SettleSend | src/services/mailSendService.ts:236-252 | After the delivery's await: complete, or mark unknown on any failure, a completion that committed but could not be read back included. |
| MailSendService.Service.MarkAccepted | src/services/mailSendService.ts:178-182 | After sendDraft's own await: mark the draft sent if somebody accepted. |
| ServiceInvariants.PoliciesStayWithinSchema | src/app/store.ts:316-341 | After any sequence of service calls every stored policy is within the schema and has a version of at least 1, whatever was submitted. |
| ServiceInvariants.BeginSendDraftIsARun | src/services/mailSendService.ts:146-178 | sendDraft up to its await is the protocol's enter, consume and reserve, with the same tables and the same outcome. |
| ServiceInvariants.BeginSendDirectIsARun | src/services/mailSendService.ts:201-220 | sendEmail and replyEmail up to the await are the protocol's enter and reserve, with the same outcome. |
| ServiceInvariants.SettleSendIsARun | src/services/mailSendService.ts:236-252 | The continuation of an answered send is the protocol's complete, and then give-up if that did not settle the call: rolled back, committed but not read back, or refused. |
| ServiceInvariants.MarkAcceptedIsARun | src/services/mailSendService.ts:178-182 | The continuation of sendDraft is the protocol's mark-sent. |
| ServiceInvariants.FailedSendIsARun | src/services/mailSendService.ts:242-252 | The continuation of a failed send is the protocol's throw and give-up. |
| SentCopy.ObserveLoop | src/send/sentCopy.ts:120-139 | The observation loop gives the first hit or error of its searches; an error on closing replaces it. |
| SentCopy.Save | src/send/sentCopy.ts:66-117 | The retry loop gives the specified folder, status, attempt count and error for every server script. |
| Continuation.FetchAttachment | src/services/mailService.ts:429-471 | One call's window, continuation offset and failures as functions of the content, never of the chunking. |
| KnowledgeScope.DedupeSummaries | src/services/knowledgeScope.ts:73-87 | The one-pass map loop gives one chosen message per key in first-occurrence order. |
| KnowledgeScope.ChooseIsChosen | src/services/knowledgeScope.ts:76-85 | The running choice for a key is the first message of minimal folder rank among all of its key. |
| SearchFanout.SearchAll | src/services/mailService.ts:500-556 | The shared lists and flag, the sort, the dedupe and the slice give the specified result for the completion order that occurred. |
| SearchFanout.RunTasks | src/services/mailService.ts:523-548 | Folder searches completing one by one collect exactly their matches, their failures, and whether any reached its limit. |
| SearchFanout.FolderIsComplete | src/imap/imapFlowAdapter.ts:119-145 | What an answer below its limit lacks is exactly what the candidate cut dropped. |
| Concurrency.Semaphore.Acquire | src/util/concurrency.ts:19-25 | Takes a free permit or joins the end of the queue. |
| Concurrency.Semaphore.Release | src/util/concurrency.ts:27-31 | Hands the permit to the longest-waiting caller, or puts it back. |
| RateLimiter.Limiter.Handle | src/security/rateLimit.ts:10-25 | The bucket update, the verdict and the advertised remaining count of one request. |
| SettingsSessions.OneTimeSettingsSessions.Issue | src/app/settingsSessions.ts:30-49 | Prunes, checks scope, client and expiry in order, each at its own clock reading, then stores one session that ends at the earlier of lifetime and OAuth expiry. |
| SettingsSessions.OneTimeSettingsSessions.Consume | src/app/settingsSessions.ts:51-67 | Removes the session of a well-formed request before judging it; unknown, expired and wrong-CSRF requests are refused. |
| SettingsSessions.OneTimeSettingsSessions.RevokeUser | src/app/settingsSessions.ts:69-73 | The deletion loop removes exactly that user's sessions. |
| SettingsSessions.OneTimeSettingsSessions.Size | src/app/settingsSessions.ts:75-78 | The number of unexpired sessions, after pruning. |
| SettingsSessions.OneTimeSettingsSessions.Prune | src/app/settingsSessions.ts:80-83 | The deletion loop keeps exactly the unexpired sessions. |
| SettingsSessions.AuthorizeSettings | src/app/settingsApi.ts:203-232 | Consume, then reissue; the request goes through as the consumed session's user only if both succeed. |
| ServiceRuns.DraftingIsAWrite | src/services/mailSendService.ts:67-144 | Each drafting, policy and prepare call makes exactly one named store write, or changes nothing. |
| MailSendService.Service.CreateReplyDraft | src/services/mailSendService.ts:71-73 | Stores the composed reply as a draft with its reply headers and no attachments, or refuses with no change. |
| SettingsSessions.Open | src/app/settingsSessions.ts:26-28 | A store with no sessions for a lifetime within the accepted range, an error for any other. |
| Concurrency.NewSemaphore | src/util/concurrency.ts:5-8 | All permits available and nobody waiting for a positive limit, an error for any other. |

## Left out

- Deleting a mailbox or a user cascades drafts, operations and rate events away; all ledger results are for runs without it.
- Receipts written by the legacy `recordSendReceipt`, and the operation view synthesised for them.
- The general `audit_events` table, mailbox settings, connection health and their flags.
- Encryption, hashing, HMAC and random generation: identity, free constructors, an arbitrary function, and fresh values.
- SQL text, migrations, WAL and checkpoints; a transaction that fails for a reason outside the tables simply does not run,
  except for the completion faults that the protocol models.
- How a domain is canonicalised, header and body text rules, file name, MIME and extension rules: inputs arrive as
  already normalised, or absent where those rules refuse them.
- The Message-ID derived from user, key and sender domain, which the sent-copy writer searches for.
- How a reply is composed from the original message: any composed reply, or the error composing it threw, is an input.
- The server's delay times, `closeClient` errors and the endpoint lookup of the sent-copy writer beyond "set-up failed".
- Choosing which folders to search, the folder cache, folder ranks as regular expressions and key normalisation: ranks
  and keys are given. The deduplication key is a record of its five fields; the code joins them with NUL characters, so
  senders or subjects that themselves contain NUL can share a key there and never do here.
- Page calls that end in an error other than the two the model has: they return no page, and the walk repeats them.
- Fetching a thread, reading message bodies, HTML, headers and attachment structure.
- The order in which failures of folder searches and of unresolved mailboxes interleave in one list.
- Requested offsets below zero or fractional, which the code truncates to a natural number first.
- JSON forms the encoder never writes (other member order, white space): `StableId` reads only the shape that is written,
  which is all that carries a valid code; malformed UTF-8 is refused rather than replaced.
- SessionRotation.ChainsStaySingleAndEnd: assumes a clock that does not run backwards and is past the first second of 1970.
- HTTP and MCP wiring, OAuth validation, the admin panel, widgets, network address policy, brand guard and authentication summaries.
