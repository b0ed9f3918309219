/** What each store transaction does to the tables, as a function of the tables before it.
    A failing transaction rolls back, so it returns the tables it was given. */
module Ledger {
  import opened MailTypes
  import opened SendPolicy

  datatype Tx<+T> = Tx(tables: Tables, result: Result<T>)

  datatype Reservation = Fresh(operation: Operation) | Replayed(operation: Operation, receipt: Receipt)

  // ----- reads -----

  function GetSendPolicy(t: Tables, u: UserKey, m: MailboxId): Result<PolicyView> {
    if Owned(u, m) !in t.mailboxes then Err(MailboxNotFound)
    else Ok(CurrentPolicy(t, u, m))
  }

  function CurrentPolicy(t: Tables, u: UserKey, m: MailboxId): PolicyView {
    if Owned(u, m) in t.policies then PolicyView(t.policies[Owned(u, m)].policy, t.policies[Owned(u, m)].version)
    else PolicyView(DEFAULT_POLICY, 0)
  }

  /** Rate events of one mailbox stamped at or after `since`. */
  function CountSince(events: seq<RateEvent>, u: UserKey, m: MailboxId, since: Time): nat {
    if events == [] then 0
    else
      var e := events[|events| - 1];
      CountSince(events[..|events| - 1], u, m, since) + if e.user == u && e.mailbox == m && e.at >= since then 1 else 0
  }

  function SendUsage(t: Tables, u: UserKey, m: MailboxId, now: Time): Usage {
    Usage(CountSince(t.rateEvents, u, m, now - HOUR), CountSince(t.rateEvents, u, m, now - DAY))
  }

  // ----- drafts and policies -----

  function WithoutDraft(rows: map<Owned<ConfirmationId>, Confirmation>, u: UserKey, d: DraftId)
    : map<Owned<ConfirmationId>, Confirmation>
  {
    map c | c in rows && !(c.user == u && rows[c].draft == d) :: rows[c]
  }

  predicate DraftInMailbox(t: Tables, u: UserKey, d: DraftId, m: MailboxId) {
    Owned(u, d) in t.drafts && t.drafts[Owned(u, d)].mailbox == m
  }

  function WithoutMailbox(t: Tables, u: UserKey, m: MailboxId): map<Owned<ConfirmationId>, Confirmation> {
    map c | c in t.confirmations && !(c.user == u && DraftInMailbox(t, u, t.confirmations[c].draft, m))
      :: t.confirmations[c]
  }

  function CreateDraft(t: Tables, u: UserKey, d: DraftId, payload: Payload, now: Time): Tx<()> {
    if Owned(u, payload.mailbox) !in t.mailboxes then Tx(t, Err(MailboxNotFound))
    else if Owned(u, d) in t.drafts then Tx(t, Err(ConstraintFailed))
    else
      var row := Draft(payload.mailbox, 1, payload, Editable, now, None, None);
      Tx(t.(drafts := t.drafts[Owned(u, d) := row]), Ok(()))
  }

  function UpdateDraft(t: Tables, u: UserKey, d: DraftId, expected: nat, payload: Payload, now: Time): Tx<()> {
    if Owned(u, d) !in t.drafts then Tx(t, Err(DraftNotFound))
    else
      var current := t.drafts[Owned(u, d)];
      if current.status == Sent then Tx(t, Err(DraftAlreadySent))
      else if current.version != expected then Tx(t, Err(DraftVersionConflict))
      else if current.payload.mailbox != payload.mailbox then Tx(t, Err(MailboxMismatch))
      else
        var row := current.(payload := payload, version := current.version + 1, updatedAt := now);
        Tx(t.(drafts := t.drafts[Owned(u, d) := row], confirmations := WithoutDraft(t.confirmations, u, d)), Ok(()))
  }

  predicate HasAttachment(attachments: seq<Attachment>, id: string) {
    exists a <- attachments :: a.id == id
  }

  function Without(attachments: seq<Attachment>, id: string): seq<Attachment> {
    if attachments == [] then []
    else
      var rest := Without(attachments[..|attachments| - 1], id);
      var last := attachments[|attachments| - 1];
      if last.id == id then rest else rest + [last]
  }

  function AddDraftAttachment(t: Tables, u: UserKey, d: DraftId, expected: nat, a: Attachment, now: Time): Tx<()> {
    if Owned(u, d) !in t.drafts then Tx(t, Err(DraftNotFound))
    else
      var payload := t.drafts[Owned(u, d)].payload;
      if HasAttachment(payload.attachments, a.id) then Tx(t, Err(AttachmentConflict))
      else UpdateDraft(t, u, d, expected, payload.(attachments := payload.attachments + [a]), now)
  }

  function RemoveDraftAttachment(t: Tables, u: UserKey, d: DraftId, expected: nat, id: string, now: Time): Tx<()> {
    if Owned(u, d) !in t.drafts then Tx(t, Err(DraftNotFound))
    else
      var payload := t.drafts[Owned(u, d)].payload;
      var kept := Without(payload.attachments, id);
      if |kept| == |payload.attachments| then Tx(t, Err(AttachmentNotFound))
      else UpdateDraft(t, u, d, expected, payload.(attachments := kept), now)
  }

  function MarkDraftSent(t: Tables, u: UserKey, d: DraftId, receipt: Receipt): Tx<()> {
    if Owned(u, d) !in t.drafts then Tx(t, Err(DraftNotFound))
    else
      var current := t.drafts[Owned(u, d)];
      if current.status == Sent then Tx(t, Ok(()))
      else
        var row := current.(status := Sent, sentAt := Some(receipt.sentAt), messageId := Some(receipt.messageId),
                            version := current.version + 1, updatedAt := receipt.sentAt);
        Tx(t.(drafts := t.drafts[Owned(u, d) := row]), Ok(()))
  }

  function SetSendPolicy(t: Tables, u: UserKey, m: MailboxId, policy: Policy): Tx<()> {
    if Owned(u, m) !in t.mailboxes then Tx(t, Err(MailboxNotFound))
    else if !WithinSchema(policy) then Tx(t, Err(InvalidArgument))
    else
      var version := if Owned(u, m) in t.policies then t.policies[Owned(u, m)].version + 1 else 1;
      Tx(t.(policies := t.policies[Owned(u, m) := PolicyRow(policy, version)],
            confirmations := WithoutMailbox(t, u, m)), Ok(()))
  }

  // ----- confirmations -----

  function CreateSendConfirmation(
    t: Tables, u: UserKey, d: DraftId, hash: PayloadHash, v: Validation, ttlSeconds: nat, id: ConfirmationId,
    now: Time): Tx<Confirmation>
  {
    if v.blocked then Tx(t, Err(SendPolicyBlocked))
    else if Owned(u, d) !in t.drafts then Tx(t, Err(DraftNotFound))
    else
      var draft := t.drafts[Owned(u, d)];
      var kept := WithoutDraft(t.confirmations, u, d);
      if draft.status == Sent then Tx(t, Err(DraftAlreadySent))
      else if draft.version != v.draftVersion then Tx(t, Err(DraftVersionConflict))
      else if Owned(u, id) in kept then Tx(t, Err(ConstraintFailed))
      else
        var row := Confirmation(d, v.draftVersion, hash, v.policyVersion, now + ttlSeconds * 1000, None);
        var event := AuditEvent(u, None, draft.mailbox, ConfirmationPrepared, true, None, v.recipients, v.externals,
                                None, now);
        Tx(t.(confirmations := kept[Owned(u, id) := row], sendAudit := t.sendAudit + [event]), Ok(row))
  }

  function ConsumeSendConfirmation(
    t: Tables, u: UserKey, id: ConfirmationId, d: DraftId, version: nat, hash: PayloadHash, policyVersion: nat,
    now: Time): Tx<()>
  {
    if Owned(u, id) !in t.confirmations || t.confirmations[Owned(u, id)].draft != d then Tx(t, Err(ConfirmationInvalid))
    else
      var row := t.confirmations[Owned(u, id)];
      if row.usedAt.Some? then Tx(t, Err(ConfirmationUsed))
      else if row.expiresAt <= now then Tx(t, Err(ConfirmationExpired))
      else if row.draftVersion != version || row.payloadHash != hash || row.policyVersion != policyVersion then
        Tx(t, Err(ConfirmationStale))
      else Tx(t.(confirmations := t.confirmations[Owned(u, id) := row.(usedAt := Some(now))]), Ok(()))
  }

  // ----- operations -----

  predicate OperationIdUsed(t: Tables, u: UserKey, id: OperationId) {
    || (exists k <- t.operations :: k.user == u && t.operations[k].id == id)
    || (exists e <- t.rateEvents :: e.user == u && e.operation == id)
  }

  function NewOperation(m: MailboxId, hash: PayloadHash, id: OperationId, now: Time): Operation {
    Operation(id, m, hash, Submitting, 0, 0, None, now, now)
  }

  /** `checkedAt` is the clock read by the usage count, `now` the later one that stamps the rows. */
  function ReserveSendOperation(
    t: Tables, u: UserKey, key: SendKey, m: MailboxId, hash: PayloadHash, policy: Policy, recipients: nat,
    externals: nat, id: OperationId, checkedAt: Time, now: Time): Tx<Reservation>
  {
    if Owned(u, key) in t.operations then
      var row := t.operations[Owned(u, key)];
      if row.payloadHash != hash then Tx(t, Err(IdempotencyConflict))
      else if Completed(row.state) then
        if Owned(u, key) in t.receipts then Tx(t, Ok(Replayed(row, t.receipts[Owned(u, key)].receipt)))
        else Tx(t, Err(ReceiptMissing))
      else Tx(t, Err(if row.state == Submitting then AlreadySubmitting else StatusUnknown))
    else
      var usage := SendUsage(t, u, m, checkedAt);
      if usage.lastHour >= policy.maxPerHour then Tx(t, Err(HourlyLimitExceeded))
      else if usage.lastDay >= policy.maxPerDay then Tx(t, Err(DailyLimitExceeded))
      else if Owned(u, m) !in t.mailboxes || OperationIdUsed(t, u, id) then Tx(t, Err(ConstraintFailed))
      else
        var row := NewOperation(m, hash, id, now);
        var event := AuditEvent(u, Some(id), m, SendSubmitting, true, Some(Submitting), recipients, externals, None,
                                now);
        Tx(t.(operations := t.operations[Owned(u, key) := row],
              rateEvents := t.rateEvents + [RateEvent(u, id, m, now)],
              sendAudit := t.sendAudit + [event]), Ok(Fresh(row)))
  }

  function CompleteSendOperation(
    t: Tables, u: UserKey, key: SendKey, receipt: Receipt, recipients: nat, externals: nat): Tx<Operation>
  {
    if Owned(u, key) !in t.operations then Tx(t, Err(OperationMissing))
    else
      var row := t.operations[Owned(u, key)];
      if row.state != Submitting then Tx(t, Err(OperationStateConflict))
      else if Owned(u, key) in t.receipts || Owned(u, receipt.mailbox) !in t.mailboxes then Tx(t, Err(ConstraintFailed))
      else
        var state := StateOf(receipt);
        var done := row.(state := state, accepted := |receipt.accepted|, rejected := |receipt.rejected|,
                         updatedAt := receipt.sentAt);
        var event := AuditEvent(u, Some(row.id), receipt.mailbox, MailSent, state != Rejected, Some(state), recipients,
                                externals, if state == Rejected then Some(SmtpRejected) else None, receipt.sentAt);
        Tx(t.(operations := t.operations[Owned(u, key) := done],
              receipts := t.receipts[Owned(u, key) := StoredReceipt(row.payloadHash, receipt)],
              sendAudit := t.sendAudit + [event]), Ok(done))
  }

  /** The audit row is written even when the operation is no longer `submitting`. */
  function MarkSendOperationUnknown(
    t: Tables, u: UserKey, key: SendKey, code: ErrorCode, recipients: nat, externals: nat, now: Time): Tx<Operation>
  {
    if Owned(u, key) !in t.operations then Tx(t, Err(OperationMissing))
    else
      var row := t.operations[Owned(u, key)];
      var next := if row.state == Submitting
                  then row.(state := Unknown, errorCode := Some(code), updatedAt := now) else row;
      var event := AuditEvent(u, Some(row.id), row.mailbox, OutcomeUnknown, false, Some(Unknown), recipients, externals,
                              Some(code), now);
      Tx(t.(operations := t.operations[Owned(u, key) := next], sendAudit := t.sendAudit + [event]), Ok(next))
  }

  lemma CompletionKeepsKeys(t: Tables, u: UserKey, key: SendKey, receipt: Receipt, recipients: nat, externals: nat)
    ensures CompleteSendOperation(t, u, key, receipt, recipients, externals).tables.operations.Keys == t.operations.Keys
  {
  }
}
