/** The store itself: tables as fields, updated in place, with BEGIN/COMMIT/ROLLBACK around every write.
    Each method is proved against the table function of the same name in Ledger. */
module MailboxStore {
  import opened MailTypes
  import opened SendPolicy
  import opened Ledger

  class Store {
    var mailboxes: set<Owned<MailboxId>>
    var drafts: map<Owned<DraftId>, Draft>
    var policies: map<Owned<MailboxId>, PolicyRow>
    var confirmations: map<Owned<ConfirmationId>, Confirmation>
    var operations: map<Owned<SendKey>, Operation>
    var receipts: map<Owned<SendKey>, StoredReceipt>
    var rateEvents: seq<RateEvent>
    var sendAudit: seq<AuditEvent>

    function Snapshot(): Tables
      reads this
    {
      Tables(mailboxes, drafts, policies, confirmations, operations, receipts, rateEvents, sendAudit)
    }

    constructor (mailboxes: set<Owned<MailboxId>>)
      ensures Snapshot() == EmptyTables(mailboxes)
    {
      this.mailboxes := mailboxes;
      drafts, policies, confirmations := map[], map[], map[];
      operations, receipts, rateEvents, sendAudit := map[], map[], [], [];
    }

    method Rollback(saved: Tables)
      modifies this
      ensures Snapshot() == saved
    {
      mailboxes, drafts, policies, confirmations := saved.mailboxes, saved.drafts, saved.policies, saved.confirmations;
      operations, receipts := saved.operations, saved.receipts;
      rateEvents, sendAudit := saved.rateEvents, saved.sendAudit;
    }

    method CreateDraft(u: UserKey, d: DraftId, payload: Payload, now: Time) returns (r: Result<()>)
      modifies this
      ensures Tx(Snapshot(), r) == Ledger.CreateDraft(old(Snapshot()), u, d, payload, now)
    {
      if Owned(u, payload.mailbox) !in mailboxes { return Err(MailboxNotFound); }
      if Owned(u, d) in drafts { return Err(ConstraintFailed); }
      drafts := drafts[Owned(u, d) := Draft(payload.mailbox, 1, payload, Editable, now, None, None)];
      return Ok(());
    }

    method UpdateDraft(u: UserKey, d: DraftId, expected: nat, payload: Payload, now: Time) returns (r: Result<()>)
      modifies this
      ensures Tx(Snapshot(), r) == Ledger.UpdateDraft(old(Snapshot()), u, d, expected, payload, now)
    {
      if Owned(u, d) !in drafts { return Err(DraftNotFound); }
      var current := drafts[Owned(u, d)];
      if current.status == Sent { return Err(DraftAlreadySent); }
      if current.version != expected { return Err(DraftVersionConflict); }
      if current.payload.mailbox != payload.mailbox { return Err(MailboxMismatch); }
      drafts := drafts[Owned(u, d) := current.(payload := payload, version := current.version + 1, updatedAt := now)];
      confirmations := WithoutDraft(confirmations, u, d);
      return Ok(());
    }

    method AddDraftAttachment(u: UserKey, d: DraftId, expected: nat, a: Attachment, now: Time) returns (r: Result<()>)
      modifies this
      ensures Tx(Snapshot(), r) == Ledger.AddDraftAttachment(old(Snapshot()), u, d, expected, a, now)
    {
      if Owned(u, d) !in drafts { return Err(DraftNotFound); }
      var payload := drafts[Owned(u, d)].payload;
      if HasAttachment(payload.attachments, a.id) { return Err(AttachmentConflict); }
      r := UpdateDraft(u, d, expected, payload.(attachments := payload.attachments + [a]), now);
    }

    method RemoveDraftAttachment(u: UserKey, d: DraftId, expected: nat, id: string, now: Time) returns (r: Result<()>)
      modifies this
      ensures Tx(Snapshot(), r) == Ledger.RemoveDraftAttachment(old(Snapshot()), u, d, expected, id, now)
    {
      if Owned(u, d) !in drafts { return Err(DraftNotFound); }
      var payload := drafts[Owned(u, d)].payload;
      var kept := Without(payload.attachments, id);
      if |kept| == |payload.attachments| { return Err(AttachmentNotFound); }
      r := UpdateDraft(u, d, expected, payload.(attachments := kept), now);
    }

    method MarkDraftSent(u: UserKey, d: DraftId, receipt: Receipt) returns (r: Result<()>)
      modifies this
      ensures Tx(Snapshot(), r) == Ledger.MarkDraftSent(old(Snapshot()), u, d, receipt)
    {
      if Owned(u, d) !in drafts { return Err(DraftNotFound); }
      var current := drafts[Owned(u, d)];
      if current.status == Sent { return Ok(()); }
      drafts := drafts[Owned(u, d) :=
        current.(status := Sent, sentAt := Some(receipt.sentAt), messageId := Some(receipt.messageId),
                 version := current.version + 1, updatedAt := receipt.sentAt)];
      return Ok(());
    }

    method SetSendPolicy(u: UserKey, m: MailboxId, policy: Policy) returns (r: Result<()>)
      modifies this
      ensures Tx(Snapshot(), r) == Ledger.SetSendPolicy(old(Snapshot()), u, m, policy)
    {
      if Owned(u, m) !in mailboxes { return Err(MailboxNotFound); }
      if !WithinSchema(policy) { return Err(InvalidArgument); }
      if Owned(u, m) in policies {
        policies := policies[Owned(u, m) := PolicyRow(policy, policies[Owned(u, m)].version + 1)];
      } else {
        policies := policies[Owned(u, m) := PolicyRow(policy, 1)];
      }
      confirmations := WithoutMailbox(Snapshot(), u, m);
      return Ok(());
    }

    method CreateSendConfirmation(
      u: UserKey, d: DraftId, hash: PayloadHash, v: Validation, ttlSeconds: nat, id: ConfirmationId, now: Time)
      returns (r: Result<Confirmation>)
      modifies this
      ensures Tx(Snapshot(), r)
           == Ledger.CreateSendConfirmation(old(Snapshot()), u, d, hash, v, ttlSeconds, id, now)
    {
      if v.blocked { return Err(SendPolicyBlocked); }
      if Owned(u, d) !in drafts { return Err(DraftNotFound); }
      var draft := drafts[Owned(u, d)];
      if draft.status == Sent { return Err(DraftAlreadySent); }
      if draft.version != v.draftVersion { return Err(DraftVersionConflict); }
      var saved := Snapshot();
      confirmations := WithoutDraft(confirmations, u, d);
      if Owned(u, id) in confirmations {
        Rollback(saved);
        return Err(ConstraintFailed);
      }
      var row := Confirmation(d, v.draftVersion, hash, v.policyVersion, now + ttlSeconds * 1000, None);
      confirmations := confirmations[Owned(u, id) := row];
      sendAudit := sendAudit + [AuditEvent(u, None, draft.mailbox, ConfirmationPrepared, true, None, v.recipients,
                                           v.externals, None, now)];
      return Ok(row);
    }

    method ConsumeSendConfirmation(
      u: UserKey, id: ConfirmationId, d: DraftId, version: nat, hash: PayloadHash, policyVersion: nat, now: Time)
      returns (r: Result<()>)
      modifies this
      ensures Tx(Snapshot(), r)
           == Ledger.ConsumeSendConfirmation(old(Snapshot()), u, id, d, version, hash, policyVersion, now)
    {
      if Owned(u, id) !in confirmations { return Err(ConfirmationInvalid); }
      var row := confirmations[Owned(u, id)];
      if row.draft != d { return Err(ConfirmationInvalid); }
      if row.usedAt.Some? { return Err(ConfirmationUsed); }
      if row.expiresAt <= now { return Err(ConfirmationExpired); }
      if row.draftVersion != version || row.payloadHash != hash || row.policyVersion != policyVersion {
        return Err(ConfirmationStale);
      }
      confirmations := confirmations[Owned(u, id) := row.(usedAt := Some(now))];
      return Ok(());
    }

    method ReserveSendOperation(
      u: UserKey, key: SendKey, m: MailboxId, hash: PayloadHash, policy: Policy, recipients: nat, externals: nat,
      id: OperationId, checkedAt: Time, now: Time)
      returns (r: Result<Reservation>)
      modifies this
      ensures Tx(Snapshot(), r)
           == Ledger.ReserveSendOperation(old(Snapshot()), u, key, m, hash, policy, recipients, externals, id,
                                          checkedAt, now)
    {
      if Owned(u, key) in operations {
        var existing := operations[Owned(u, key)];
        if existing.payloadHash != hash { return Err(IdempotencyConflict); }
        if Completed(existing.state) {
          if Owned(u, key) !in receipts { return Err(ReceiptMissing); }
          return Ok(Replayed(existing, receipts[Owned(u, key)].receipt));
        }
        return Err(if existing.state == Submitting then AlreadySubmitting else StatusUnknown);
      }
      var usage := SendUsage(Snapshot(), u, m, checkedAt);
      if usage.lastHour >= policy.maxPerHour { return Err(HourlyLimitExceeded); }
      if usage.lastDay >= policy.maxPerDay { return Err(DailyLimitExceeded); }
      var saved := Snapshot();
      var row := NewOperation(m, hash, id, now);
      if Owned(u, m) !in mailboxes || exists k <- operations :: k.user == u && operations[k].id == id {
        return Err(ConstraintFailed);
      }
      operations := operations[Owned(u, key) := row];
      if exists e <- rateEvents :: e.user == u && e.operation == id {
        Rollback(saved);
        return Err(ConstraintFailed);
      }
      rateEvents := rateEvents + [RateEvent(u, id, m, now)];
      sendAudit := sendAudit + [AuditEvent(u, Some(id), m, SendSubmitting, true, Some(Submitting), recipients,
                                           externals, None, now)];
      return Ok(Fresh(row));
    }

    method CompleteSendOperation(u: UserKey, key: SendKey, receipt: Receipt, recipients: nat, externals: nat)
      returns (r: Result<Operation>)
      modifies this
      ensures Tx(Snapshot(), r)
           == Ledger.CompleteSendOperation(old(Snapshot()), u, key, receipt, recipients, externals)
    {
      var state := StateOf(receipt);
      var saved := Snapshot();
      if Owned(u, key) !in operations { return Err(OperationMissing); }
      var row := operations[Owned(u, key)];
      if row.state != Submitting { return Err(OperationStateConflict); }
      var done := row.(state := state, accepted := |receipt.accepted|, rejected := |receipt.rejected|,
                       updatedAt := receipt.sentAt);
      operations := operations[Owned(u, key) := done];
      if Owned(u, key) in receipts {
        Rollback(saved);
        return Err(ConstraintFailed);
      }
      receipts := receipts[Owned(u, key) := StoredReceipt(row.payloadHash, receipt)];
      if Owned(u, receipt.mailbox) !in mailboxes {
        Rollback(saved);
        return Err(ConstraintFailed);
      }
      sendAudit := sendAudit + [AuditEvent(u, Some(row.id), receipt.mailbox, MailSent, state != Rejected, Some(state),
                                           recipients, externals,
                                           if state == Rejected then Some(SmtpRejected) else None, receipt.sentAt)];
      return Ok(done);
    }

    method MarkSendOperationUnknown(
      u: UserKey, key: SendKey, code: ErrorCode, recipients: nat, externals: nat, now: Time)
      returns (r: Result<Operation>)
      modifies this
      ensures Tx(Snapshot(), r)
           == Ledger.MarkSendOperationUnknown(old(Snapshot()), u, key, code, recipients, externals, now)
    {
      if Owned(u, key) !in operations { return Err(OperationMissing); }
      var row := operations[Owned(u, key)];
      if row.state == Submitting {
        operations := operations[Owned(u, key) := row.(state := Unknown, errorCode := Some(code), updatedAt := now)];
      }
      sendAudit := sendAudit + [AuditEvent(u, Some(row.id), row.mailbox, OutcomeUnknown, false, Some(Unknown),
                                           recipients, externals, Some(code), now)];
      return Ok(operations[Owned(u, key)]);
    }
  }
}
