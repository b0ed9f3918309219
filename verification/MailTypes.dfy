/** The values that the mail-sending ledger stores and passes around.
    Timestamps are integers (milliseconds); fixed-width UTC strings order the same way. */
module MailTypes {

  type UserKey = string
  type MailboxId = string
  type DraftId = string
  type ConfirmationId = string
  type OperationId = string
  type Domain = string
  type Time = int
  newtype Byte = b: int | 0 <= b < 256

  const HOUR: Time := 60 * 60 * 1000
  const DAY: Time := 24 * HOUR

  datatype Option<+T> = None | Some(value: T)

  datatype Result<+T> = Ok(value: T) | Err(error: ErrorCode)

  datatype ErrorCode =
    | MailboxNotFound | DraftNotFound | InvalidArgument | InvalidDomain | ConstraintFailed
    | DraftAlreadySent | DraftVersionConflict | MailboxMismatch | DraftStatusChanged
    | AttachmentConflict | AttachmentNotFound | InvalidAttachment | AttachmentTypeBlocked | AttachmentLimitExceeded
    | SendNotConfigured | SendPolicyBlocked | ConfirmationRequired | DirectSendNotAllowed
    | ConfirmationInvalid | ConfirmationUsed | ConfirmationExpired | ConfirmationStale
    | IdempotencyConflict | ReceiptMissing | AlreadySubmitting | StatusUnknown
    | HourlyLimitExceeded | DailyLimitExceeded
    | OperationMissing | OperationStateConflict
    | SmtpRejected | TransportFailed

  /** A row key in a table whose primary key starts with the owning user. */
  datatype Owned<+K> = Owned(user: UserKey, id: K)

  /** `domain` is the canonical ASCII domain, or None where canonicalising it throws. */
  datatype Address = Address(local: string, domain: Option<Domain>)

  /** SHA-256 as a free constructor: collision-free by assumption. */
  datatype Digest = Sha256(bytes: seq<Byte>)

  datatype Attachment = Attachment(
    id: string, filename: string, mimeType: string, size: nat, sha256: Digest, content: seq<Byte>)

  datatype Payload = Payload(
    mailbox: MailboxId, to: seq<Address>, cc: seq<Address>, bcc: seq<Address>, subject: string, body: string,
    inReplyTo: Option<string>, references: seq<string>, attachments: seq<Attachment>)

  datatype AttachmentFields = AttachmentFields(
    id: string, filename: string, mimeType: string, size: nat, sha256: Digest)

  /** SHA-256 over the JSON of exactly these fields, again as a free constructor. */
  datatype PayloadHash = PayloadHash(
    mailbox: MailboxId, to: seq<Address>, cc: seq<Address>, bcc: seq<Address>, subject: string, body: string,
    inReplyTo: Option<string>, references: seq<string>, attachments: seq<AttachmentFields>)

  function FieldsOf(a: Attachment): AttachmentFields {
    AttachmentFields(a.id, a.filename, a.mimeType, a.size, a.sha256)
  }

  function HashPayload(p: Payload): PayloadHash {
    PayloadHash(p.mailbox, p.to, p.cc, p.bcc, p.subject, p.body, p.inReplyTo, p.references,
                seq(|p.attachments|, i requires 0 <= i < |p.attachments| => FieldsOf(p.attachments[i])))
  }

  /** The attachment's recorded digest and size are those of its bytes. */
  predicate Digested(a: Attachment) {
    a.sha256 == Sha256(a.content) && a.size == |a.content|
  }

  /** The hash leaves the attachment bytes out, yet it pins the whole payload
      as long as the recorded digests are honest. */
  lemma HashDeterminesPayload(p: Payload, q: Payload)
    requires forall a :: a in p.attachments || a in q.attachments ==> Digested(a)
    ensures HashPayload(p) == HashPayload(q) <==> p == q
  {
    if HashPayload(p) == HashPayload(q) {
      assert |HashPayload(p).attachments| == |p.attachments| && |HashPayload(q).attachments| == |q.attachments|;
      forall i | 0 <= i < |p.attachments| ensures p.attachments[i] == q.attachments[i] {
        assert HashPayload(p).attachments[i] == FieldsOf(p.attachments[i]);
        assert HashPayload(q).attachments[i] == FieldsOf(q.attachments[i]);
        assert p.attachments[i] in p.attachments && q.attachments[i] in q.attachments;
      }
    }
  }

  datatype DraftStatus = Editable | Sent

  datatype Draft = Draft(
    mailbox: MailboxId, version: nat, payload: Payload, status: DraftStatus, updatedAt: Time,
    sentAt: Option<Time>, messageId: Option<string>)

  datatype SendMode = Disabled | DraftOnly | DirectAllowed

  datatype ExternalRule = Allow | Warn | Block

  /** A listed domain is its canonical ASCII form, or None where canonicalising the stored text throws. */
  datatype Policy = Policy(
    mode: SendMode, allowed: seq<Option<Domain>>, denied: seq<Option<Domain>>, maxRecipients: nat, maxPerHour: nat,
    maxPerDay: nat, external: ExternalRule, ttlSeconds: nat)

  const DEFAULT_POLICY := Policy(DraftOnly, [], [], 10, 20, 100, Warn, 180)

  /** The numeric bounds of the policy schema. */
  predicate WithinSchema(p: Policy) {
    && 1 <= p.maxRecipients <= 50 && 1 <= p.maxPerHour <= 500 && 1 <= p.maxPerDay <= 5000
    && 30 <= p.ttlSeconds <= 600 && |p.allowed| <= 128 && |p.denied| <= 128
  }

  datatype PolicyRow = PolicyRow(policy: Policy, version: nat)

  datatype Usage = Usage(lastHour: nat, lastDay: nat)

  datatype Confirmation = Confirmation(
    draft: DraftId, draftVersion: nat, payloadHash: PayloadHash, policyVersion: nat, expiresAt: Time,
    usedAt: Option<Time>)

  /** Idempotency keys carry the prefix "draft:" or "direct:", so the two families never meet. */
  datatype SendKey = DraftKey(draft: DraftId) | DirectKey(token: string)

  datatype SendState = Submitting | SmtpAccepted | PartialRejected | Rejected | Unknown

  datatype Operation = Operation(
    id: OperationId, mailbox: MailboxId, payloadHash: PayloadHash, state: SendState, accepted: nat, rejected: nat,
    errorCode: Option<ErrorCode>, createdAt: Time, updatedAt: Time)

  datatype Receipt = Receipt(
    mailbox: MailboxId, messageId: string, accepted: seq<string>, rejected: seq<string>, sentAt: Time)

  datatype StoredReceipt = StoredReceipt(payloadHash: PayloadHash, receipt: Receipt)

  datatype RateEvent = RateEvent(user: UserKey, operation: OperationId, mailbox: MailboxId, at: Time)

  datatype AuditAction = ConfirmationPrepared | SendSubmitting | MailSent | OutcomeUnknown

  datatype AuditEvent = AuditEvent(
    user: UserKey, operation: Option<OperationId>, mailbox: MailboxId, action: AuditAction, passed: bool,
    state: Option<SendState>, recipients: nat, externals: nat, reason: Option<ErrorCode>, at: Time)

  /** The database: every table the sending code reads or writes, as a value.
      `rateEvents` and `sendAudit` are in insertion order. */
  datatype Tables = Tables(
    mailboxes: set<Owned<MailboxId>>,
    drafts: map<Owned<DraftId>, Draft>,
    policies: map<Owned<MailboxId>, PolicyRow>,
    confirmations: map<Owned<ConfirmationId>, Confirmation>,
    operations: map<Owned<SendKey>, Operation>,
    receipts: map<Owned<SendKey>, StoredReceipt>,
    rateEvents: seq<RateEvent>,
    sendAudit: seq<AuditEvent>)

  function EmptyTables(mailboxes: set<Owned<MailboxId>>): Tables {
    Tables(mailboxes, map[], map[], map[], map[], map[], [], [])
  }

  predicate Completed(s: SendState) {
    s == SmtpAccepted || s == PartialRejected || s == Rejected
  }

  function StateOf(r: Receipt): SendState {
    if |r.accepted| == 0 then Rejected
    else if |r.rejected| > 0 then PartialRejected
    else SmtpAccepted
  }
}
