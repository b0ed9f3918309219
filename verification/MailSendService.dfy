/** The sending service: each call up to its await, and each continuation after it, runs without yielding,
    so it is one step over the tables. */
module SendServiceSpec {
  import opened MailTypes
  import opened SendPolicy
  import opened Ledger
  import P = SendProtocol

  const MAX_ATTACHMENTS := 10
  const MAX_ATTACHMENT_BYTES := 10 * 1024 * 1024
  const MAX_TOTAL_BYTES := 18 * 1024 * 1024

  /** What the service's registry knows about a mailbox. */
  datatype Registered = Registered(own: Option<Domain>, sendEnabled: bool)

  type Registry = map<MailboxId, Registered>

  /** Header and body text arrive normalised; None where the text rules reject them. */
  datatype ComposeInput = ComposeInput(
    mailbox: MailboxId, to: seq<Address>, cc: seq<Address>, bcc: seq<Address>, subject: Option<string>,
    body: Option<string>)

  function Compose(reg: Registry, input: ComposeInput): Result<Payload> {
    var count := |input.to| + |input.cc| + |input.bcc|;
    if input.mailbox !in reg then Err(MailboxNotFound)
    else if count == 0 || count > 50 || input.subject.None? || input.body.None? then Err(InvalidArgument)
    else Ok(Payload(input.mailbox, input.to, input.cc, input.bcc, input.subject.value, input.body.value, None, [], []))
  }

  /** A composed reply: who it goes to and the headers that thread it. */
  datatype Reply = Reply(
    mailbox: MailboxId, to: Address, subject: string, body: string, inReplyTo: string, references: seq<string>)

  function ReplyPayload(r: Reply): Payload {
    Payload(r.mailbox, [r.to], [], [], r.subject, r.body, Some(r.inReplyTo), r.references, [])
  }

  /** Name and type are None where their character rules reject them; `blocked` is the executable-extension rule;
      `content` is None where the text is not well-formed base64. */
  datatype AttachmentInput = AttachmentInput(
    filename: Option<string>, blocked: bool, mimeType: Option<string>, content: Option<seq<Byte>>)

  function EncodedLength(bytes: nat): nat {
    (bytes + 2) / 3 * 4
  }

  function NormalizeAttachment(input: AttachmentInput, id: string): Result<Attachment> {
    if input.filename.None? then Err(InvalidAttachment)
    else if input.blocked then Err(AttachmentTypeBlocked)
    else if input.mimeType.None? then Err(InvalidAttachment)
    else if input.content.None? || input.content.value == []
         || EncodedLength(|input.content.value|) > EncodedLength(MAX_ATTACHMENT_BYTES) + 4 then Err(InvalidAttachment)
    else if |input.content.value| > MAX_ATTACHMENT_BYTES then Err(AttachmentLimitExceeded)
    else
      var bytes := input.content.value;
      Ok(Attachment(id, input.filename.value, input.mimeType.value, |bytes|, Sha256(bytes), bytes))
  }

  function TotalSize(attachments: seq<Attachment>): nat {
    if attachments == [] then 0
    else TotalSize(attachments[..|attachments| - 1]) + attachments[|attachments| - 1].size
  }

  // ----- draft calls -----

  function CreateDraft(reg: Registry, t: Tables, u: UserKey, input: ComposeInput, d: DraftId, now: Time): Tx<()> {
    var payload := Compose(reg, input);
    if payload.Err? then Tx(t, Err(payload.error)) else Ledger.CreateDraft(t, u, d, payload.value, now)
  }

  /** `reply` is the composed reply, or the error composing it threw. */
  function CreateReplyDraft(t: Tables, u: UserKey, reply: Result<Reply>, d: DraftId, now: Time): Tx<()> {
    if reply.Err? then Tx(t, Err(reply.error)) else Ledger.CreateDraft(t, u, d, ReplyPayload(reply.value), now)
  }

  function UpdateDraft(
    reg: Registry, t: Tables, u: UserKey, d: DraftId, expected: nat, input: ComposeInput, now: Time): Tx<()>
  {
    if Owned(u, d) !in t.drafts then Tx(t, Err(DraftNotFound))
    else
      var current := t.drafts[Owned(u, d)].payload;
      var payload := Compose(reg, input);
      if current.mailbox != input.mailbox then Tx(t, Err(MailboxMismatch))
      else if payload.Err? then Tx(t, Err(payload.error))
      else
        var merged := payload.value.(inReplyTo := current.inReplyTo, references := current.references,
                                     attachments := current.attachments);
        Ledger.UpdateDraft(t, u, d, expected, merged, now)
  }

  function AddDraftAttachment(
    t: Tables, u: UserKey, d: DraftId, expected: nat, input: AttachmentInput, id: string, now: Time): Tx<()>
  {
    if Owned(u, d) !in t.drafts then Tx(t, Err(DraftNotFound))
    else
      var draft := t.drafts[Owned(u, d)];
      var a := NormalizeAttachment(input, id);
      if draft.status == Sent then Tx(t, Err(DraftAlreadySent))
      else if draft.version != expected then Tx(t, Err(DraftVersionConflict))
      else if |draft.payload.attachments| >= MAX_ATTACHMENTS then Tx(t, Err(AttachmentLimitExceeded))
      else if a.Err? then Tx(t, Err(a.error))
      else if TotalSize(draft.payload.attachments) + a.value.size > MAX_TOTAL_BYTES then
        Tx(t, Err(AttachmentLimitExceeded))
      else Ledger.AddDraftAttachment(t, u, d, expected, a.value, now)
  }

  function UpdateSendPolicy(reg: Registry, t: Tables, u: UserKey, m: MailboxId, policy: Policy): Tx<()> {
    if m !in reg then Tx(t, Err(MailboxNotFound)) else SetSendPolicy(t, u, m, policy)
  }

  // ----- sending -----

  function Validate(
    reg: Registry, t: Tables, u: UserKey, draft: DraftId, version: nat, payload: Payload, now: Time): Result<Validation>
  {
    if payload.mailbox !in reg then Err(MailboxNotFound)
    else if !reg[payload.mailbox].sendEnabled then Err(SendNotConfigured)
    else
      var view := GetSendPolicy(t, u, payload.mailbox);
      if view.Err? then Err(view.error)
      else
        Evaluate(reg[payload.mailbox].own, draft, version, payload, view.value, SendUsage(t, u, payload.mailbox, now))
  }

  /** `checkedAt` is the clock read that counts the usage, `now` the one that dates the confirmation. */
  function PrepareDraftSend(
    reg: Registry, t: Tables, u: UserKey, d: DraftId, c: ConfirmationId, checkedAt: Time, now: Time): Tx<Confirmation>
  {
    if Owned(u, d) !in t.drafts then Tx(t, Err(DraftNotFound))
    else
      var draft := t.drafts[Owned(u, d)];
      var v := Validate(reg, t, u, d, draft.version, draft.payload, checkedAt);
      if draft.status == Sent then Tx(t, Err(DraftAlreadySent))
      else if v.Err? then Tx(t, Err(v.error))
      else if v.value.blocked then Tx(t, Err(SendPolicyBlocked))
      else
        CreateSendConfirmation(t, u, d, HashPayload(draft.payload), v.value,
                               CurrentPolicy(t, u, draft.payload.mailbox).policy.ttlSeconds, c, now)
  }

  datatype Begun = Replay(receipt: Receipt) | Deliver(plan: P.Plan)

  /** Everything a draft's send reads and checks before its first write. */
  function PlanDraft(
    reg: Registry, t: Tables, u: UserKey, d: DraftId, confirmation: Option<ConfirmationId>, expected: Option<nat>,
    checkedAt: Time): Result<Begun>
  {
    if Owned(u, d) !in t.drafts then Err(DraftNotFound)
    else
      var draft, key := t.drafts[Owned(u, d)], Owned(u, DraftKey(d));
      var payload := draft.payload;
      if key in t.receipts then
        if t.receipts[key].payloadHash != HashPayload(payload) then Err(IdempotencyConflict)
        else Ok(Replay(t.receipts[key].receipt))
      else if draft.status == Sent then Err(DraftAlreadySent)
      else if payload.mailbox !in reg || Owned(u, payload.mailbox) !in t.mailboxes then Err(MailboxNotFound)
      else
        var v := Validate(reg, t, u, d, draft.version, payload, checkedAt);
        if v.Err? then Err(v.error)
        else if v.value.blocked then Err(SendPolicyBlocked)
        else if confirmation.None? || expected.None? then Err(ConfirmationRequired)
        else if expected.value != draft.version then Err(DraftVersionConflict)
        else
          Ok(Deliver(P.Plan(u, P.FromDraft(d, confirmation.value, draft.version), payload, reg[payload.mailbox].own,
                            CurrentPolicy(t, u, payload.mailbox), SendUsage(t, u, payload.mailbox, checkedAt),
                            v.value)))
  }

  function PlanDirect(
    reg: Registry, t: Tables, u: UserKey, token: string, payload: Payload, checkedAt: Time): Result<Begun>
  {
    var key := Owned(u, DirectKey(token));
    if key in t.receipts then
      if t.receipts[key].payloadHash != HashPayload(payload) then Err(IdempotencyConflict)
      else Ok(Replay(t.receipts[key].receipt))
    else
      var view := if payload.mailbox !in reg then Err(MailboxNotFound) else GetSendPolicy(t, u, payload.mailbox);
      if view.Err? then Err(view.error)
      else if view.value.policy.mode != DirectAllowed then Err(DirectSendNotAllowed)
      else
        var v := Validate(reg, t, u, "direct", 0, payload, checkedAt);
        if v.Err? then Err(v.error)
        else if v.value.blocked then Err(SendPolicyBlocked)
        else
          Ok(Deliver(P.Plan(u, P.Direct(token), payload, reg[payload.mailbox].own, view.value,
                            SendUsage(t, u, payload.mailbox, checkedAt), v.value)))
  }

  function ReservePlan(t: Tables, p: P.Plan, operation: OperationId, reservedAt: Time, now: Time): Tx<Begun> {
    var tx := ReserveSendOperation(t, p.user, P.KeyOf(p).id, p.payload.mailbox, HashPayload(p.payload), p.view.policy,
                                   p.validation.recipients, p.validation.externals, operation, reservedAt, now);
    Tx(tx.tables, match tx.result
                  case Ok(Fresh(_)) => Ok(Deliver(p))
                  case Ok(Replayed(_, receipt)) => Ok(Replay(receipt))
                  case Err(e) => Err(e))
  }

  /** sendDraft up to the await. A confirmation stays consumed even when the reservation is then refused. */
  function BeginSendDraft(
    reg: Registry, t: Tables, u: UserKey, d: DraftId, confirmation: Option<ConfirmationId>, expected: Option<nat>,
    operation: OperationId, checkedAt: Time, consumedAt: Time, reservedAt: Time, now: Time): Tx<Begun>
  {
    var planned := PlanDraft(reg, t, u, d, confirmation, expected, checkedAt);
    if planned.Err? || planned.value.Replay? then Tx(t, planned)
    else ConsumeAndReserve(t, planned.value.plan, operation, consumedAt, reservedAt, now)
  }

  function ConsumeAndReserve(
    t: Tables, p: P.Plan, operation: OperationId, consumedAt: Time, reservedAt: Time, now: Time): Tx<Begun>
    requires p.origin.FromDraft?
  {
    var consumed := ConsumeSendConfirmation(t, p.user, p.origin.confirmation, p.origin.draft, p.origin.version,
                                            HashPayload(p.payload), p.view.version, consumedAt);
    if consumed.result.Err? then Tx(t, Err(consumed.result.error))
    else ReservePlan(consumed.tables, p, operation, reservedAt, now)
  }

  /** sendEmail and replyEmail up to the await. */
  function BeginSendDirect(
    reg: Registry, t: Tables, u: UserKey, token: string, payload: Payload, operation: OperationId, checkedAt: Time,
    reservedAt: Time, now: Time): Tx<Begun>
  {
    var planned := PlanDirect(reg, t, u, token, payload, checkedAt);
    if planned.Err? || planned.value.Replay? then Tx(t, planned)
    else ReservePlan(t, planned.value.plan, operation, reservedAt, now)
  }

  /** What the code between the await and the catch meets: a receipt and how storing it goes, or an error. */
  datatype Outcome = Delivered(receipt: Receipt, fault: P.CompletionFault) | Failed(code: ErrorCode)

  datatype Completion = Completion(tables: Tables, failure: Option<ErrorCode>)

  /** The try block: store the receipt. A completion that commits may still throw when it is read back. */
  function TryComplete(t: Tables, p: P.Plan, outcome: Outcome): Completion {
    if outcome.Failed? then Completion(t, Some(outcome.code))
    else if outcome.fault.RolledBack? then Completion(t, Some(outcome.fault.cause))
    else
      var tx := CompleteSendOperation(t, p.user, P.KeyOf(p).id, outcome.receipt, p.validation.recipients,
                                      p.validation.externals);
      if tx.result.Err? then Completion(t, Some(tx.result.error))
      else Completion(tx.tables, if outcome.fault.CommittedThenThrew? then Some(outcome.fault.cause) else None)
  }

  function GiveUp(t: Tables, p: P.Plan, code: ErrorCode, now: Time): Tables {
    MarkSendOperationUnknown(t, p.user, P.KeyOf(p).id, code, p.validation.recipients, p.validation.externals,
                             now).tables
  }

  /** #sendOnce after its await: complete, or mark unknown when anything threw. */
  function SettleSend(t: Tables, p: P.Plan, outcome: Outcome, now: Time): Tx<Receipt> {
    var completion := TryComplete(t, p, outcome);
    if completion.failure.Some? then
      Tx(GiveUp(completion.tables, p, completion.failure.value, now), Err(StatusUnknown))
    else Tx(completion.tables, Ok(outcome.receipt))
  }

  /** sendDraft after its own await, a turn later: mark an accepted draft sent. */
  function MarkAccepted(t: Tables, p: P.Plan, receipt: Receipt): Tx<Receipt> {
    if p.origin.FromDraft? && |receipt.accepted| > 0 then
      var marked := MarkDraftSent(t, p.user, p.origin.draft, receipt);
      Tx(marked.tables, if marked.result.Err? then Err(marked.result.error) else Ok(receipt))
    else Tx(t, Ok(receipt))
  }
}

/** The service object, method by method, over the store object. */
module MailSendService {
  import opened MailTypes
  import opened SendPolicy
  import opened Ledger
  import opened MailboxStore
  import S = SendServiceSpec
  import P = SendProtocol

  class Service {
    const user: UserKey
    const store: Store
    const registry: S.Registry

    constructor (user: UserKey, store: Store, registry: S.Registry)
      ensures this.user == user && this.store == store && this.registry == registry
    {
      this.user, this.store, this.registry := user, store, registry;
    }

    method Validate(draft: DraftId, version: nat, payload: Payload, now: Time) returns (r: Result<Validation>)
      ensures r == S.Validate(registry, store.Snapshot(), user, draft, version, payload, now)
    {
      if payload.mailbox !in registry { return Err(MailboxNotFound); }
      if !registry[payload.mailbox].sendEnabled { return Err(SendNotConfigured); }
      var view := GetSendPolicy(store.Snapshot(), user, payload.mailbox);
      if view.Err? { return Err(view.error); }
      r := EvaluateSendPolicy(registry[payload.mailbox].own, draft, version, payload, view.value,
                              SendUsage(store.Snapshot(), user, payload.mailbox, now));
    }

    method CreateDraft(input: S.ComposeInput, d: DraftId, now: Time) returns (r: Result<()>)
      modifies store
      ensures Tx(store.Snapshot(), r) == S.CreateDraft(registry, old(store.Snapshot()), user, input, d, now)
    {
      var payload := S.Compose(registry, input);
      if payload.Err? { return Err(payload.error); }
      r := store.CreateDraft(user, d, payload.value, now);
    }

    method CreateReplyDraft(reply: Result<S.Reply>, d: DraftId, now: Time) returns (r: Result<()>)
      modifies store
      ensures Tx(store.Snapshot(), r) == S.CreateReplyDraft(old(store.Snapshot()), user, reply, d, now)
    {
      if reply.Err? { return Err(reply.error); }
      r := store.CreateDraft(user, d, S.ReplyPayload(reply.value), now);
    }

    method UpdateDraft(d: DraftId, expected: nat, input: S.ComposeInput, now: Time) returns (r: Result<()>)
      modifies store
      ensures Tx(store.Snapshot(), r) == S.UpdateDraft(registry, old(store.Snapshot()), user, d, expected, input, now)
    {
      if Owned(user, d) !in store.drafts { return Err(DraftNotFound); }
      var current := store.drafts[Owned(user, d)].payload;
      if current.mailbox != input.mailbox { return Err(MailboxMismatch); }
      var payload := S.Compose(registry, input);
      if payload.Err? { return Err(payload.error); }
      r := store.UpdateDraft(user, d, expected,
                             payload.value.(inReplyTo := current.inReplyTo, references := current.references,
                                            attachments := current.attachments), now);
    }

    method AddDraftAttachment(d: DraftId, expected: nat, input: S.AttachmentInput, id: string, now: Time)
      returns (r: Result<()>)
      modifies store
      ensures Tx(store.Snapshot(), r) == S.AddDraftAttachment(old(store.Snapshot()), user, d, expected, input, id, now)
    {
      if Owned(user, d) !in store.drafts { return Err(DraftNotFound); }
      var draft := store.drafts[Owned(user, d)];
      if draft.status == Sent { return Err(DraftAlreadySent); }
      if draft.version != expected { return Err(DraftVersionConflict); }
      if |draft.payload.attachments| >= S.MAX_ATTACHMENTS { return Err(AttachmentLimitExceeded); }
      var a := S.NormalizeAttachment(input, id);
      if a.Err? { return Err(a.error); }
      if S.TotalSize(draft.payload.attachments) + a.value.size > S.MAX_TOTAL_BYTES {
        return Err(AttachmentLimitExceeded);
      }
      r := store.AddDraftAttachment(user, d, expected, a.value, now);
    }

    method UpdateSendPolicy(m: MailboxId, policy: Policy) returns (r: Result<()>)
      modifies store
      ensures Tx(store.Snapshot(), r) == S.UpdateSendPolicy(registry, old(store.Snapshot()), user, m, policy)
    {
      if m !in registry { return Err(MailboxNotFound); }
      r := store.SetSendPolicy(user, m, policy);
    }

    method PrepareDraftSend(d: DraftId, c: ConfirmationId, checkedAt: Time, now: Time) returns (r: Result<Confirmation>)
      modifies store
      ensures Tx(store.Snapshot(), r)
           == S.PrepareDraftSend(registry, old(store.Snapshot()), user, d, c, checkedAt, now)
    {
      if Owned(user, d) !in store.drafts { return Err(DraftNotFound); }
      var draft := store.drafts[Owned(user, d)];
      if draft.status == Sent { return Err(DraftAlreadySent); }
      var v := Validate(d, draft.version, draft.payload, checkedAt);
      if v.Err? { return Err(v.error); }
      if v.value.blocked { return Err(SendPolicyBlocked); }
      var view := CurrentPolicy(store.Snapshot(), user, draft.payload.mailbox);
      r := store.CreateSendConfirmation(user, d, HashPayload(draft.payload), v.value, view.policy.ttlSeconds, c, now);
    }

    method BeginSendDraft(
      d: DraftId, confirmation: Option<ConfirmationId>, expected: Option<nat>, operation: OperationId, checkedAt: Time,
      consumedAt: Time, reservedAt: Time, now: Time)
      returns (r: Result<S.Begun>)
      modifies store
      ensures Tx(store.Snapshot(), r)
           == S.BeginSendDraft(registry, old(store.Snapshot()), user, d, confirmation, expected, operation, checkedAt,
                               consumedAt, reservedAt, now)
    {
      if Owned(user, d) !in store.drafts { return Err(DraftNotFound); }
      var draft, key := store.drafts[Owned(user, d)], Owned(user, DraftKey(d));
      var payload := draft.payload;
      if key in store.receipts {
        if store.receipts[key].payloadHash != HashPayload(payload) { return Err(IdempotencyConflict); }
        return Ok(S.Replay(store.receipts[key].receipt));
      }
      if draft.status == Sent { return Err(DraftAlreadySent); }
      if payload.mailbox !in registry { return Err(MailboxNotFound); }
      var policy := GetSendPolicy(store.Snapshot(), user, payload.mailbox);
      if policy.Err? { return Err(policy.error); }
      var view := policy.value;
      var v := Validate(d, draft.version, payload, checkedAt);
      if v.Err? { return Err(v.error); }
      if v.value.blocked { return Err(SendPolicyBlocked); }
      if confirmation.None? || expected.None? { return Err(ConfirmationRequired); }
      if expected.value != draft.version { return Err(DraftVersionConflict); }
      var p := P.Plan(user, P.FromDraft(d, confirmation.value, draft.version), payload, registry[payload.mailbox].own,
                      view, SendUsage(store.Snapshot(), user, payload.mailbox, checkedAt), v.value);
      var consumed := store.ConsumeSendConfirmation(user, confirmation.value, d, draft.version, HashPayload(payload),
                                                    view.version, consumedAt);
      if consumed.Err? { return Err(consumed.error); }
      r := SendOnce(p, operation, reservedAt, now);
    }

    method BeginSendDirect(
      token: string, payload: Payload, operation: OperationId, checkedAt: Time, reservedAt: Time, now: Time)
      returns (r: Result<S.Begun>)
      modifies store
      ensures Tx(store.Snapshot(), r)
           == S.BeginSendDirect(registry, old(store.Snapshot()), user, token, payload, operation, checkedAt,
                                reservedAt, now)
    {
      var key := Owned(user, DirectKey(token));
      if key in store.receipts {
        if store.receipts[key].payloadHash != HashPayload(payload) { return Err(IdempotencyConflict); }
        return Ok(S.Replay(store.receipts[key].receipt));
      }
      if payload.mailbox !in registry { return Err(MailboxNotFound); }
      var view := GetSendPolicy(store.Snapshot(), user, payload.mailbox);
      if view.Err? { return Err(view.error); }
      if view.value.policy.mode != DirectAllowed { return Err(DirectSendNotAllowed); }
      var v := Validate("direct", 0, payload, checkedAt);
      if v.Err? { return Err(v.error); }
      if v.value.blocked { return Err(SendPolicyBlocked); }
      var p := P.Plan(user, P.Direct(token), payload, registry[payload.mailbox].own, view.value,
                      SendUsage(store.Snapshot(), user, payload.mailbox, checkedAt), v.value);
      r := SendOnce(p, operation, reservedAt, now);
    }

    method SendOnce(p: P.Plan, operation: OperationId, reservedAt: Time, now: Time) returns (r: Result<S.Begun>)
      modifies store
      ensures Tx(store.Snapshot(), r) == S.ReservePlan(old(store.Snapshot()), p, operation, reservedAt, now)
    {
      var reservation := store.ReserveSendOperation(
        p.user, P.KeyOf(p).id, p.payload.mailbox, HashPayload(p.payload), p.view.policy, p.validation.recipients,
        p.validation.externals, operation, reservedAt, now);
      if reservation.Err? { return Err(reservation.error); }
      if reservation.value.Replayed? { return Ok(S.Replay(reservation.value.receipt)); }
      return Ok(S.Deliver(p));
    }

    method SettleSend(p: P.Plan, outcome: S.Outcome, now: Time) returns (r: Result<Receipt>)
      modifies store
      ensures Tx(store.Snapshot(), r) == S.SettleSend(old(store.Snapshot()), p, outcome, now)
    {
      var key, v := P.KeyOf(p).id, p.validation;
      var failure: Option<ErrorCode> := None;
      if outcome.Failed? {
        failure := Some(outcome.code);
      } else if outcome.fault.RolledBack? {
        failure := Some(outcome.fault.cause);
      } else {
        var completed := store.CompleteSendOperation(p.user, key, outcome.receipt, v.recipients, v.externals);
        if completed.Err? {
          failure := Some(completed.error);
        } else if outcome.fault.CommittedThenThrew? {
          failure := Some(outcome.fault.cause);
        }
      }
      if failure.Some? {
        var _ := store.MarkSendOperationUnknown(p.user, key, failure.value, v.recipients, v.externals, now);
        return Err(StatusUnknown);
      }
      return Ok(outcome.receipt);
    }

    method MarkAccepted(p: P.Plan, receipt: Receipt) returns (r: Result<Receipt>)
      modifies store
      ensures Tx(store.Snapshot(), r) == S.MarkAccepted(old(store.Snapshot()), p, receipt)
    {
      if p.origin.FromDraft? && |receipt.accepted| > 0 {
        var marked := store.MarkDraftSent(p.user, p.origin.draft, receipt);
        if marked.Err? { return Err(marked.error); }
      }
      return Ok(receipt);
    }
  }
}
