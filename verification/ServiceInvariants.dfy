/** What every sequence of service calls keeps: confirmations are fresh and attachments stay within bounds;
    and each service call is a run of the fine-grained protocol. */
module ServiceInvariants {
  import opened MailTypes
  import opened SendPolicy
  import opened Ledger
  import S = SendServiceSpec
  import P = SendProtocol

  datatype ServiceStep =
    | CreateDraft(input: S.ComposeInput, d: DraftId, now: Time)
    | CreateReply(reply: Result<S.Reply>, d: DraftId, now: Time)
    | UpdateDraft(d: DraftId, expected: nat, input: S.ComposeInput, now: Time)
    | AddAttachment(d: DraftId, expected: nat, attachment: S.AttachmentInput, id: string, now: Time)
    | RemoveAttachment(d: DraftId, expected: nat, id: string, now: Time)
    | UpdatePolicy(m: MailboxId, policy: Policy)
    | Prepare(d: DraftId, c: ConfirmationId, checkedAt: Time, now: Time)
    | BeginDraft(d: DraftId, confirmation: Option<ConfirmationId>, seen: Option<nat>, operation: OperationId,
                 checkedAt: Time, consumedAt: Time, reservedAt: Time, now: Time)
    | BeginDirect(token: string, payload: Payload, operation: OperationId, checkedAt: Time, reservedAt: Time, now: Time)
    | Settle(plan: P.Plan, outcome: S.Outcome, now: Time)
    | MarkAccepted(plan: P.Plan, receipt: Receipt)

  function Call(reg: S.Registry, t: Tables, u: UserKey, step: ServiceStep): Tables {
    match step
    case CreateDraft(input, d, now) => S.CreateDraft(reg, t, u, input, d, now).tables
    case CreateReply(reply, d, now) => S.CreateReplyDraft(t, u, reply, d, now).tables
    case UpdateDraft(d, expected, input, now) => S.UpdateDraft(reg, t, u, d, expected, input, now).tables
    case AddAttachment(d, expected, input, id, now) => S.AddDraftAttachment(t, u, d, expected, input, id, now).tables
    case RemoveAttachment(d, expected, id, now) => RemoveDraftAttachment(t, u, d, expected, id, now).tables
    case UpdatePolicy(m, policy) => S.UpdateSendPolicy(reg, t, u, m, policy).tables
    case Prepare(d, c, checkedAt, now) => S.PrepareDraftSend(reg, t, u, d, c, checkedAt, now).tables
    case BeginDraft(d, c, expected, operation, checkedAt, consumedAt, reservedAt, now) =>
      S.BeginSendDraft(reg, t, u, d, c, expected, operation, checkedAt, consumedAt, reservedAt, now).tables
    case BeginDirect(token, payload, operation, checkedAt, reservedAt, now) =>
      S.BeginSendDirect(reg, t, u, token, payload, operation, checkedAt, reservedAt, now).tables
    case Settle(plan, outcome, now) => S.SettleSend(t, plan, outcome, now).tables
    case MarkAccepted(plan, receipt) => S.MarkAccepted(t, plan, receipt).tables
  }

  datatype Invocation = Invocation(registry: S.Registry, user: UserKey, step: ServiceStep)

  function Calls(t: Tables, invocations: seq<Invocation>): Tables {
    if invocations == [] then t
    else
      var last := invocations[|invocations| - 1];
      Call(last.registry, Calls(t, invocations[..|invocations| - 1]), last.user, last.step)
  }

  // ----- confirmations are fresh -----

  /** The row of a draft that can still be edited describes that draft and its policy as they are now. */
  predicate Current(t: Tables, c: Owned<ConfirmationId>)
    requires c in t.confirmations
  {
    var row, k := t.confirmations[c], Owned(c.user, t.confirmations[c].draft);
    && k in t.drafts
    && (t.drafts[k].status == Editable ==>
          && row.draftVersion == t.drafts[k].version && row.payloadHash == HashPayload(t.drafts[k].payload)
          && row.policyVersion == CurrentPolicy(t, c.user, t.drafts[k].mailbox).version)
  }

  predicate OnePerDraft(rows: map<Owned<ConfirmationId>, Confirmation>) {
    forall c, d | c in rows && d in rows && c.user == d.user && rows[c].draft == rows[d].draft :: c == d
  }

  predicate MailboxesAgree(t: Tables) {
    forall k <- t.drafts :: t.drafts[k].mailbox == t.drafts[k].payload.mailbox
  }

  predicate Fresh(t: Tables) {
    OnePerDraft(t.confirmations) && MailboxesAgree(t) && forall c <- t.confirmations :: Current(t, c)
  }

  predicate SameDrafting(t: Tables, t': Tables) {
    t'.confirmations == t.confirmations && t'.drafts == t.drafts && t'.policies == t.policies
  }

  lemma SameKeepsFresh(t: Tables, t': Tables)
    requires Fresh(t) && SameDrafting(t, t')
    ensures Fresh(t')
  {
    forall c <- t'.confirmations ensures Current(t', c) {
      assert Current(t, c);
    }
  }

  lemma CreateKeepsFresh(t: Tables, u: UserKey, d: DraftId, payload: Payload, now: Time)
    requires Fresh(t)
    ensures Fresh(Ledger.CreateDraft(t, u, d, payload, now).tables)
  {
    var t' := Ledger.CreateDraft(t, u, d, payload, now).tables;
    forall c <- t'.confirmations ensures Current(t', c) {
      assert Current(t, c);
    }
  }

  lemma UpdateKeepsFresh(t: Tables, u: UserKey, d: DraftId, expected: nat, payload: Payload, now: Time)
    requires Fresh(t)
    ensures Fresh(Ledger.UpdateDraft(t, u, d, expected, payload, now).tables)
  {
    var t' := Ledger.UpdateDraft(t, u, d, expected, payload, now).tables;
    forall c <- t'.confirmations ensures Current(t', c) {
      assert Current(t, c);
    }
  }

  lemma PolicyKeepsFresh(t: Tables, u: UserKey, m: MailboxId, policy: Policy)
    requires Fresh(t)
    ensures Fresh(SetSendPolicy(t, u, m, policy).tables)
  {
    var t' := SetSendPolicy(t, u, m, policy).tables;
    forall c <- t'.confirmations ensures Current(t', c) {
      assert Current(t, c);
    }
  }

  lemma MarkSentKeepsFresh(t: Tables, u: UserKey, d: DraftId, receipt: Receipt)
    requires Fresh(t)
    ensures Fresh(MarkDraftSent(t, u, d, receipt).tables)
  {
    var t' := MarkDraftSent(t, u, d, receipt).tables;
    forall c <- t'.confirmations ensures Current(t', c) {
      assert Current(t, c);
    }
  }

  lemma ConsumeTouches(
    t: Tables, u: UserKey, id: ConfirmationId, d: DraftId, version: nat, hash: PayloadHash, policyVersion: nat,
    now: Time)
    ensures var t' := ConsumeSendConfirmation(t, u, id, d, version, hash, policyVersion, now).tables;
            && t'.drafts == t.drafts && t'.policies == t.policies
            && (t'.confirmations == t.confirmations
                || (Owned(u, id) in t.confirmations
                    && t'.confirmations == Using(t.confirmations, Owned(u, id), now)))
  {
  }

  function Using(rows: map<Owned<ConfirmationId>, Confirmation>, k: Owned<ConfirmationId>, now: Time)
    : map<Owned<ConfirmationId>, Confirmation>
    requires k in rows
  {
    rows[k := rows[k].(usedAt := Some(now))]
  }

  lemma UsingKeepsFresh(t: Tables, t': Tables, k: Owned<ConfirmationId>, now: Time)
    requires Fresh(t) && t'.drafts == t.drafts && t'.policies == t.policies
    requires k in t.confirmations && t'.confirmations == Using(t.confirmations, k, now)
    ensures Fresh(t')
  {
    forall c <- t'.confirmations ensures Current(t', c) {
      assert Current(t, c);
    }
  }

  lemma ConsumeKeepsFresh(
    t: Tables, u: UserKey, id: ConfirmationId, d: DraftId, version: nat, hash: PayloadHash, policyVersion: nat,
    now: Time)
    requires Fresh(t)
    ensures Fresh(ConsumeSendConfirmation(t, u, id, d, version, hash, policyVersion, now).tables)
  {
    var t' := ConsumeSendConfirmation(t, u, id, d, version, hash, policyVersion, now).tables;
    ConsumeTouches(t, u, id, d, version, hash, policyVersion, now);
    if t'.confirmations == t.confirmations {
      SameKeepsFresh(t, t');
    } else {
      UsingKeepsFresh(t, t', Owned(u, id), now);
    }
  }

  lemma ReplacingKeepsFresh(t: Tables, t': Tables, u: UserKey, d: DraftId, id: ConfirmationId, row: Confirmation)
    requires Fresh(t) && t'.drafts == t.drafts && t'.policies == t.policies && row.draft == d
    requires t'.confirmations == WithoutDraft(t.confirmations, u, d)[Owned(u, id) := row]
    requires Current(t', Owned(u, id))
    ensures Fresh(t')
  {
    forall c <- t'.confirmations ensures Current(t', c) {
      if c != Owned(u, id) {
        assert Current(t, c);
      }
    }
  }

  /** The new row is current because it is built from one reading of the draft and its policy. */
  lemma PrepareKeepsFresh(
    t: Tables, u: UserKey, d: DraftId, v: Validation, ttlSeconds: nat, id: ConfirmationId, now: Time)
    requires Fresh(t) && Owned(u, d) in t.drafts
    requires v.policyVersion == CurrentPolicy(t, u, t.drafts[Owned(u, d)].mailbox).version
    ensures Fresh(CreateSendConfirmation(t, u, d, HashPayload(t.drafts[Owned(u, d)].payload), v, ttlSeconds, id,
                                         now).tables)
  {
    var tx := CreateSendConfirmation(t, u, d, HashPayload(t.drafts[Owned(u, d)].payload), v, ttlSeconds, id, now);
    if tx.result.Ok? {
      ReplacingKeepsFresh(t, tx.tables, u, d, id, tx.result.value);
    }
  }

  lemma ReserveKeepsFresh(t: Tables, p: P.Plan, operation: OperationId, reservedAt: Time, now: Time)
    requires Fresh(t)
    ensures Fresh(S.ReservePlan(t, p, operation, reservedAt, now).tables)
  {
    SameKeepsFresh(t, S.ReservePlan(t, p, operation, reservedAt, now).tables);
  }

  /** Completing and giving up leave drafts, policies and confirmations alone. */
  lemma CompletionIsQuiet(t: Tables, p: P.Plan, outcome: S.Outcome, now: Time)
    ensures SameDrafting(t, S.TryComplete(t, p, outcome).tables)
  {
  }

  lemma GivingUpIsQuiet(t: Tables, p: P.Plan, code: ErrorCode, now: Time)
    ensures SameDrafting(t, S.GiveUp(t, p, code, now))
  {
  }

  lemma MarkAcceptedKeepsFresh(t: Tables, p: P.Plan, receipt: Receipt)
    requires Fresh(t)
    ensures Fresh(S.MarkAccepted(t, p, receipt).tables)
  {
    if p.origin.FromDraft? {
      MarkSentKeepsFresh(t, p.user, p.origin.draft, receipt);
    }
  }

  lemma SettlingIsQuiet(t: Tables, p: P.Plan, outcome: S.Outcome, now: Time)
    ensures SameDrafting(t, S.SettleSend(t, p, outcome, now).tables)
  {
    var completion := S.TryComplete(t, p, outcome);
    CompletionIsQuiet(t, p, outcome, now);
    if completion.failure.Some? {
      GivingUpIsQuiet(completion.tables, p, completion.failure.value, now);
    }
  }

  lemma PrepareCallKeepsFresh(
    reg: S.Registry, t: Tables, u: UserKey, d: DraftId, c: ConfirmationId, checkedAt: Time, now: Time)
    requires Fresh(t)
    ensures Fresh(S.PrepareDraftSend(reg, t, u, d, c, checkedAt, now).tables)
  {
    if Owned(u, d) in t.drafts {
      var draft := t.drafts[Owned(u, d)];
      var v := S.Validate(reg, t, u, d, draft.version, draft.payload, checkedAt);
      if v.Ok? {
        PrepareKeepsFresh(t, u, d, v.value, CurrentPolicy(t, u, draft.payload.mailbox).policy.ttlSeconds, c, now);
      }
    }
  }

  lemma ConsumeAndReserveKeepsFresh(
    t: Tables, p: P.Plan, operation: OperationId, consumedAt: Time, reservedAt: Time, now: Time)
    requires Fresh(t) && p.origin.FromDraft?
    ensures Fresh(S.ConsumeAndReserve(t, p, operation, consumedAt, reservedAt, now).tables)
  {
    var o := p.origin;
    ConsumeKeepsFresh(t, p.user, o.confirmation, o.draft, o.version, HashPayload(p.payload), p.view.version,
                      consumedAt);
    ReserveKeepsFresh(ConsumeSendConfirmation(t, p.user, o.confirmation, o.draft, o.version, HashPayload(p.payload),
                                              p.view.version, consumedAt).tables, p, operation, reservedAt, now);
  }

  lemma SendKeepsFresh(reg: S.Registry, t: Tables, u: UserKey, step: ServiceStep)
    requires Fresh(t) && !Drafting(step) && !step.UpdatePolicy?
    ensures Fresh(Call(reg, t, u, step))
  {
    match step
    case Prepare(d, c, checkedAt, now) => PrepareCallKeepsFresh(reg, t, u, d, c, checkedAt, now);
    case BeginDraft(d, c, expected, operation, checkedAt, consumedAt, reservedAt, now) =>
      var planned := S.PlanDraft(reg, t, u, d, c, expected, checkedAt);
      if planned.Ok? && planned.value.Deliver? {
        ConsumeAndReserveKeepsFresh(t, planned.value.plan, operation, consumedAt, reservedAt, now);
      }
    case BeginDirect(token, payload, operation, checkedAt, reservedAt, now) =>
      var planned := S.PlanDirect(reg, t, u, token, payload, checkedAt);
      if planned.Ok? && planned.value.Deliver? {
        ReserveKeepsFresh(t, planned.value.plan, operation, reservedAt, now);
      }
    case Settle(plan, outcome, now) =>
      SettlingIsQuiet(t, plan, outcome, now);
      SameKeepsFresh(t, S.SettleSend(t, plan, outcome, now).tables);
    case MarkAccepted(plan, receipt) => MarkAcceptedKeepsFresh(t, plan, receipt);
  }

  lemma EditKeepsFresh(reg: S.Registry, t: Tables, u: UserKey, step: ServiceStep)
    requires Fresh(t) && Drafting(step)
    ensures Fresh(Call(reg, t, u, step))
  {
    match step
    case CreateDraft(input, d, now) =>
      if S.Compose(reg, input).Ok? {
        CreateKeepsFresh(t, u, d, S.Compose(reg, input).value, now);
      }
    case CreateReply(reply, d, now) =>
      if reply.Ok? {
        CreateKeepsFresh(t, u, d, S.ReplyPayload(reply.value), now);
      }
    case UpdateDraft(d, expected, input, now) =>
      if Owned(u, d) in t.drafts && S.Compose(reg, input).Ok? {
        var current := t.drafts[Owned(u, d)].payload;
        UpdateKeepsFresh(t, u, d, expected,
                         S.Compose(reg, input).value.(inReplyTo := current.inReplyTo, references := current.references,
                                                      attachments := current.attachments), now);
      }
    case AddAttachment(d, expected, input, id, now) =>
      if Owned(u, d) in t.drafts && S.NormalizeAttachment(input, id).Ok? {
        var p := t.drafts[Owned(u, d)].payload;
        var a := S.NormalizeAttachment(input, id).value;
        UpdateKeepsFresh(t, u, d, expected, p.(attachments := p.attachments + [a]), now);
      }
    case RemoveAttachment(d, expected, id, now) =>
      if Owned(u, d) in t.drafts {
        var p := t.drafts[Owned(u, d)].payload;
        UpdateKeepsFresh(t, u, d, expected, p.(attachments := Without(p.attachments, id)), now);
      }
  }

  /** After any sequence of service calls a draft has at most one confirmation, and while the draft is still
      editable that confirmation carries its current version, current payload hash and current policy version. */
  lemma {:induction false} ConfirmationsAreFresh(mailboxes: set<Owned<MailboxId>>, invocations: seq<Invocation>)
    ensures Fresh(Calls(EmptyTables(mailboxes), invocations))
  {
    if invocations != [] {
      var last := invocations[|invocations| - 1];
      var t := Calls(EmptyTables(mailboxes), invocations[..|invocations| - 1]);
      ConfirmationsAreFresh(mailboxes, invocations[..|invocations| - 1]);
      match last.step
      case UpdatePolicy(m, policy) => PolicyKeepsFresh(t, last.user, m, policy);
      case CreateDraft(_, _, _) => EditKeepsFresh(last.registry, t, last.user, last.step);
      case CreateReply(_, _, _) => EditKeepsFresh(last.registry, t, last.user, last.step);
      case UpdateDraft(_, _, _, _) => EditKeepsFresh(last.registry, t, last.user, last.step);
      case AddAttachment(_, _, _, _, _) => EditKeepsFresh(last.registry, t, last.user, last.step);
      case RemoveAttachment(_, _, _, _) => EditKeepsFresh(last.registry, t, last.user, last.step);
      case _ => SendKeepsFresh(last.registry, t, last.user, last.step);
    }
  }

  // ----- policies stay within the schema, confirmations are short-lived -----

  predicate PoliciesOk(t: Tables) {
    forall k <- t.policies :: WithinSchema(t.policies[k].policy) && t.policies[k].version >= 1
  }

  lemma OtherStepsKeepPolicies(reg: S.Registry, t: Tables, u: UserKey, step: ServiceStep)
    requires !step.UpdatePolicy?
    ensures Call(reg, t, u, step).policies == t.policies
  {
    match step
    case BeginDraft(d, c, expected, operation, checkedAt, consumedAt, reservedAt, now) =>
      var planned := S.PlanDraft(reg, t, u, d, c, expected, checkedAt);
      if planned.Ok? && planned.value.Deliver? {
        ConsumeAndReserveKeepsDrafts(t, planned.value.plan, operation, consumedAt, reservedAt, now);
      }
    case BeginDirect(token, payload, operation, checkedAt, reservedAt, now) =>
      var planned := S.PlanDirect(reg, t, u, token, payload, checkedAt);
      if planned.Ok? && planned.value.Deliver? {
        ReserveKeepsDrafts(t, planned.value.plan, operation, reservedAt, now);
      }
    case Settle(plan, outcome, now) => SettlingIsQuiet(t, plan, outcome, now);
    case _ =>
  }

  lemma PolicyStepKeepsSchema(t: Tables, u: UserKey, m: MailboxId, policy: Policy)
    requires PoliciesOk(t)
    ensures PoliciesOk(SetSendPolicy(t, u, m, policy).tables)
  {
  }

  lemma {:induction false} PoliciesStayWithinSchema(mailboxes: set<Owned<MailboxId>>, invocations: seq<Invocation>)
    ensures PoliciesOk(Calls(EmptyTables(mailboxes), invocations))
  {
    if invocations != [] {
      var last := invocations[|invocations| - 1];
      var t := Calls(EmptyTables(mailboxes), invocations[..|invocations| - 1]);
      PoliciesStayWithinSchema(mailboxes, invocations[..|invocations| - 1]);
      if last.step.UpdatePolicy? {
        PolicyStepKeepsSchema(t, last.user, last.step.m, last.step.policy);
      } else {
        OtherStepsKeepPolicies(last.registry, t, last.user, last.step);
      }
    }
  }

  /** Whatever the policies were set to meanwhile, a confirmation prepared now can be used for at least half a
      minute and at most ten, and only for a message of at most 50 recipients that no rule refuses. */
  lemma ConfirmationsAreShortLived(
    mailboxes: set<Owned<MailboxId>>, invocations: seq<Invocation>, reg: S.Registry, u: UserKey, d: DraftId,
    c: ConfirmationId, checkedAt: Time, now: Time)
    ensures var t := Calls(EmptyTables(mailboxes), invocations);
            var r := S.PrepareDraftSend(reg, t, u, d, c, checkedAt, now).result;
            r.Ok? ==>
              && now + 30_000 <= r.value.expiresAt <= now + 600_000
              && Owned(u, d) in t.drafts && |Recipients(t.drafts[Owned(u, d)].payload)| <= 50
  {
    var t := Calls(EmptyTables(mailboxes), invocations);
    PoliciesStayWithinSchema(mailboxes, invocations);
    if S.PrepareDraftSend(reg, t, u, d, c, checkedAt, now).result.Ok? {
      var draft := t.drafts[Owned(u, d)];
      var view := CurrentPolicy(t, u, draft.payload.mailbox);
      assert WithinSchema(view.policy);
      PreparedWithinLimits(reg, t, u, d, c, checkedAt, now);
    }
  }

  lemma PreparedWithinLimits(
    reg: S.Registry, t: Tables, u: UserKey, d: DraftId, c: ConfirmationId, checkedAt: Time, now: Time)
    requires S.PrepareDraftSend(reg, t, u, d, c, checkedAt, now).result.Ok?
    ensures Owned(u, d) in t.drafts
    ensures var p := t.drafts[Owned(u, d)].payload;
            var view := CurrentPolicy(t, u, p.mailbox);
            && |Recipients(p)| <= view.policy.maxRecipients
            && S.PrepareDraftSend(reg, t, u, d, c, checkedAt, now).result.value.expiresAt
               == now + view.policy.ttlSeconds * 1000
  {
    var draft := t.drafts[Owned(u, d)];
    var p := draft.payload;
    var view := CurrentPolicy(t, u, p.mailbox);
    var usage := SendUsage(t, u, p.mailbox, checkedAt);
    GateIsExact(reg[p.mailbox].own, d, draft.version, p, view, usage);
    assert !Violates(TooManyRecipients, reg[p.mailbox].own.value, Recipients(p), view.policy, usage);
  }

  // ----- attachments stay within bounds -----

  predicate IdsUnique(attachments: seq<Attachment>) {
    forall i, j | 0 <= i < j < |attachments| :: attachments[i].id != attachments[j].id
  }

  predicate AttachmentsOk(attachments: seq<Attachment>) {
    && |attachments| <= S.MAX_ATTACHMENTS && IdsUnique(attachments) && S.TotalSize(attachments) <= S.MAX_TOTAL_BYTES
    && forall a <- attachments :: Digested(a) && 1 <= a.size <= S.MAX_ATTACHMENT_BYTES
  }

  predicate DraftsBounded(t: Tables) {
    forall k <- t.drafts :: AttachmentsOk(t.drafts[k].payload.attachments)
  }

  lemma {:induction false} WithoutShrinks(attachments: seq<Attachment>, id: string)
    ensures var kept := Without(attachments, id);
            && |kept| <= |attachments| && S.TotalSize(kept) <= S.TotalSize(attachments)
            && forall a :: a in kept <==> a in attachments && a.id != id
  {
    if attachments != [] {
      var init, last := attachments[..|attachments| - 1], attachments[|attachments| - 1];
      WithoutShrinks(init, id);
      assert attachments == init + [last];
      var rest := Without(init, id);
      assert (rest + [last])[..|rest|] == rest;
    }
  }

  lemma {:induction false} WithoutKeepsIds(attachments: seq<Attachment>, id: string)
    requires IdsUnique(attachments)
    ensures IdsUnique(Without(attachments, id))
  {
    if attachments != [] {
      var init, last := attachments[..|attachments| - 1], attachments[|attachments| - 1];
      assert attachments == init + [last];
      WithoutKeepsIds(init, id);
      WithoutShrinks(init, id);
      IdsAppend(init, Without(init, id), last);
    }
  }

  lemma IdsAppend(init: seq<Attachment>, kept: seq<Attachment>, last: Attachment)
    requires IdsUnique(init + [last]) && IdsUnique(kept) && forall a :: a in kept ==> a in init
    ensures IdsUnique(kept + [last])
  {
    forall i | 0 <= i < |kept| ensures kept[i].id != last.id {
      assert kept[i] in init;
      var j :| 0 <= j < |init| && init[j] == kept[i];
      assert (init + [last])[j].id != (init + [last])[|init|].id;
    }
  }

  lemma AppendKeepsAttachments(attachments: seq<Attachment>, a: Attachment)
    requires AttachmentsOk(attachments) && |attachments| < S.MAX_ATTACHMENTS && !HasAttachment(attachments, a.id)
    requires S.TotalSize(attachments) + a.size <= S.MAX_TOTAL_BYTES
    requires Digested(a) && 1 <= a.size <= S.MAX_ATTACHMENT_BYTES
    ensures AttachmentsOk(attachments + [a])
  {
    assert (attachments + [a])[..|attachments|] == attachments;
  }

  lemma UpdateKeepsBounds(t: Tables, u: UserKey, d: DraftId, expected: nat, payload: Payload, now: Time)
    requires DraftsBounded(t) && AttachmentsOk(payload.attachments)
    ensures DraftsBounded(Ledger.UpdateDraft(t, u, d, expected, payload, now).tables)
  {
  }

  predicate Drafting(step: ServiceStep) {
    step.CreateDraft? || step.CreateReply? || step.UpdateDraft? || step.AddAttachment? || step.RemoveAttachment?
  }

  lemma DraftingKeepsBounds(reg: S.Registry, t: Tables, u: UserKey, step: ServiceStep)
    requires DraftsBounded(t) && Drafting(step)
    ensures DraftsBounded(Call(reg, t, u, step))
  {
    match step
    case CreateDraft(input, d, now) =>
    case CreateReply(reply, d, now) =>
    case UpdateDraft(d, expected, input, now) =>
      if Owned(u, d) in t.drafts && S.Compose(reg, input).Ok? {
        var current := t.drafts[Owned(u, d)].payload;
        UpdateKeepsBounds(t, u, d, expected,
                          S.Compose(reg, input).value.(inReplyTo := current.inReplyTo, references := current.references,
                                                       attachments := current.attachments), now);
      }
    case AddAttachment(d, expected, input, id, now) =>
      var t' := Call(reg, t, u, step);
      if t' != t {
        var p := t.drafts[Owned(u, d)].payload;
        var a := S.NormalizeAttachment(input, id).value;
        AppendKeepsAttachments(p.attachments, a);
        UpdateKeepsBounds(t, u, d, expected, p.(attachments := p.attachments + [a]), now);
      }
    case RemoveAttachment(d, expected, id, now) =>
      if Owned(u, d) in t.drafts {
        var p := t.drafts[Owned(u, d)].payload;
        WithoutShrinks(p.attachments, id);
        WithoutKeepsIds(p.attachments, id);
        UpdateKeepsBounds(t, u, d, expected, p.(attachments := Without(p.attachments, id)), now);
      }
  }

  predicate PayloadsKept(t: Tables, t': Tables) {
    t'.drafts.Keys == t.drafts.Keys && forall k <- t.drafts :: t'.drafts[k].payload == t.drafts[k].payload
  }

  lemma ReserveKeepsDrafts(t: Tables, p: P.Plan, operation: OperationId, reservedAt: Time, now: Time)
    ensures var t' := S.ReservePlan(t, p, operation, reservedAt, now).tables;
            t'.drafts == t.drafts && t'.policies == t.policies
  {
  }

  lemma ConsumeAndReserveKeepsDrafts(
    t: Tables, p: P.Plan, operation: OperationId, consumedAt: Time, reservedAt: Time, now: Time)
    requires p.origin.FromDraft?
    ensures var t' := S.ConsumeAndReserve(t, p, operation, consumedAt, reservedAt, now).tables;
            t'.drafts == t.drafts && t'.policies == t.policies
  {
    var o := p.origin;
    ConsumeTouches(t, p.user, o.confirmation, o.draft, o.version, HashPayload(p.payload), p.view.version, consumedAt);
    ReserveKeepsDrafts(ConsumeSendConfirmation(t, p.user, o.confirmation, o.draft, o.version, HashPayload(p.payload),
                                               p.view.version, consumedAt).tables, p, operation, reservedAt, now);
  }

  lemma OtherStepsKeepPayloads(reg: S.Registry, t: Tables, u: UserKey, step: ServiceStep)
    requires !Drafting(step)
    ensures PayloadsKept(t, Call(reg, t, u, step))
  {
    match step
    case Settle(p, outcome, now) => SettlingIsQuiet(t, p, outcome, now);
    case BeginDraft(d, c, expected, operation, checkedAt, consumedAt, reservedAt, now) =>
      var planned := S.PlanDraft(reg, t, u, d, c, expected, checkedAt);
      if planned.Ok? && planned.value.Deliver? {
        ConsumeAndReserveKeepsDrafts(t, planned.value.plan, operation, consumedAt, reservedAt, now);
      }
    case BeginDirect(token, payload, operation, checkedAt, reservedAt, now) =>
      var planned := S.PlanDirect(reg, t, u, token, payload, checkedAt);
      if planned.Ok? && planned.value.Deliver? {
        ReserveKeepsDrafts(t, planned.value.plan, operation, reservedAt, now);
      }
    case _ =>
  }

  /** After any sequence of service calls every draft has at most 10 attachments with distinct ids, each of
      1 byte to 10 MiB with an honest digest, and at most 18 MiB in all. */
  lemma {:induction false} AttachmentsStayBounded(mailboxes: set<Owned<MailboxId>>, invocations: seq<Invocation>)
    ensures DraftsBounded(Calls(EmptyTables(mailboxes), invocations))
  {
    if invocations != [] {
      var last := invocations[|invocations| - 1];
      var t := Calls(EmptyTables(mailboxes), invocations[..|invocations| - 1]);
      AttachmentsStayBounded(mailboxes, invocations[..|invocations| - 1]);
      if Drafting(last.step) {
        DraftingKeepsBounds(last.registry, t, last.user, last.step);
      } else {
        OtherStepsKeepPayloads(last.registry, t, last.user, last.step);
        var t' := Call(last.registry, t, last.user, last.step);
        forall k <- t'.drafts ensures AttachmentsOk(t'.drafts[k].payload.attachments) {
          assert t'.drafts[k].payload == t.drafts[k].payload;
        }
      }
    }
  }

  /** So a draft's hash pins its content byte for byte, although the hash never covers the bytes. */
  lemma ConfirmedHashPinsContent(mailboxes: set<Owned<MailboxId>>, earlier: seq<Invocation>, later: seq<Invocation>,
                                 k: Owned<DraftId>, l: Owned<DraftId>)
    requires k in Calls(EmptyTables(mailboxes), earlier).drafts && l in Calls(EmptyTables(mailboxes), later).drafts
    ensures var p := Calls(EmptyTables(mailboxes), earlier).drafts[k].payload;
            var q := Calls(EmptyTables(mailboxes), later).drafts[l].payload;
            HashPayload(p) == HashPayload(q) <==> p == q
  {
    AttachmentsStayBounded(mailboxes, earlier);
    AttachmentsStayBounded(mailboxes, later);
    var t, t' := Calls(EmptyTables(mailboxes), earlier), Calls(EmptyTables(mailboxes), later);
    assert AttachmentsOk(t.drafts[k].payload.attachments) && AttachmentsOk(t'.drafts[l].payload.attachments);
    HashDeterminesPayload(t.drafts[k].payload, t'.drafts[l].payload);
  }

  // ----- a service call is a run of the protocol -----

  lemma PlansAreAdmissible(
    reg: S.Registry, t: Tables, u: UserKey, d: DraftId, c: Option<ConfirmationId>, seen: Option<nat>, token: string,
    payload: Payload, checkedAt: Time)
    ensures var b := S.PlanDraft(reg, t, u, d, c, seen, checkedAt);
            b.Ok? && b.value.Deliver? ==> P.Admissible(b.value.plan) && b.value.plan.origin.FromDraft?
                                          && b.value.plan.origin.draft == d && b.value.plan.user == u
    ensures var b := S.PlanDirect(reg, t, u, token, payload, checkedAt);
            b.Ok? && b.value.Deliver? ==> P.Admissible(b.value.plan) && b.value.plan.origin.Direct?
  {
  }

  lemma ConsumeMatches(s: P.State, id: P.CallId, now: Time)
    requires id in s.calls && s.calls[id].phase == P.Planned && s.calls[id].plan.origin.FromDraft?
    ensures var p := s.calls[id].plan;
            var tx := ConsumeSendConfirmation(s.tables, p.user, p.origin.confirmation, p.origin.draft, p.origin.version,
                                              HashPayload(p.payload), p.view.version, now);
            var s' := P.Do(s, P.Act(id, P.Consume(now)));
            && s'.tables == tx.tables && id in s'.calls && s'.calls[id].plan == p
            && s'.calls[id].phase == (if tx.result.Ok? then P.Confirmed else P.Closed)
  {
    assert P.Do(s, P.Act(id, P.Consume(now))) == P.ConsumeStep(s, id, now);
  }

  /** The call goes on to deliver, or with a stored receipt, or not at all. */
  ghost predicate BegunAs(tx: Tx<S.Begun>, phase: P.Phase) {
    && (tx.result.Ok? && tx.result.value.Deliver? <==> phase == P.Holding)
    && (forall receipt :: tx.result == Ok(S.Replay(receipt)) <==> phase == P.Settled(receipt))
  }

  lemma ReserveMatches(s: P.State, id: P.CallId, operation: OperationId, reservedAt: Time, now: Time)
    requires id in s.calls && reservedAt <= now
    requires var c := s.calls[id];
             c.phase == P.Confirmed || c.phase == P.Closed || (c.phase == P.Planned && c.plan.origin.Direct?)
    ensures var s' := P.Do(s, P.Act(id, P.Reserve(operation, reservedAt, now)));
            && id in s'.calls
            && if s.calls[id].phase == P.Closed then s' == s
               else
                 var tx := S.ReservePlan(s.tables, s.calls[id].plan, operation, reservedAt, now);
                 && s'.tables == tx.tables
                 && BegunAs(tx, s'.calls[id].phase)
  {
    assert P.Do(s, P.Act(id, P.Reserve(operation, reservedAt, now)))
        == P.ReserveStep(s, id, operation, reservedAt, now);
  }

  lemma ConsumeAndReserveIsARun(
    s: P.State, id: P.CallId, operation: OperationId, consumedAt: Time, reservedAt: Time, now: Time)
    requires id in s.calls && s.calls[id].phase == P.Planned && s.calls[id].plan.origin.FromDraft? && reservedAt <= now
    ensures var tx := S.ConsumeAndReserve(s.tables, s.calls[id].plan, operation, consumedAt, reservedAt, now);
            var s' := P.Do(P.Do(s, P.Act(id, P.Consume(consumedAt))), P.Act(id, P.Reserve(operation, reservedAt, now)));
            && tx.tables == s'.tables && id in s'.calls
            && BegunAs(tx, s'.calls[id].phase)
  {
    ConsumeMatches(s, id, consumedAt);
    ReserveMatches(P.Do(s, P.Act(id, P.Consume(consumedAt))), id, operation, reservedAt, now);
  }

  /** sendDraft up to its await is the protocol's enter, consume and reserve, taken without interruption. */
  lemma BeginSendDraftIsARun(
    s: P.State, id: P.CallId, reg: S.Registry, u: UserKey, d: DraftId, c: Option<ConfirmationId>, seen: Option<nat>,
    operation: OperationId, checkedAt: Time, consumedAt: Time, reservedAt: Time, now: Time)
    requires id !in s.calls && reservedAt <= now
    ensures var tx := S.BeginSendDraft(reg, s.tables, u, d, c, seen, operation, checkedAt, consumedAt, reservedAt, now);
            var b := S.PlanDraft(reg, s.tables, u, d, c, seen, checkedAt);
            if b.Ok? && b.value.Deliver? then
              var s' := P.Do(P.Do(P.Do(s, P.Enter(id, b.value.plan)), P.Act(id, P.Consume(consumedAt))),
                             P.Act(id, P.Reserve(operation, reservedAt, now)));
              && tx.tables == s'.tables && id in s'.calls
              && BegunAs(tx, s'.calls[id].phase)
            else tx.tables == s.tables
  {
    PlansAreAdmissible(reg, s.tables, u, d, c, seen, "", EmptyPayload(), checkedAt);
    var b := S.PlanDraft(reg, s.tables, u, d, c, seen, checkedAt);
    if b.Ok? && b.value.Deliver? {
      EnterPlans(s, id, b.value.plan);
      ConsumeAndReserveIsARun(P.Do(s, P.Enter(id, b.value.plan)), id, operation, consumedAt, reservedAt, now);
    }
  }

  lemma EnterPlans(s: P.State, id: P.CallId, p: P.Plan)
    requires id !in s.calls && P.Admissible(p)
    ensures var s' := P.Do(s, P.Enter(id, p));
            s'.tables == s.tables && id in s'.calls && s'.calls[id].plan == p && s'.calls[id].phase == P.Planned
  {
  }

  function EmptyPayload(): Payload {
    Payload("", [], [], [], "", "", None, [], [])
  }

  lemma BeginSendDirectIsARun(
    s: P.State, id: P.CallId, reg: S.Registry, u: UserKey, token: string, payload: Payload, operation: OperationId,
    checkedAt: Time, reservedAt: Time, now: Time)
    requires id !in s.calls && reservedAt <= now
    ensures var tx := S.BeginSendDirect(reg, s.tables, u, token, payload, operation, checkedAt, reservedAt, now);
            var b := S.PlanDirect(reg, s.tables, u, token, payload, checkedAt);
            if b.Ok? && b.value.Deliver? then
              var s' := P.Do(P.Do(s, P.Enter(id, b.value.plan)), P.Act(id, P.Reserve(operation, reservedAt, now)));
              && tx.tables == s'.tables && id in s'.calls
              && BegunAs(tx, s'.calls[id].phase)
            else tx.tables == s.tables
  {
    PlansAreAdmissible(reg, s.tables, u, "", None, None, token, payload, checkedAt);
    var b := S.PlanDirect(reg, s.tables, u, token, payload, checkedAt);
    if b.Ok? && b.value.Deliver? {
      EnterPlans(s, id, b.value.plan);
      ReserveMatches(P.Do(s, P.Enter(id, b.value.plan)), id, operation, reservedAt, now);
    }
  }

  /** #sendOnce's continuation is the protocol's complete, followed by give-up if that did not settle the call: rolled
      back, committed but not read back, or refused by the tables. */
  lemma SettleSendIsARun(s: P.State, id: P.CallId, receipt: Receipt, fault: P.CompletionFault, now: Time)
    requires id in s.calls && s.calls[id].phase == P.Answered(receipt)
    ensures var tx := S.SettleSend(s.tables, s.calls[id].plan, S.Delivered(receipt, fault), now);
            var s1 := P.Do(s, P.Act(id, P.Complete(fault)));
            && (tx.result == Ok(receipt) ==> s1.calls[id].phase == P.Settled(receipt) && tx.tables == s1.tables)
            && (tx.result.Err? ==>
                  s1.calls[id].phase.Failing? && tx.tables == P.Do(s1, P.Act(id, P.GiveUp(now))).tables)
  {
    CompleteMatches(s, id, receipt, fault);
    var s1 := P.Do(s, P.Act(id, P.Complete(fault)));
    if s1.calls[id].phase.Failing? {
      assert P.Do(s1, P.Act(id, P.GiveUp(now))) == P.GiveUpStep(s1, id, now);
    }
  }

  /** sendDraft's continuation is the protocol's mark-sent. */
  lemma MarkAcceptedIsARun(s: P.State, id: P.CallId, receipt: Receipt)
    requires id in s.calls && s.calls[id].phase == P.Settled(receipt)
    ensures S.MarkAccepted(s.tables, s.calls[id].plan, receipt).tables == P.Do(s, P.Act(id, P.MarkSent)).tables
  {
    assert P.Do(s, P.Act(id, P.MarkSent)) == P.MarkSentStep(s, id);
  }

  lemma CompleteMatches(s: P.State, id: P.CallId, receipt: Receipt, fault: P.CompletionFault)
    requires id in s.calls && s.calls[id].phase == P.Answered(receipt)
    ensures var completion := S.TryComplete(s.tables, s.calls[id].plan, S.Delivered(receipt, fault));
            var s1 := P.Do(s, P.Act(id, P.Complete(fault)));
            && s1.tables == completion.tables && id in s1.calls && s1.calls[id].plan == s.calls[id].plan
            && s1.calls[id].phase
               == if completion.failure.Some? then P.Failing(completion.failure.value) else P.Settled(receipt)
  {
    assert P.Do(s, P.Act(id, P.Complete(fault))) == P.CompleteStep(s, id, fault);
  }

  lemma FailedSendIsARun(s: P.State, id: P.CallId, code: ErrorCode, now: Time)
    requires id in s.calls && (s.calls[id].phase == P.Holding || s.calls[id].phase == P.Awaiting)
    ensures S.SettleSend(s.tables, s.calls[id].plan, S.Failed(code), now).tables
         == P.Do(P.Do(s, P.Act(id, P.Throw(code))), P.Act(id, P.GiveUp(now))).tables
  {
    var s1 := P.Do(s, P.Act(id, P.Throw(code)));
    assert s1.tables == s.tables && s1.calls[id].phase == P.Failing(code) && s1.calls[id].plan == s.calls[id].plan;
    assert P.Do(s1, P.Act(id, P.GiveUp(now))) == P.GiveUpStep(s1, id, now);
  }
}
