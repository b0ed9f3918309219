/** When a confirmation is prepared and redeemed, and when a send goes through: exactly, and over whole runs. */
module SendOutcomes {
  import opened MailTypes
  import opened SendPolicy
  import opened Ledger
  import opened LedgerInvariants
  import opened SendLimits
  import E = DraftEdits
  import S = SendServiceSpec
  import V = ServiceInvariants
  import P = SendProtocol

  // ----- redeeming -----

  /** A confirmation is redeemed exactly if it is this draft's, unused, not yet expired, and of this version, hash and
      policy; otherwise the first of these that fails is the answer and nothing changes. */
  lemma ConsumeIsExact(
    t: Tables, u: UserKey, id: ConfirmationId, d: DraftId, version: nat, hash: PayloadHash, policyVersion: nat,
    now: Time)
    ensures var k, tx := Owned(u, id), ConsumeSendConfirmation(t, u, id, d, version, hash, policyVersion, now);
            && (tx.result == Err(ConfirmationInvalid) <==> k !in t.confirmations || t.confirmations[k].draft != d)
            && (k in t.confirmations && t.confirmations[k].draft == d ==>
                  var row := t.confirmations[k];
                  && (tx.result == Err(ConfirmationUsed) <==> row.usedAt.Some?)
                  && (tx.result == Err(ConfirmationExpired) <==> row.usedAt.None? && now >= row.expiresAt)
                  && (tx.result == Err(ConfirmationStale) <==>
                        && row.usedAt.None? && now < row.expiresAt
                        && (row.draftVersion != version || row.payloadHash != hash
                            || row.policyVersion != policyVersion))
                  && (tx.result.Ok? <==>
                        && row.usedAt.None? && now < row.expiresAt && row.draftVersion == version
                        && row.payloadHash == hash && row.policyVersion == policyVersion))
            && (tx.result.Err? ==> tx.tables == t)
            && (tx.result.Ok? ==>
                  && k in tx.tables.confirmations && tx.tables.confirmations[k].usedAt == Some(now)
                  && tx.tables == t.(confirmations := tx.tables.confirmations)
                  && tx.tables.confirmations.Keys == t.confirmations.Keys
                  && forall c <- t.confirmations | c != k :: tx.tables.confirmations[c] == t.confirmations[c])
  {
  }

  /** This command of this user may spend the confirmation or take it away: a new one for the draft, an accepted edit of
      the draft, a change of its mailbox's policy, or redeeming it. */
  predicate Disturbs(t: Tables, u: UserKey, c: Command, k: Owned<ConfirmationId>)
    requires k in t.confirmations
  {
    && u == k.user
    && (match c
        case DoUpdateDraft(d, _, _, _) => d == t.confirmations[k].draft && E.Answer(t, u, c).Ok?
        case DoAddAttachment(d, _, _, _) => d == t.confirmations[k].draft && E.Answer(t, u, c).Ok?
        case DoRemoveAttachment(d, _, _, _) => d == t.confirmations[k].draft && E.Answer(t, u, c).Ok?
        case DoSetPolicy(m, _) => DraftInMailbox(t, u, t.confirmations[k].draft, m)
        case DoPrepare(d, _, _, _, id, _) => d == t.confirmations[k].draft || id == k.id
        case DoConsume(id, _, _, _, _, _) => id == k.id
        case _ => false)
  }

  predicate StillThere(t: Tables, k: Owned<ConfirmationId>, row: Confirmation) {
    k in t.confirmations && t.confirmations[k] == row
  }

  lemma UndisturbedStays(t: Tables, u: UserKey, c: Command, k: Owned<ConfirmationId>, row: Confirmation)
    requires StillThere(t, k, row) && !Disturbs(t, u, c, k)
    ensures StillThere(Execute(t, u, c), k, row)
  {
    match c
    case DoReserve(_, _, _, _, _, _, _, _, _) =>
    case DoComplete(_, _, _, _) =>
    case DoMarkUnknown(_, _, _, _, _) =>
    case _ =>
  }

  /** None of these commands disturbs the confirmation when its turn comes. */
  predicate Undisturbed(t: Tables, commands: seq<(UserKey, Command)>, k: Owned<ConfirmationId>) {
    forall i | 0 <= i < |commands| ::
      var before := ExecuteAll(t, commands[..i]);
      k in before.confirmations ==> !Disturbs(before, commands[i].0, commands[i].1, k)
  }

  lemma {:induction false} UndisturbedStaysThroughout(
    t: Tables, commands: seq<(UserKey, Command)>, k: Owned<ConfirmationId>, row: Confirmation)
    requires StillThere(t, k, row) && Undisturbed(t, commands, k)
    ensures StillThere(ExecuteAll(t, commands), k, row)
  {
    if commands != [] {
      var init, n := commands[..|commands| - 1], |commands| - 1;
      forall i | 0 <= i < |init|
        ensures var before := ExecuteAll(t, init[..i]);
                k in before.confirmations ==> !Disturbs(before, init[i].0, init[i].1, k)
      {
        assert init[..i] == commands[..i] && init[i] == commands[i];
      }
      UndisturbedStaysThroughout(t, init, k, row);
      assert commands[..n] == init;
      UndisturbedStays(ExecuteAll(t, init), commands[n].0, commands[n].1, k, row);
    }
  }

  // ----- preparing -----

  /** A confirmation is prepared exactly if nothing blocks, the draft is there, still editable and of the validated
      version, and the new id is not that of another draft's confirmation. The row says what it is for and ends its
      life that many seconds from now, it is the draft's only one, and one audit row says so. */
  lemma PrepareIsExact(
    t: Tables, u: UserKey, d: DraftId, hash: PayloadHash, v: Validation, ttlSeconds: nat, id: ConfirmationId,
    now: Time)
    ensures var k, tx := Owned(u, id), CreateSendConfirmation(t, u, d, hash, v, ttlSeconds, id, now);
            && (tx.result.Ok? <==>
                  && !v.blocked && Owned(u, d) in t.drafts && t.drafts[Owned(u, d)].status == Editable
                  && t.drafts[Owned(u, d)].version == v.draftVersion
                  && (k in t.confirmations ==> t.confirmations[k].draft == d))
            && (tx.result == Err(SendPolicyBlocked) <==> v.blocked)
            && (tx.result == Err(DraftNotFound) <==> !v.blocked && Owned(u, d) !in t.drafts)
            && (!v.blocked && Owned(u, d) in t.drafts ==>
                  && (tx.result == Err(DraftAlreadySent) <==> t.drafts[Owned(u, d)].status == Sent)
                  && (tx.result == Err(DraftVersionConflict) <==>
                        t.drafts[Owned(u, d)].status == Editable
                        && t.drafts[Owned(u, d)].version != v.draftVersion)
                  && (tx.result == Err(ConstraintFailed) <==>
                        && t.drafts[Owned(u, d)].status == Editable
                        && t.drafts[Owned(u, d)].version == v.draftVersion
                        && k in t.confirmations && t.confirmations[k].draft != d))
            && (tx.result.Err? ==> tx.tables == t)
            && (tx.result.Ok? ==>
                  && k in tx.tables.confirmations && tx.tables.confirmations[k] == tx.result.value
                  && tx.result.value
                     == Confirmation(d, v.draftVersion, hash, v.policyVersion, now + 1000 * ttlSeconds, None)
                  && (forall c <- tx.tables.confirmations | c.user == u && tx.tables.confirmations[c].draft == d ::
                        c == k)
                  && (forall c <- t.confirmations | !(c.user == u && t.confirmations[c].draft == d) ::
                        StillThere(tx.tables, c, t.confirmations[c]))
                  && tx.tables == t.(confirmations := tx.tables.confirmations, sendAudit := tx.tables.sendAudit)
                  && |tx.tables.sendAudit| == |t.sendAudit| + 1 && t.sendAudit <= tx.tables.sendAudit
                  && var e := tx.tables.sendAudit[|t.sendAudit|];
                     && e.user == u && e.mailbox == t.drafts[Owned(u, d)].mailbox && e.at == now
                     && e.recipients == v.recipients && e.externals == v.externals)
  {
  }

  /** A prepared confirmation keeps its word: as long as nothing disturbs it, whatever else is executed, it is redeemed
      at any time before the end of its life, and at none after. */
  lemma PreparedIsRedeemable(
    t: Tables, u: UserKey, d: DraftId, hash: PayloadHash, v: Validation, ttlSeconds: nat, id: ConfirmationId,
    now: Time, commands: seq<(UserKey, Command)>, at: Time)
    requires CreateSendConfirmation(t, u, d, hash, v, ttlSeconds, id, now).result.Ok?
    requires Undisturbed(CreateSendConfirmation(t, u, d, hash, v, ttlSeconds, id, now).tables, commands, Owned(u, id))
    ensures var later := ExecuteAll(CreateSendConfirmation(t, u, d, hash, v, ttlSeconds, id, now).tables, commands);
            ConsumeSendConfirmation(later, u, id, d, v.draftVersion, hash, v.policyVersion, at).result.Ok?
            <==> at < now + 1000 * ttlSeconds
  {
    var tx := CreateSendConfirmation(t, u, d, hash, v, ttlSeconds, id, now);
    PrepareIsExact(t, u, d, hash, v, ttlSeconds, id, now);
    UndisturbedStaysThroughout(tx.tables, commands, Owned(u, id), tx.result.value);
    ConsumeIsExact(ExecuteAll(tx.tables, commands), u, id, d, v.draftVersion, hash, v.policyVersion, at);
  }

  /** Redeeming works once: of two redemptions of the same row, whatever is executed between them, the second fails. */
  lemma RedeemedOnce(
    t: Tables, u: UserKey, id: ConfirmationId, d: DraftId, version: nat, hash: PayloadHash, policyVersion: nat,
    now: Time, commands: seq<(UserKey, Command)>, d': DraftId, version': nat, hash': PayloadHash,
    policyVersion': nat, at: Time)
    requires ConsumeSendConfirmation(t, u, id, d, version, hash, policyVersion, now).result.Ok?
    requires forall i | 0 <= i < |commands| :: !(commands[i].1.DoPrepare? && commands[i].1.c == id)
    ensures var later := ExecuteAll(ConsumeSendConfirmation(t, u, id, d, version, hash, policyVersion, now).tables,
                                    commands);
            ConsumeSendConfirmation(later, u, id, d', version', hash', policyVersion', at).result.Err?
  {
    var used := ConsumeSendConfirmation(t, u, id, d, version, hash, policyVersion, now).tables;
    UsedStaysUsed(used, commands, Owned(u, id));
  }

  /** Without a new one under its id a used confirmation is used for ever, or gone. */
  lemma {:induction false} UsedStaysUsed(t: Tables, commands: seq<(UserKey, Command)>, k: Owned<ConfirmationId>)
    requires k in t.confirmations && t.confirmations[k].usedAt.Some?
    requires forall i | 0 <= i < |commands| :: !(commands[i].1.DoPrepare? && commands[i].1.c == k.id)
    ensures var t' := ExecuteAll(t, commands); k in t'.confirmations ==> t'.confirmations[k].usedAt.Some?
  {
    if commands != [] {
      var init, n := commands[..|commands| - 1], |commands| - 1;
      assert forall i | 0 <= i < |init| :: init[i] == commands[i];
      UsedStaysUsed(t, init, k);
      UsedStep(ExecuteAll(t, init), commands[n].0, commands[n].1, k);
    }
  }

  lemma UsedStep(t: Tables, u: UserKey, c: Command, k: Owned<ConfirmationId>)
    requires k in t.confirmations ==> t.confirmations[k].usedAt.Some?
    requires !(c.DoPrepare? && c.c == k.id)
    ensures var t' := Execute(t, u, c); k in t'.confirmations ==> t'.confirmations[k].usedAt.Some?
  {
    match c
    case DoReserve(_, _, _, _, _, _, _, _, _) =>
    case DoComplete(_, _, _, _) =>
    case DoMarkUnknown(_, _, _, _, _) =>
    case _ =>
  }

  // ----- sending -----

  /** The message may leave this mailbox now: the mailbox is registered, enabled and known, all domains can be read, and
      no rule is broken, the limits counted over the stored reservations. */
  ghost predicate Clear(reg: S.Registry, t: Tables, u: UserKey, payload: Payload, at: Time) {
    && payload.mailbox in reg && reg[payload.mailbox].sendEnabled && Owned(u, payload.mailbox) in t.mailboxes
    && var own, policy := reg[payload.mailbox].own, CurrentPolicy(t, u, payload.mailbox).policy;
       && Parsed(own, payload, policy)
       && forall x: Reason ::
            !Violates(x, own.value, Recipients(payload), policy,
                      Usage(Hourly(t, u, payload.mailbox, at), Daily(t, u, payload.mailbox, at)))
  }

  lemma ValidateIsExact(
    reg: S.Registry, t: Tables, u: UserKey, draft: DraftId, version: nat, payload: Payload, at: Time)
    ensures var r := S.Validate(reg, t, u, draft, version, payload, at);
            && (r.Ok? && !r.value.blocked <==> Clear(reg, t, u, payload, at))
            && (r == Err(MailboxNotFound) <==>
                  payload.mailbox !in reg
                  || (reg[payload.mailbox].sendEnabled && Owned(u, payload.mailbox) !in t.mailboxes))
            && (r == Err(SendNotConfigured) <==> payload.mailbox in reg && !reg[payload.mailbox].sendEnabled)
            && (r.Ok? ==>
                  && r.value.draft == draft && r.value.draftVersion == version && r.value.mailbox == payload.mailbox
                  && r.value.policyVersion
                     == (if Owned(u, payload.mailbox) in t.policies
                         then t.policies[Owned(u, payload.mailbox)].version else 0))
  {
    if payload.mailbox in reg && reg[payload.mailbox].sendEnabled && Owned(u, payload.mailbox) in t.mailboxes {
      UsageIsStamped(t, u, payload.mailbox, at);
      GateIsExact(reg[payload.mailbox].own, draft, version, payload, CurrentPolicy(t, u, payload.mailbox),
                  SendUsage(t, u, payload.mailbox, at));
    }
  }

  /** The key is new, the limits of this policy are not reached, and the operation's id is not taken. */
  predicate Reservable(t: Tables, u: UserKey, key: SendKey, m: MailboxId, policy: Policy, id: OperationId, at: Time) {
    && Owned(u, key) !in t.operations && !OperationIdUsed(t, u, id)
    && Hourly(t, u, m, at) < policy.maxPerHour && Daily(t, u, m, at) < policy.maxPerDay
  }

  /** What was begun is to deliver this text under this key. */
  predicate Delivers(r: Result<S.Begun>, u: UserKey, key: SendKey, payload: Payload) {
    r.Ok? && r.value.Deliver? && r.value.plan.payload == payload && P.KeyOf(r.value.plan) == Owned(u, key)
  }

  /** A direct send goes on to the transport, with exactly the given text, if and only if nothing is stored under its
      key, the policy allows direct sends, no rule is broken, and the key can be reserved. */
  lemma DirectSendExactlyWhen(
    reg: S.Registry, t: Tables, u: UserKey, token: string, payload: Payload, operation: OperationId, checkedAt: Time,
    reservedAt: Time, now: Time)
    ensures var tx := S.BeginSendDirect(reg, t, u, token, payload, operation, checkedAt, reservedAt, now);
            var policy := CurrentPolicy(t, u, payload.mailbox).policy;
            && (tx.result.Ok? && tx.result.value.Deliver? <==>
                  && Owned(u, DirectKey(token)) !in t.receipts && policy.mode == DirectAllowed
                  && Clear(reg, t, u, payload, checkedAt)
                  && Reservable(t, u, DirectKey(token), payload.mailbox, policy, operation, reservedAt))
            && (tx.result.Ok? && tx.result.value.Deliver? ==> Delivers(tx.result, u, DirectKey(token), payload))
            && (!(tx.result.Ok? && tx.result.value.Deliver?) ==> tx.tables == t)
  {
    var m, policy := payload.mailbox, CurrentPolicy(t, u, payload.mailbox).policy;
    ValidateIsExact(reg, t, u, "direct", 0, payload, checkedAt);
    var planned := S.PlanDirect(reg, t, u, token, payload, checkedAt);
    if planned.Ok? && planned.value.Deliver? {
      var p := planned.value.plan;
      ReserveIsLimitedExactlyWhen(t, u, DirectKey(token), m, HashPayload(payload), policy, p.validation.recipients,
                                  p.validation.externals, operation, reservedAt, now);
    }
  }

  /** Why a direct send does not go on, and when: first what is stored under its key answers; then the mailbox, the
      policy's mode and the gate; then the reservation. */
  lemma DirectSendRefusals(
    reg: S.Registry, t: Tables, u: UserKey, token: string, payload: Payload, operation: OperationId, checkedAt: Time,
    reservedAt: Time, now: Time)
    requires Owned(u, DirectKey(token)) !in t.receipts
    ensures var r := S.BeginSendDirect(reg, t, u, token, payload, operation, checkedAt, reservedAt, now).result;
            var policy := CurrentPolicy(t, u, payload.mailbox).policy;
            var known := payload.mailbox in reg && Owned(u, payload.mailbox) in t.mailboxes;
            var clear := Clear(reg, t, u, payload, checkedAt) && policy.mode == DirectAllowed;
            && (r == Err(MailboxNotFound) <==> !known)
            && (r == Err(DirectSendNotAllowed) <==> known && policy.mode != DirectAllowed)
            && (r == Err(SendNotConfigured) <==>
                  known && policy.mode == DirectAllowed && !reg[payload.mailbox].sendEnabled)
            && (known && policy.mode == DirectAllowed && reg[payload.mailbox].sendEnabled ==>
                  && (r == Err(InvalidDomain) <==> !Parsed(reg[payload.mailbox].own, payload, policy))
                  && (r == Err(SendPolicyBlocked) <==> Parsed(reg[payload.mailbox].own, payload, policy) && !clear))
            && (r == Err(HourlyLimitExceeded) <==>
                  clear && Owned(u, DirectKey(token)) !in t.operations
                  && Hourly(t, u, payload.mailbox, reservedAt) >= policy.maxPerHour)
  {
    ValidateIsExact(reg, t, u, "direct", 0, payload, checkedAt);
    var planned := S.PlanDirect(reg, t, u, token, payload, checkedAt);
    if planned.Ok? && planned.value.Deliver? {
      var p := planned.value.plan;
      ReserveIsLimitedExactlyWhen(t, u, DirectKey(token), payload.mailbox, HashPayload(payload), p.view.policy,
                                  p.validation.recipients, p.validation.externals, operation, reservedAt, now);
      ReserveRefusals(t, u, DirectKey(token), payload.mailbox, HashPayload(payload), p.view.policy,
                      p.validation.recipients, p.validation.externals, operation, reservedAt, now);
    }
  }

  /** What a known key answers a reservation: a conflict for other content, its receipt if it is completed, and else
      that it is being sent or that its outcome is unknown. */
  lemma ReserveRefusals(
    t: Tables, u: UserKey, key: SendKey, m: MailboxId, hash: PayloadHash, policy: Policy, recipients: nat,
    externals: nat, id: OperationId, checkedAt: Time, now: Time)
    ensures var k, tx := Owned(u, key),
                         ReserveSendOperation(t, u, key, m, hash, policy, recipients, externals, id, checkedAt, now);
            && (k in t.operations ==>
                  var op := t.operations[k];
                  && tx.tables == t
                  && (tx.result == Err(IdempotencyConflict) <==> op.payloadHash != hash)
                  && (op.payloadHash == hash ==>
                        && (op.state == Submitting ==> tx.result == Err(AlreadySubmitting))
                        && (op.state == Unknown ==> tx.result == Err(StatusUnknown))
                        && (op.state != Submitting && op.state != Unknown ==>
                              tx.result == if k in t.receipts then Ok(Replayed(op, t.receipts[k].receipt))
                                           else Err(ReceiptMissing))))
            && (k !in t.operations && tx.result.Err? ==>
                  tx.tables == t && tx.result.error in {HourlyLimitExceeded, DailyLimitExceeded, ConstraintFailed})
  {
  }

  /** Settling an operation names what stands in the way; otherwise it succeeds. */
  lemma SettleRefusals(
    t: Tables, u: UserKey, key: SendKey, receipt: Receipt, code: ErrorCode, recipients: nat, externals: nat, now: Time)
    ensures var k := Owned(u, key);
            var completed := CompleteSendOperation(t, u, key, receipt, recipients, externals);
            var marked := MarkSendOperationUnknown(t, u, key, code, recipients, externals, now);
            && (completed.result.Err? ==> completed.tables == t) && (marked.result.Err? ==> marked.tables == t)
            && (completed.result == Err(OperationMissing) <==> k !in t.operations)
            && (marked.result == Err(OperationMissing) <==> k !in t.operations)
            && (k in t.operations ==>
                  && (completed.result == Err(OperationStateConflict) <==> t.operations[k].state != Submitting)
                  && (completed.result == Err(ConstraintFailed) <==>
                        && t.operations[k].state == Submitting
                        && (k in t.receipts || Owned(u, receipt.mailbox) !in t.mailboxes))
                  && marked.result.Ok?
                  && (t.operations[k].state == Submitting ==>
                        && marked.tables.operations[k].errorCode == Some(code)
                        && marked.tables.operations[k].updatedAt == now)
                  && (t.operations[k].state != Submitting ==> marked.tables.operations == t.operations))
  {
  }

  /** A draft's send goes on to the transport, with exactly the draft's text, if and only if nothing is stored under its
      key, it is editable, no rule is broken, a confirmation and the current version are given, the confirmation is
      stored for this text, version and policy, unused and not expired, and the key can be reserved. Otherwise nothing
      changes, but that a confirmation may have been used. */
  lemma DraftSendExactlyWhen(
    reg: S.Registry, t: Tables, u: UserKey, d: DraftId, c: Option<ConfirmationId>, seen: Option<nat>,
    operation: OperationId, checkedAt: Time, consumedAt: Time, reservedAt: Time, now: Time)
    ensures var tx := S.BeginSendDraft(reg, t, u, d, c, seen, operation, checkedAt, consumedAt, reservedAt, now);
            && (tx.result.Ok? && tx.result.value.Deliver? <==>
                  && Owned(u, d) in t.drafts && Owned(u, DraftKey(d)) !in t.receipts
                  && t.drafts[Owned(u, d)].status == Editable && c.Some? && seen == Some(t.drafts[Owned(u, d)].version)
                  && Clear(reg, t, u, t.drafts[Owned(u, d)].payload, checkedAt)
                  && Confirmed(t, u, d, c.value, consumedAt)
                  && Reservable(t, u, DraftKey(d), t.drafts[Owned(u, d)].payload.mailbox,
                                CurrentPolicy(t, u, t.drafts[Owned(u, d)].payload.mailbox).policy, operation,
                                reservedAt))
            && (tx.result.Ok? && tx.result.value.Deliver? ==>
                  Delivers(tx.result, u, DraftKey(d), t.drafts[Owned(u, d)].payload))
            && (!(tx.result.Ok? && tx.result.value.Deliver?) ==>
                  tx.tables == t.(confirmations := tx.tables.confirmations))
  {
    if Owned(u, d) in t.drafts {
      var row := t.drafts[Owned(u, d)];
      ValidateIsExact(reg, t, u, d, row.version, row.payload, checkedAt);
      var planned := S.PlanDraft(reg, t, u, d, c, seen, checkedAt);
      if planned.Ok? && planned.value.Deliver? {
        RedeemThenReserve(t, planned.value.plan, operation, consumedAt, reservedAt, now);
      }
    }
  }

  /** Why a draft's send does not go on, and when, in the order in which it is looked at. */
  lemma DraftSendRefusals(
    reg: S.Registry, t: Tables, u: UserKey, d: DraftId, c: Option<ConfirmationId>, seen: Option<nat>,
    operation: OperationId, checkedAt: Time, consumedAt: Time, reservedAt: Time, now: Time)
    requires Owned(u, DraftKey(d)) !in t.receipts
    ensures var r := S.BeginSendDraft(reg, t, u, d, c, seen, operation, checkedAt, consumedAt, reservedAt, now).result;
            && (r == Err(DraftNotFound) <==> Owned(u, d) !in t.drafts)
            && (Owned(u, d) in t.drafts ==>
                  var row := t.drafts[Owned(u, d)];
                  var m, policy := row.payload.mailbox, CurrentPolicy(t, u, row.payload.mailbox).policy;
                  var known := row.status == Editable && m in reg && Owned(u, m) in t.mailboxes;
                  var clear := row.status == Editable && Clear(reg, t, u, row.payload, checkedAt);
                  && (r == Err(DraftAlreadySent) <==> row.status == Sent)
                  && (r == Err(MailboxNotFound) <==> row.status == Editable && !known)
                  && (r == Err(SendNotConfigured) <==> known && !reg[m].sendEnabled)
                  && (known && reg[m].sendEnabled ==>
                        && (r == Err(InvalidDomain) <==> !Parsed(reg[m].own, row.payload, policy))
                        && (r == Err(SendPolicyBlocked) <==> Parsed(reg[m].own, row.payload, policy) && !clear))
                  && (r == Err(ConfirmationRequired) <==> clear && (c.None? || seen.None?))
                  && (r == Err(DraftVersionConflict) <==>
                        clear && c.Some? && seen.Some? && seen.value != row.version)
                  && (r in {Err(ConfirmationInvalid), Err(ConfirmationUsed), Err(ConfirmationExpired),
                            Err(ConfirmationStale)} <==>
                        && clear && c.Some? && seen == Some(row.version)
                        && !Confirmed(t, u, d, c.value, consumedAt)))
  {
    if Owned(u, d) in t.drafts {
      var row := t.drafts[Owned(u, d)];
      ValidateIsExact(reg, t, u, d, row.version, row.payload, checkedAt);
      var planned := S.PlanDraft(reg, t, u, d, c, seen, checkedAt);
      if planned.Ok? && planned.value.Deliver? {
        RedeemRefusals(t, planned.value.plan, operation, consumedAt, reservedAt, now);
      }
    }
  }

  lemma RedeemRefusals(
    t: Tables, p: P.Plan, operation: OperationId, consumedAt: Time, reservedAt: Time, now: Time)
    requires p.origin.FromDraft? && P.KeyOf(p) !in t.receipts
    ensures var r, o := S.ConsumeAndReserve(t, p, operation, consumedAt, reservedAt, now).result, p.origin;
            var consumed := ConsumeSendConfirmation(t, p.user, o.confirmation, o.draft, o.version,
                                                    HashPayload(p.payload), p.view.version, consumedAt);
            if consumed.result.Err? then r == Err(consumed.result.error)
            else
              r.Err? ==> r.error in {IdempotencyConflict, AlreadySubmitting, StatusUnknown, ReceiptMissing,
                                     HourlyLimitExceeded, DailyLimitExceeded, ConstraintFailed}
  {
    var o := p.origin;
    var consumed := ConsumeSendConfirmation(t, p.user, o.confirmation, o.draft, o.version, HashPayload(p.payload),
                                            p.view.version, consumedAt);
    ReserveRefusals(consumed.tables, p.user, P.KeyOf(p).id, p.payload.mailbox, HashPayload(p.payload), p.view.policy,
                    p.validation.recipients, p.validation.externals, operation, reservedAt, now);
  }

  /** The stored confirmation is for this draft as it is now, and can be redeemed at this time. */
  predicate Confirmed(t: Tables, u: UserKey, d: DraftId, c: ConfirmationId, at: Time)
    requires Owned(u, d) in t.drafts
  {
    && Owned(u, c) in t.confirmations
    && var row, draft := t.confirmations[Owned(u, c)], t.drafts[Owned(u, d)];
       && row.draft == d && row.usedAt.None? && at < row.expiresAt && row.draftVersion == draft.version
       && row.payloadHash == HashPayload(draft.payload)
       && row.policyVersion == CurrentPolicy(t, u, draft.payload.mailbox).version
  }

  lemma RedeemThenReserve(
    t: Tables, p: P.Plan, operation: OperationId, consumedAt: Time, reservedAt: Time, now: Time)
    requires p.origin.FromDraft? && P.KeyOf(p) !in t.receipts
    ensures var tx := S.ConsumeAndReserve(t, p, operation, consumedAt, reservedAt, now);
            var o := p.origin;
            && (tx.result.Ok? && tx.result.value.Deliver? <==>
                  && ConsumeSendConfirmation(t, p.user, o.confirmation, o.draft, o.version, HashPayload(p.payload),
                                             p.view.version, consumedAt).result.Ok?
                  && Owned(p.user, p.payload.mailbox) in t.mailboxes
                  && Reservable(t, p.user, P.KeyOf(p).id, p.payload.mailbox, p.view.policy, operation, reservedAt))
            && (tx.result.Ok? && tx.result.value.Deliver? ==> tx.result.value.plan == p)
            && (!(tx.result.Ok? && tx.result.value.Deliver?) ==>
                  tx.tables == t.(confirmations := tx.tables.confirmations))
  {
    var o := p.origin;
    var consumed := ConsumeSendConfirmation(t, p.user, o.confirmation, o.draft, o.version, HashPayload(p.payload),
                                            p.view.version, consumedAt);
    assert consumed.tables == t.(confirmations := consumed.tables.confirmations);
    ReserveIsLimitedExactlyWhen(consumed.tables, p.user, P.KeyOf(p).id, p.payload.mailbox, HashPayload(p.payload),
                                p.view.policy, p.validation.recipients, p.validation.externals, operation,
                                reservedAt, now);
  }

  /** What a key answers that has a receipt: the receipt for the text it was stored for, a conflict for any other. */
  lemma StoredReceiptAnswers(
    reg: S.Registry, t: Tables, u: UserKey, token: string, payload: Payload, d: DraftId, c: Option<ConfirmationId>,
    seen: Option<nat>, operation: OperationId, checkedAt: Time, consumedAt: Time, reservedAt: Time, now: Time)
    ensures Owned(u, DirectKey(token)) in t.receipts ==>
              var stored := t.receipts[Owned(u, DirectKey(token))];
              S.BeginSendDirect(reg, t, u, token, payload, operation, checkedAt, reservedAt, now)
              == Tx(t, if HashPayload(payload) == stored.payloadHash then Ok(S.Replay(stored.receipt))
                       else Err(IdempotencyConflict))
    ensures Owned(u, DraftKey(d)) in t.receipts && Owned(u, d) in t.drafts ==>
              var stored := t.receipts[Owned(u, DraftKey(d))];
              S.BeginSendDraft(reg, t, u, d, c, seen, operation, checkedAt, consumedAt, reservedAt, now)
              == Tx(t, if HashPayload(t.drafts[Owned(u, d)].payload) == stored.payloadHash
                       then Ok(S.Replay(stored.receipt)) else Err(IdempotencyConflict))
  {
  }

  /** Each refusal of preparing a draft's send, in the order in which it is looked at; and it succeeds exactly if
      nothing refuses it and the new id is not that of another draft's confirmation. */
  lemma PrepareSendExactlyWhen(
    reg: S.Registry, t: Tables, u: UserKey, d: DraftId, c: ConfirmationId, checkedAt: Time, now: Time)
    ensures var tx := S.PrepareDraftSend(reg, t, u, d, c, checkedAt, now);
            && (tx.result == Err(DraftNotFound) <==> Owned(u, d) !in t.drafts)
            && (tx.result.Err? ==> tx.tables == t)
            && (Owned(u, d) in t.drafts ==>
                  var row := t.drafts[Owned(u, d)];
                  var m, policy := row.payload.mailbox, CurrentPolicy(t, u, row.payload.mailbox).policy;
                  var known := row.status == Editable && m in reg && Owned(u, m) in t.mailboxes;
                  && (tx.result == Err(DraftAlreadySent) <==> row.status == Sent)
                  && (tx.result == Err(MailboxNotFound) ==> row.status == Editable && !known)
                  && (tx.result == Err(SendNotConfigured) ==> row.status == Editable && m in reg && !reg[m].sendEnabled)
                  && (known && reg[m].sendEnabled ==>
                        && (tx.result == Err(InvalidDomain) <==> !Parsed(reg[m].own, row.payload, policy))
                        && (tx.result == Err(SendPolicyBlocked) <==>
                              Parsed(reg[m].own, row.payload, policy) && !Clear(reg, t, u, row.payload, checkedAt)))
                  && (tx.result.Ok? <==>
                        && row.status == Editable && Clear(reg, t, u, row.payload, checkedAt)
                        && (Owned(u, c) in t.confirmations ==> t.confirmations[Owned(u, c)].draft == d))
                  && (tx.result.Ok? ==>
                        && tx.result.value.draft == d && tx.result.value.draftVersion == row.version
                        && tx.result.value.payloadHash == HashPayload(row.payload)
                        && tx.result.value.policyVersion == CurrentPolicy(t, u, m).version
                        && tx.result.value.expiresAt == now + 1000 * policy.ttlSeconds
                        && tx.result.value.usedAt.None?))
  {
    if Owned(u, d) in t.drafts {
      var row := t.drafts[Owned(u, d)];
      ValidateIsExact(reg, t, u, d, row.version, row.payload, checkedAt);
      var v := S.Validate(reg, t, u, d, row.version, row.payload, checkedAt);
      if v.Ok? {
        PrepareIsExact(t, u, d, HashPayload(row.payload), v.value,
                       CurrentPolicy(t, u, row.payload.mailbox).policy.ttlSeconds, c, now);
      }
    }
  }

  /** What a caller is told after the delivery: the receipt exactly if the transport gave one and it was stored and read
      back; otherwise that the outcome is unknown, and the operation, unless its receipt was stored, says so too. */
  lemma SettleAnswers(t: Tables, p: P.Plan, outcome: S.Outcome, now: Time)
    requires P.KeyOf(p) in t.operations && t.operations[P.KeyOf(p)].state == Submitting && P.KeyOf(p) !in t.receipts
    ensures var k, tx := P.KeyOf(p), S.SettleSend(t, p, outcome, now);
            var storable := outcome.Delivered? && !outcome.fault.RolledBack?
                            && Owned(p.user, outcome.receipt.mailbox) in t.mailboxes;
            && (tx.result.Ok? <==> storable && outcome.fault.NoFault?)
            && (tx.result.Ok? ==> tx.result.value == outcome.receipt)
            && (tx.result.Err? ==> tx.result == Err(StatusUnknown))
            && (k in tx.tables.receipts <==> storable)
            && (storable ==> tx.tables.receipts[k].receipt == outcome.receipt)
            && (!storable ==> k in tx.tables.operations && tx.tables.operations[k].state == Unknown)
  {
  }

  /** A draft that can be prepared can be sent: the confirmation that preparing returns, given back with the version
      that was shown and before it expires, takes the draft's text to the transport. */
  lemma PreparedDraftGoesThrough(
    reg: S.Registry, t: Tables, u: UserKey, d: DraftId, c: ConfirmationId, preparedAt: Time, now: Time,
    operation: OperationId, at: Time)
    requires S.PrepareDraftSend(reg, t, u, d, c, preparedAt, now).result.Ok?
    requires Owned(u, DraftKey(d)) !in t.receipts && Owned(u, DraftKey(d)) !in t.operations
    requires !OperationIdUsed(t, u, operation) && preparedAt <= at
    requires at < S.PrepareDraftSend(reg, t, u, d, c, preparedAt, now).result.value.expiresAt
    ensures Owned(u, d) in t.drafts
    ensures var prepared := S.PrepareDraftSend(reg, t, u, d, c, preparedAt, now).tables;
            var row := t.drafts[Owned(u, d)];
            var begun := S.BeginSendDraft(reg, prepared, u, d, Some(c), Some(row.version), operation, at, at, at, at);
            Delivers(begun.result, u, DraftKey(d), row.payload)
  {
    var row := t.drafts[Owned(u, d)];
    var m := row.payload.mailbox;
    var v := S.Validate(reg, t, u, d, row.version, row.payload, preparedAt).value;
    var prepared := S.PrepareDraftSend(reg, t, u, d, c, preparedAt, now).tables;
    PrepareIsExact(t, u, d, HashPayload(row.payload), v, CurrentPolicy(t, u, m).policy.ttlSeconds, c, now);
    ValidateIsExact(reg, t, u, d, row.version, row.payload, preparedAt);
    ClearStays(reg, t, prepared, u, row.payload, preparedAt, at);
    DraftSendExactlyWhen(reg, prepared, u, d, Some(c), Some(row.version), operation, at, at, at, at);
  }

  /** With the same reservations the windows only empty. */
  lemma WindowsEmpty(t: Tables, u: UserKey, m: MailboxId, at: Time, later: Time)
    requires at <= later
    ensures Hourly(t, u, m, later) <= Hourly(t, u, m, at) && Daily(t, u, m, later) <= Daily(t, u, m, at)
  {
    FewerStamped(t.rateEvents, u, m, at - 3_600_000, later - 3_600_000);
    FewerStamped(t.rateEvents, u, m, at - 86_400_000, later - 86_400_000);
  }

  lemma {:induction false} FewerStamped(events: seq<RateEvent>, u: UserKey, m: MailboxId, since: Time, later: Time)
    requires since <= later
    ensures |Stamped(events, u, m, later)| <= |Stamped(events, u, m, since)|
  {
    CountIsStamped(events, u, m, since);
    CountIsStamped(events, u, m, later);
    FewerCounted(events, u, m, since, later);
  }

  lemma {:induction false} FewerCounted(events: seq<RateEvent>, u: UserKey, m: MailboxId, since: Time, later: Time)
    requires since <= later
    ensures CountSince(events, u, m, later) <= CountSince(events, u, m, since)
  {
    if events != [] {
      FewerCounted(events[..|events| - 1], u, m, since, later);
    }
  }

  lemma ClearStays(reg: S.Registry, t: Tables, t': Tables, u: UserKey, payload: Payload, at: Time, later: Time)
    requires Clear(reg, t, u, payload, at) && at <= later
    requires t' == t.(confirmations := t'.confirmations, sendAudit := t'.sendAudit)
    ensures Clear(reg, t', u, payload, later)
    ensures var policy := CurrentPolicy(t, u, payload.mailbox).policy;
            && Hourly(t', u, payload.mailbox, later) < policy.maxPerHour
            && Daily(t', u, payload.mailbox, later) < policy.maxPerDay
  {
    var own, policy := reg[payload.mailbox].own, CurrentPolicy(t, u, payload.mailbox).policy;
    var usage := Usage(Hourly(t, u, payload.mailbox, at), Daily(t, u, payload.mailbox, at));
    WindowsEmpty(t, u, payload.mailbox, at, later);
    assert CurrentPolicy(t', u, payload.mailbox) == CurrentPolicy(t, u, payload.mailbox);
    assert !Violates(HourlyLimit, own.value, Recipients(payload), policy, usage);
    assert !Violates(DailyLimit, own.value, Recipients(payload), policy, usage);
    var usage' := Usage(Hourly(t', u, payload.mailbox, later), Daily(t', u, payload.mailbox, later));
    forall x: Reason ensures !Violates(x, own.value, Recipients(payload), policy, usage') {
      assert !Violates(x, own.value, Recipients(payload), policy, usage);
    }
  }
}
