/** The life of a draft and the gate its sends pass, over store runs and protocol runs. */
module DraftLifecycle {
  import opened MailTypes
  import opened SendPolicy
  import opened LedgerInvariants
  import opened SendProtocol
  import opened AtMostOnce
  import opened ProtocolLedger

  // ----- versions -----

  /** A row stays, or changes with its version going up by exactly one; a sent row never changes. */
  predicate Evolves(before: Draft, after: Draft) {
    && after.mailbox == before.mailbox
    && (after == before || (before.status == Editable && after.version == before.version + 1
                            && (after.payload == before.payload || after.status == Editable)))
  }

  lemma WriteEvolves(t: Tables, u: UserKey, c: Command, k: Owned<DraftId>)
    requires k in t.drafts
    ensures k in Execute(t, u, c).drafts && Evolves(t.drafts[k], Execute(t, u, c).drafts[k])
  {
    match c
    case DoReserve(_, _, _, _, _, _, _, _, _) =>
    case DoComplete(_, _, _, _) =>
    case DoMarkUnknown(_, _, _, _, _) =>
    case _ =>
  }

  /** Over any sequence of store calls a draft's version never goes back, equal versions mean an equal row,
      and once sent the row is frozen. */
  lemma {:induction false} VersionsIdentifyRows(t: Tables, commands: seq<(UserKey, Command)>, k: Owned<DraftId>)
    requires k in t.drafts
    ensures k in ExecuteAll(t, commands).drafts
    ensures var before, after := t.drafts[k], ExecuteAll(t, commands).drafts[k];
            && before.version <= after.version && (before.version == after.version ==> before == after)
            && (before.status == Sent ==> after == before)
  {
    if commands != [] {
      var (u, c) := commands[|commands| - 1];
      VersionsIdentifyRows(t, commands[..|commands| - 1], k);
      WriteEvolves(ExecuteAll(t, commands[..|commands| - 1]), u, c, k);
    }
  }

  // ----- a sent draft was accepted for somebody -----

  predicate ReceiptFor(t: Tables, k: Owned<SendKey>, r: Receipt) {
    k in t.receipts && t.receipts[k].receipt == r
  }

  predicate CallsBacked(t: Tables, calls: map<CallId, Call>) {
    forall id <- calls | calls[id].phase.Settled? :: ReceiptFor(t, KeyOf(calls[id].plan), calls[id].phase.result)
  }

  predicate DraftBacked(t: Tables, k: Owned<DraftId>) {
    var key := Owned(k.user, DraftKey(k.id));
    && key in t.receipts && |t.receipts[key].receipt.accepted| > 0 && k in t.drafts
    && t.drafts[k].sentAt == Some(t.receipts[key].receipt.sentAt)
    && t.drafts[k].messageId == Some(t.receipts[key].receipt.messageId)
  }

  predicate SentBacked(t: Tables) {
    forall k <- t.drafts | t.drafts[k].status == Sent :: DraftBacked(t, k)
  }

  predicate Backed(s: State) {
    CallsBacked(s.tables, s.calls) && SentBacked(s.tables)
  }

  /** Receipts are only ever added. */
  predicate ReceiptsGrow(t: Tables, t': Tables) {
    forall k <- t.receipts :: k in t'.receipts && t'.receipts[k] == t.receipts[k]
  }

  lemma WriteGrowsReceipts(t: Tables, u: UserKey, c: Command)
    ensures ReceiptsGrow(t, Execute(t, u, c))
  {
    match c
    case DoReserve(_, _, _, _, _, _, _, _, _) =>
    case DoComplete(_, _, _, _) =>
    case DoMarkUnknown(_, _, _, _, _) =>
    case _ => OtherWritesKeep(t, u, c);
  }

  /** Outside MarkDraftSent no write turns a draft sent. */
  lemma OnlyMarkSentSends(t: Tables, u: UserKey, c: Command, k: Owned<DraftId>)
    requires k in Execute(t, u, c).drafts && Execute(t, u, c).drafts[k].status == Sent
    ensures (k in t.drafts && t.drafts[k].status == Sent) || (c.DoMarkSent? && k == Owned(u, c.d))
  {
    match c
    case DoReserve(_, _, _, _, _, _, _, _, _) =>
    case DoComplete(_, _, _, _) =>
    case DoMarkUnknown(_, _, _, _, _) =>
    case _ =>
  }

  lemma CompleteBacks(s: State, id: CallId, fault: CompletionFault)
    requires id in s.calls && CompleteStep(s, id, fault).calls[id].phase.Settled? && !s.calls[id].phase.Settled?
    ensures ReceiptFor(CompleteStep(s, id, fault).tables, KeyOf(s.calls[id].plan),
                       CompleteStep(s, id, fault).calls[id].phase.result)
  {
  }

  lemma ReserveBacks(s: State, id: CallId, operation: OperationId, checkedAt: Time, now: Time)
    requires id in s.calls && !s.calls[id].phase.Settled?
    requires ReserveStep(s, id, operation, checkedAt, now).calls[id].phase.Settled?
    ensures var s' := ReserveStep(s, id, operation, checkedAt, now);
            ReceiptFor(s'.tables, KeyOf(s.calls[id].plan), s'.calls[id].phase.result)
  {
  }

  lemma ActBacks(s: State, id: CallId, action: Action)
    requires CallOk(s, id) && ActStep(s, id, action).calls[id].phase.Settled? && !s.calls[id].phase.Settled?
    ensures var s' := ActStep(s, id, action);
            ReceiptFor(s'.tables, KeyOf(s.calls[id].plan), s'.calls[id].phase.result)
  {
    match action
    case Reserve(operation, checkedAt, now) => ReserveBacks(s, id, operation, checkedAt, now);
    case Complete(fault) => CompleteBacks(s, id, fault);
    case Consume(now) =>
    case Submit =>
    case GiveUp(now) =>
    case MarkSent =>
    case _ =>
  }

  lemma SettledSame(s: State, id: CallId, action: Action)
    requires id in s.calls && s.calls[id].phase.Settled?
    ensures var s' := ActStep(s, id, action); s'.calls[id].phase.Settled? ==> s'.calls[id] == s.calls[id]
  {
    match action
    case Reserve(operation, checkedAt, now) =>
    case Complete(fault) =>
    case Consume(now) =>
    case Submit =>
    case GiveUp(now) =>
    case MarkSent =>
    case _ =>
  }

  lemma SentStaysBacked(s: State, step: Step)
    requires Backed(s)
    ensures SentBacked(Do(s, step).tables) && ReceiptsGrow(s.tables, Do(s, step).tables)
  {
    var t, t', w := s.tables, Do(s, step).tables, CommandOf(s, step);
    StepIsAtMostOneWrite(s, step);
    if w.Some? {
      WriteGrowsReceipts(t, w.value.0, w.value.1);
      forall k <- t'.drafts | t'.drafts[k].status == Sent ensures DraftBacked(t', k) {
        OnlyMarkSentSends(t, w.value.0, w.value.1, k);
        if k in t.drafts {
          WriteEvolves(t, w.value.0, w.value.1, k);
        }
        if !(k in t.drafts && t.drafts[k].status == Sent) {
          assert ReceiptFor(t, KeyOf(s.calls[step.id].plan), s.calls[step.id].phase.result);
        } else {
          assert DraftBacked(t, k);
        }
      }
    }
  }

  lemma BackedStep(s: State, step: Step)
    requires Backed(s) && Sound(s)
    ensures Backed(Do(s, step))
  {
    var s' := Do(s, step);
    SentStaysBacked(s, step);
    if step.Act? && step.id in s.calls {
      assert CallOk(s, step.id);
      ActShape(s, step.id, step.action);
      forall id <- s'.calls | s'.calls[id].phase.Settled?
        ensures ReceiptFor(s'.tables, KeyOf(s'.calls[id].plan), s'.calls[id].phase.result)
      {
        if id == step.id && !s.calls[id].phase.Settled? {
          ActBacks(s, id, step.action);
        } else if id == step.id {
          SettledSame(s, id, step.action);
        }
      }
    }
  }

  /** In every reachable state a draft is marked sent only if a receipt is stored under its key
      and that receipt names at least one accepted recipient; the row has its time and message id. */
  lemma {:induction false} SentMeansAccepted(mailboxes: set<Owned<MailboxId>>, steps: seq<Step>)
    ensures Backed(Run(Start(mailboxes), steps))
  {
    if steps != [] {
      SentMeansAccepted(mailboxes, steps[..|steps| - 1]);
      SoundAlways(mailboxes, steps[..|steps| - 1]);
      BackedStep(Run(Start(mailboxes), steps[..|steps| - 1]), steps[|steps| - 1]);
    }
  }

  /** An edit made while the message is in flight is accepted and survives into the sent row, and the receipt takes its
      hash from the operation's row, not from the draft's. */
  lemma EditInFlightSticks(s: State, id: CallId, edited: Payload, now: Time)
    requires InFlight(s, id) && DraftOf(s, id) in s.tables.drafts
    requires var row := s.tables.drafts[DraftOf(s, id)]; row.status == Editable && row.payload.mailbox == edited.mailbox
    ensures var k, key := DraftOf(s, id), KeyOf(s.calls[id].plan);
            var edit := Write(k.user, DoUpdateDraft(k.id, s.tables.drafts[k].version, edited, now));
            var after := Do(Do(Do(s, edit), Act(id, Complete(NoFault))), Act(id, MarkSent)).tables;
            && k in after.drafts && after.drafts[k].status == Sent && after.drafts[k].payload == edited
            && key in after.receipts && after.receipts[key].payloadHash == s.tables.operations[key].payloadHash
  {
    var k := DraftOf(s, id);
    var s1 := Do(s, Write(k.user, DoUpdateDraft(k.id, s.tables.drafts[k].version, edited, now)));
    assert s1.calls == s.calls && s1.tables.operations == s.tables.operations
           && s1.tables.receipts == s.tables.receipts;
    assert s1.tables.drafts[k].payload == edited && s1.tables.drafts[k].status == Editable;
    FinishMarks(s1, id);
  }

  /** The transport has answered a draft's call, somebody accepted, and the completion can be stored. */
  predicate InFlight(s: State, id: CallId) {
    && id in s.calls && s.calls[id].phase.Answered? && s.calls[id].plan.origin.FromDraft?
    && var p, r, key := s.calls[id].plan, s.calls[id].phase.receipt, KeyOf(s.calls[id].plan);
       && |r.accepted| > 0 && Owned(p.user, r.mailbox) in s.tables.mailboxes
       && key in s.tables.operations && s.tables.operations[key].state == Submitting && key !in s.tables.receipts
  }

  function DraftOf(s: State, id: CallId): Owned<DraftId>
    requires id in s.calls && s.calls[id].plan.origin.FromDraft?
  {
    Owned(s.calls[id].plan.user, s.calls[id].plan.origin.draft)
  }

  lemma FinishMarks(s: State, id: CallId)
    requires InFlight(s, id) && DraftOf(s, id) in s.tables.drafts && s.tables.drafts[DraftOf(s, id)].status == Editable
    ensures var k, key := DraftOf(s, id), KeyOf(s.calls[id].plan);
            var after := Do(Do(s, Act(id, Complete(NoFault))), Act(id, MarkSent)).tables;
            && k in after.drafts && after.drafts[k].status == Sent
            && after.drafts[k].payload == s.tables.drafts[k].payload
            && key in after.receipts && after.receipts[key].payloadHash == s.tables.operations[key].payloadHash
  {
    var s2 := Do(s, Act(id, Complete(NoFault)));
    assert s2 == CompleteStep(s, id, NoFault);
    assert s2.calls[id].phase == Settled(s.calls[id].phase.receipt);
    assert s2.tables.receipts[KeyOf(s.calls[id].plan)].payloadHash
           == s.tables.operations[KeyOf(s.calls[id].plan)].payloadHash;
    assert s2.tables.drafts == s.tables.drafts;
    assert Do(s2, Act(id, MarkSent)) == MarkSentStep(s2, id);
  }

  // ----- the gate -----

  predicate PlansAdmitted(calls: map<CallId, Call>) {
    forall id <- calls :: Admissible(calls[id].plan)
  }

  lemma {:induction false} AdmittedAlways(mailboxes: set<Owned<MailboxId>>, steps: seq<Step>)
    ensures PlansAdmitted(Run(Start(mailboxes), steps).calls)
  {
    if steps != [] {
      var s, step := Run(Start(mailboxes), steps[..|steps| - 1]), steps[|steps| - 1];
      AdmittedAlways(mailboxes, steps[..|steps| - 1]);
      SoundAlways(mailboxes, steps[..|steps| - 1]);
      if step.Act? && step.id in s.calls {
        assert CallOk(s, step.id);
        ActShape(s, step.id, step.action);
      }
    }
  }

  /** What the policy demands of one message, spelled out. */
  predicate WithinPolicy(own: Domain, recipients: seq<Address>, policy: Policy, usage: Usage, direct: bool) {
    && policy.mode != Disabled && (direct ==> policy.mode == DirectAllowed)
    && |recipients| <= policy.maxRecipients
    && (forall a <- recipients :: a.domain.Some? && a.domain !in policy.denied)
    && (policy.allowed != [] ==> forall a <- recipients :: a.domain in policy.allowed)
    && (policy.external == Block ==> forall a <- recipients :: a.domain == Some(own))
    && usage.lastHour < policy.maxPerHour && usage.lastDay < policy.maxPerDay
  }

  /** Every transport.send of every run satisfied the policy its call had read. */
  lemma SubmissionsPassTheGate(mailboxes: set<Owned<MailboxId>>, steps: seq<Step>, i: nat)
    requires i < |Run(Start(mailboxes), steps).log| && Run(Start(mailboxes), steps).log[i].Submitted?
    ensures var s := Run(Start(mailboxes), steps);
            && s.log[i].call in s.calls
            && var p := s.calls[s.log[i].call].plan;
               && s.log[i].payload == p.payload && s.log[i].key == KeyOf(p) && p.own.Some?
               && WithinPolicy(p.own.value, Recipients(p.payload), p.view.policy, p.usage, s.log[i].key.id.DirectKey?)
  {
    var s := Run(Start(mailboxes), steps);
    SoundAlways(mailboxes, steps);
    AdmittedAlways(mailboxes, steps);
    var id := s.log[i].call;
    assert EventAt(i, s.log, s.calls);
    assert PositionsOk(id, s.calls[id], s.log) && Admissible(s.calls[id].plan);
    AdmissibleMeansWithinPolicy(s.calls[id].plan);
  }

  lemma AdmissibleMeansWithinPolicy(p: Plan)
    requires Admissible(p)
    ensures p.own.Some?
         && WithinPolicy(p.own.value, Recipients(p.payload), p.view.policy, p.usage, p.origin.Direct?)
  {
    if p.origin.Direct? {
      GateIsExact(p.own, "direct", 0, p.payload, p.view, p.usage);
    } else {
      GateIsExact(p.own, p.origin.draft, p.origin.version, p.payload, p.view, p.usage);
    }
    var rs := Recipients(p.payload);
    var own := p.own.value;
    assert !Violates(PolicyDisabled, own, rs, p.view.policy, p.usage)
           && !Violates(TooManyRecipients, own, rs, p.view.policy, p.usage);
    assert !Violates(DomainDenied, own, rs, p.view.policy, p.usage)
           && !Violates(DomainNotAllowed, own, rs, p.view.policy, p.usage);
    assert !Violates(ExternalBlocked, own, rs, p.view.policy, p.usage);
    assert !Violates(HourlyLimit, own, rs, p.view.policy, p.usage)
           && !Violates(DailyLimit, own, rs, p.view.policy, p.usage);
  }
}
