/** What the ledger theorems say about protocol runs: every step is at most one store write, so the ledger
    invariant and the rate bound carry over. */
module ProtocolLedger {
  import opened MailTypes
  import opened LedgerInvariants
  import opened RateWindow
  import opened SendProtocol
  import opened AtMostOnce

  // ----- every step is at most one write -----

  function WriteOf(call: Call, action: Action): Option<Command> {
    var p := call.plan;
    match action
    case Consume(now) =>
      if call.phase == Planned && p.origin.FromDraft? then
        Some(DoConsume(p.origin.confirmation, p.origin.draft, p.origin.version, HashPayload(p.payload), p.view.version,
                       now))
      else None
    case Reserve(operation, checkedAt, now) =>
      if checkedAt <= now && (call.phase == Confirmed || (call.phase == Planned && p.origin.Direct?)) then
        Some(DoReserve(KeyOf(p).id, p.payload.mailbox, HashPayload(p.payload), p.view.policy, p.validation.recipients,
                       p.validation.externals, operation, checkedAt, now))
      else None
    case Complete(fault) =>
      if call.phase.Answered? && !fault.RolledBack? then
        Some(DoComplete(KeyOf(p).id, call.phase.receipt, p.validation.recipients, p.validation.externals))
      else None
    case GiveUp(now) =>
      if call.phase.Failing? then
        Some(DoMarkUnknown(KeyOf(p).id, call.phase.code, p.validation.recipients, p.validation.externals, now))
      else None
    case MarkSent =>
      if call.phase.Settled? && p.origin.FromDraft? && |call.phase.result.accepted| > 0 then
        Some(DoMarkSent(p.origin.draft, call.phase.result))
      else None
    case _ => None
  }

  function CommandOf(s: State, step: Step): Option<(UserKey, Command)> {
    match step
    case Write(u, c) => if Editorial(c) && !(c.DoPrepare? && Owned(u, c.c) in s.prepared) then Some((u, c)) else None
    case Enter(_, _) => None
    case Act(id, action) =>
      if id in s.calls && WriteOf(s.calls[id], action).Some? then
        Some((s.calls[id].plan.user, WriteOf(s.calls[id], action).value))
      else None
  }

  predicate WritesAs(t: Tables, t': Tables, command: Option<(UserKey, Command)>) {
    t' == if command.Some? then Execute(t, command.value.0, command.value.1) else t
  }

  lemma ReserveIsAWrite(s: State, id: CallId, operation: OperationId, checkedAt: Time, now: Time)
    requires id in s.calls
    ensures WritesAs(s.tables, ReserveStep(s, id, operation, checkedAt, now).tables,
                     CommandOf(s, Act(id, Reserve(operation, checkedAt, now))))
  {
  }

  lemma ConsumeIsAWrite(s: State, id: CallId, now: Time)
    requires id in s.calls
    ensures WritesAs(s.tables, ConsumeStep(s, id, now).tables, CommandOf(s, Act(id, Consume(now))))
  {
  }

  lemma CompleteIsAWrite(s: State, id: CallId, fault: CompletionFault)
    requires id in s.calls
    ensures WritesAs(s.tables, CompleteStep(s, id, fault).tables, CommandOf(s, Act(id, Complete(fault))))
  {
  }

  lemma StepIsAtMostOneWrite(s: State, step: Step)
    ensures WritesAs(s.tables, Do(s, step).tables, CommandOf(s, step))
  {
    match step
    case Write(u, c) =>
    case Enter(id, plan) =>
    case Act(id, action) =>
      if id in s.calls {
        match action
        case Consume(now) => ConsumeIsAWrite(s, id, now);
        case Reserve(operation, checkedAt, now) => ReserveIsAWrite(s, id, operation, checkedAt, now);
        case Complete(fault) => CompleteIsAWrite(s, id, fault);
        case GiveUp(now) =>
        case MarkSent =>
        case _ =>
      }
  }

  /** The ledger invariant holds throughout every protocol run. */
  lemma {:induction false} ConsistentAlways(mailboxes: set<Owned<MailboxId>>, steps: seq<Step>)
    ensures Consistent(Run(Start(mailboxes), steps).tables)
  {
    if steps != [] {
      var s := Run(Start(mailboxes), steps[..|steps| - 1]);
      ConsistentAlways(mailboxes, steps[..|steps| - 1]);
      StepIsAtMostOneWrite(s, steps[|steps| - 1]);
      var w := CommandOf(s, steps[|steps| - 1]);
      if w.Some? {
        ExecuteKeeps(s.tables, w.value.0, w.value.1);
      }
    }
  }

  // ----- the rate bound over protocol runs -----

  predicate PlanLimited(p: Plan, u: UserKey, m: MailboxId, perHour: nat, perDay: nat) {
    p.user == u && p.payload.mailbox == m ==> p.view.policy.maxPerHour <= perHour && p.view.policy.maxPerDay <= perDay
  }

  predicate StepLimited(step: Step, u: UserKey, m: MailboxId, perHour: nat, perDay: nat) {
    step.Enter? ==> PlanLimited(step.plan, u, m, perHour, perDay)
  }

  lemma PlansStayLimited(s: State, step: Step, u: UserKey, m: MailboxId, perHour: nat, perDay: nat)
    requires forall id <- s.calls :: PlanLimited(s.calls[id].plan, u, m, perHour, perDay)
    requires StepLimited(step, u, m, perHour, perDay) && Sound(s)
    ensures forall id <- Do(s, step).calls :: PlanLimited(Do(s, step).calls[id].plan, u, m, perHour, perDay)
  {
    match step
    case Write(_, _) =>
    case Enter(_, _) =>
    case Act(id, action) =>
      if id in s.calls {
        assert CallOk(s, id);
        ActShape(s, id, action);
      }
  }

  lemma CommandIsLimited(s: State, step: Step, u: UserKey, m: MailboxId, perHour: nat, perDay: nat)
    requires step.Act? && step.id in s.calls ==> PlanLimited(s.calls[step.id].plan, u, m, perHour, perDay)
    ensures var w := CommandOf(s, step); w.Some? ==> Limited(u, m, perHour, perDay, w.value.0, w.value.1)
  {
  }

  lemma StepRespectsLimits(
    s: State, step: Step, u: UserKey, m: MailboxId, perHour: nat, perDay: nat, from: Time)
    requires step.Act? && step.id in s.calls ==> PlanLimited(s.calls[step.id].plan, u, m, perHour, perDay)
    requires WindowsHold(s.tables.rateEvents, u, m, perHour, perDay, from)
    ensures WindowsHold(Do(s, step).tables.rateEvents, u, m, perHour, perDay, from)
  {
    var w := CommandOf(s, step);
    StepIsAtMostOneWrite(s, step);
    CommandIsLimited(s, step, u, m, perHour, perDay);
    if w.Some? {
      StepKeepsWindow(s.tables, u, m, perHour, perDay, w.value.0, w.value.1, from);
    }
  }

  /** If no send of the mailbox ever ran under a policy above `perHour` and `perDay`, every closed hour and every
      closed day of every run holds at most that many reservations. */
  lemma {:induction false} RunsRespectLimits(
    mailboxes: set<Owned<MailboxId>>, steps: seq<Step>, u: UserKey, m: MailboxId, perHour: nat, perDay: nat, from: Time)
    requires forall i | 0 <= i < |steps| :: StepLimited(steps[i], u, m, perHour, perDay)
    ensures var s := Run(Start(mailboxes), steps);
            && WindowsHold(s.tables.rateEvents, u, m, perHour, perDay, from)
            && forall id <- s.calls :: PlanLimited(s.calls[id].plan, u, m, perHour, perDay)
  {
    if steps != [] {
      var step := steps[|steps| - 1];
      var s := Run(Start(mailboxes), steps[..|steps| - 1]);
      RunsRespectLimits(mailboxes, steps[..|steps| - 1], u, m, perHour, perDay, from);
      SoundAlways(mailboxes, steps[..|steps| - 1]);
      assert StepLimited(step, u, m, perHour, perDay);
      PlansStayLimited(s, step, u, m, perHour, perDay);
      StepRespectsLimits(s, step, u, m, perHour, perDay, from);
    }
  }
}
