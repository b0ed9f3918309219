/** Interleaved sends as a transition system. One step is one store transaction, one transport event or one
    crash; between any two steps of a call every other call, edit and policy change may run. What a call read
    before its first write is an arbitrary plan that passed the code's own checks, so reads may be stale. */
module SendProtocol {
  import opened MailTypes
  import opened SendPolicy
  import opened Ledger
  import opened LedgerInvariants

  type CallId = nat

  /** sendDraft carries the confirmation it was given and the version the caller saw. */
  datatype Origin = FromDraft(draft: DraftId, confirmation: ConfirmationId, version: nat) | Direct(token: string)

  datatype Plan = Plan(
    user: UserKey, origin: Origin, payload: Payload, own: Option<Domain>, view: PolicyView, usage: Usage,
    validation: Validation)

  function KeyOf(p: Plan): Owned<SendKey> {
    Owned(p.user, match p.origin case FromDraft(d, _, _) => DraftKey(d) case Direct(token) => DirectKey(token))
  }

  /** The checks between entry and the first write. */
  predicate Admissible(p: Plan) {
    && Ok(p.validation) == (match p.origin
                            case FromDraft(d, _, version) => Evaluate(p.own, d, version, p.payload, p.view, p.usage)
                            case Direct(_) => Evaluate(p.own, "direct", 0, p.payload, p.view, p.usage))
    && !p.validation.blocked
    && (p.origin.Direct? ==> p.view.policy.mode == DirectAllowed)
  }

  datatype Phase =
    | Planned                      // reads done, nothing written
    | Confirmed                    // the draft's confirmation is consumed
    | Holding                      // the operation row is reserved
    | Awaiting                     // transport.send was called
    | Answered(receipt: Receipt)   // it returned
    | Failing(code: ErrorCode)     // something threw after the reservation
    | Settled(result: Receipt)     // a receipt is stored under the key
    | Closed

  /** `answer` is what the transport returned; the options of numbers record where in the log this call consumed,
      reserved, submitted, lost its answer and gave up. */
  datatype Call = Call(
    plan: Plan, phase: Phase, consumption: Option<nat>, reservation: Option<nat>, submission: Option<nat>,
    answer: Option<Receipt>, lost: Option<nat>, gaveUp: Option<nat>)

  function Entered(p: Plan): Call {
    Call(p, Planned, None, None, None, None, None, None)
  }

  datatype Event =
    | Edited(user: UserKey, draft: DraftId)
    | PolicyChanged(user: UserKey, mailbox: MailboxId)
    | Prepared(user: UserKey, draft: DraftId, mailbox: MailboxId, confirmation: ConfirmationId, version: nat,
               hash: PayloadHash, policyVersion: nat, expiresAt: Time)
    | Consumed(call: CallId, user: UserKey, draft: DraftId, confirmation: ConfirmationId, version: nat,
               hash: PayloadHash, policyVersion: nat, at: Time)
    | Reserved(call: CallId, key: Owned<SendKey>, hash: PayloadHash, at: Time)
    | Submitted(call: CallId, key: Owned<SendKey>, payload: Payload)
    | AnswerLost(call: CallId, key: Owned<SendKey>)
    | GaveUp(call: CallId, key: Owned<SendKey>)
    | MarkedSent(call: CallId, user: UserKey, draft: DraftId)

  /** `prepared` and `holder` are bookkeeping: where a confirmation was prepared, which call reserved a key. */
  datatype State = State(
    tables: Tables, calls: map<CallId, Call>, log: seq<Event>, prepared: map<Owned<ConfirmationId>, nat>,
    holder: map<Owned<SendKey>, CallId>)

  function Start(mailboxes: set<Owned<MailboxId>>): State {
    State(EmptyTables(mailboxes), map[], [], map[], map[])
  }

  datatype CompletionFault = NoFault | RolledBack(cause: ErrorCode) | CommittedThenThrew(cause: ErrorCode)

  datatype Action =
    | Consume(now: Time)
    | Reserve(operation: OperationId, checkedAt: Time, now: Time)
    | Submit
    | Answer(receipt: Receipt)
    | Throw(code: ErrorCode)
    | Complete(fault: CompletionFault)
    | GiveUp(now: Time)
    | MarkSent
    | Crash

  datatype Step = Write(u: UserKey, command: Command) | Enter(id: CallId, plan: Plan) | Act(id: CallId, action: Action)

  /** The writes made outside any send call. */
  predicate Editorial(c: Command) {
    || c.DoCreateDraft? || c.DoUpdateDraft? || c.DoAddAttachment? || c.DoRemoveAttachment?
    || c.DoSetPolicy? || c.DoPrepare?
  }

  function Noted(t: Tables, u: UserKey, c: Command): Option<Event> {
    match c
    case DoUpdateDraft(d, expected, payload, now) =>
      if UpdateDraft(t, u, d, expected, payload, now).result.Ok? then Some(Edited(u, d)) else None
    case DoAddAttachment(d, expected, a, now) =>
      if AddDraftAttachment(t, u, d, expected, a, now).result.Ok? then Some(Edited(u, d)) else None
    case DoRemoveAttachment(d, expected, id, now) =>
      if RemoveDraftAttachment(t, u, d, expected, id, now).result.Ok? then Some(Edited(u, d)) else None
    case DoSetPolicy(m, policy) =>
      if SetSendPolicy(t, u, m, policy).result.Ok? then Some(PolicyChanged(u, m)) else None
    case DoPrepare(d, hash, v, ttl, id, now) =>
      var tx := CreateSendConfirmation(t, u, d, hash, v, ttl, id, now);
      if tx.result.Ok? then
        Some(Prepared(u, d, t.drafts[Owned(u, d)].mailbox, id, v.draftVersion, hash, v.policyVersion,
                      tx.result.value.expiresAt))
      else None
    case _ => None
  }

  /** Confirmation ids are random, so a prepared one is new. */
  function WriteStep(s: State, u: UserKey, c: Command): State {
    if !Editorial(c) || (c.DoPrepare? && Owned(u, c.c) in s.prepared) then s
    else
      var noted := Noted(s.tables, u, c);
      s.(tables := Execute(s.tables, u, c),
         log := if noted.Some? then s.log + [noted.value] else s.log,
         prepared := if noted.Some? && noted.value.Prepared? then s.prepared[Owned(u, c.c) := |s.log|] else s.prepared)
  }

  function ConsumeStep(s: State, id: CallId, now: Time): State
    requires id in s.calls
  {
    var call := s.calls[id];
    var p := call.plan;
    if call.phase != Planned || !p.origin.FromDraft? then s
    else
      var hash := HashPayload(p.payload);
      var tx := ConsumeSendConfirmation(s.tables, p.user, p.origin.confirmation, p.origin.draft, p.origin.version, hash,
                                        p.view.version, now);
      if tx.result.Err? then s.(calls := s.calls[id := call.(phase := Closed)])
      else s.(tables := tx.tables,
              calls := s.calls[id := call.(phase := Confirmed, consumption := Some(|s.log|))],
              log := s.log + [Consumed(id, p.user, p.origin.draft, p.origin.confirmation, p.origin.version, hash,
                                       p.view.version, now)])
  }

  function Attempt(s: State, p: Plan, operation: OperationId, checkedAt: Time, now: Time): Tx<Reservation>
  {
    ReserveSendOperation(s.tables, p.user, KeyOf(p).id, p.payload.mailbox, HashPayload(p.payload), p.view.policy,
                         p.validation.recipients, p.validation.externals, operation, checkedAt, now)
  }

  function ReserveStep(s: State, id: CallId, operation: OperationId, checkedAt: Time, now: Time): State
    requires id in s.calls
  {
    var call := s.calls[id];
    var p := call.plan;
    if checkedAt > now || !(call.phase == Confirmed || (call.phase == Planned && p.origin.Direct?)) then s
    else
      var tx := Attempt(s, p, operation, checkedAt, now);
      match tx.result
      case Ok(Fresh(_)) =>
        s.(tables := tx.tables,
           calls := s.calls[id := call.(phase := Holding, reservation := Some(|s.log|))],
           log := s.log + [Reserved(id, KeyOf(p), HashPayload(p.payload), now)],
           holder := s.holder[KeyOf(p) := id])
      case Ok(Replayed(_, receipt)) => s.(calls := s.calls[id := call.(phase := Settled(receipt))])
      case Err(_) => s.(calls := s.calls[id := call.(phase := Closed)])
  }

  function CompleteStep(s: State, id: CallId, fault: CompletionFault): State
    requires id in s.calls
  {
    var call := s.calls[id];
    var p := call.plan;
    if !call.phase.Answered? then s
    else if fault.RolledBack? then s.(calls := s.calls[id := call.(phase := Failing(fault.cause))])
    else
      var v := p.validation;
      var tx := CompleteSendOperation(s.tables, p.user, KeyOf(p).id, call.phase.receipt, v.recipients, v.externals);
      if tx.result.Err? then s.(calls := s.calls[id := call.(phase := Failing(tx.result.error))])
      else if fault.NoFault? then
        s.(tables := tx.tables, calls := s.calls[id := call.(phase := Settled(call.phase.receipt))])
      else
        s.(tables := tx.tables, calls := s.calls[id := call.(phase := Failing(fault.cause), lost := Some(|s.log|))],
           log := s.log + [AnswerLost(id, KeyOf(p))])
  }

  function GiveUpStep(s: State, id: CallId, now: Time): State
    requires id in s.calls
  {
    var call := s.calls[id];
    var p := call.plan;
    if !call.phase.Failing? then s
    else
      var v := p.validation;
      s.(tables := MarkSendOperationUnknown(s.tables, p.user, KeyOf(p).id, call.phase.code, v.recipients, v.externals,
                                            now).tables,
         calls := s.calls[id := call.(phase := Closed, gaveUp := Some(|s.log|))],
         log := s.log + [GaveUp(id, KeyOf(p))])
  }

  /** The draft is there and not yet marked sent, so marking it changes the row. */
  predicate Markable(t: Tables, u: UserKey, d: DraftId) {
    Owned(u, d) in t.drafts && t.drafts[Owned(u, d)].status == Editable
  }

  function MarkSentStep(s: State, id: CallId): State
    requires id in s.calls
  {
    var call := s.calls[id];
    var p := call.plan;
    if !call.phase.Settled? || !p.origin.FromDraft? || |call.phase.result.accepted| == 0 then s
    else s.(tables := MarkDraftSent(s.tables, p.user, p.origin.draft, call.phase.result).tables,
            calls := s.calls[id := call.(phase := Closed)],
            log := if Markable(s.tables, p.user, p.origin.draft)
                   then s.log + [MarkedSent(id, p.user, p.origin.draft)] else s.log)
  }

  function SubmitStep(s: State, id: CallId): State
    requires id in s.calls
  {
    var call := s.calls[id];
    if call.phase != Holding then s
    else s.(calls := s.calls[id := call.(phase := Awaiting, submission := Some(|s.log|))],
            log := s.log + [Submitted(id, KeyOf(call.plan), call.plan.payload)])
  }

  function ActStep(s: State, id: CallId, action: Action): State
    requires id in s.calls
  {
    var call := s.calls[id];
    match action
    case Consume(now) => ConsumeStep(s, id, now)
    case Reserve(operation, checkedAt, now) => ReserveStep(s, id, operation, checkedAt, now)
    case Submit => SubmitStep(s, id)
    case Answer(receipt) =>
      if call.phase != Awaiting then s
      else s.(calls := s.calls[id := call.(phase := Answered(receipt), answer := Some(receipt))])
    case Throw(code) =>
      if call.phase != Holding && call.phase != Awaiting then s
      else s.(calls := s.calls[id := call.(phase := Failing(code))])
    case Complete(fault) => CompleteStep(s, id, fault)
    case GiveUp(now) => GiveUpStep(s, id, now)
    case MarkSent => MarkSentStep(s, id)
    case Crash => s.(calls := s.calls[id := call.(phase := Closed)])
  }

  /** A step that is not enabled leaves the state alone, so every sequence of steps is a run. */
  function Do(s: State, step: Step): State {
    match step
    case Write(u, c) => WriteStep(s, u, c)
    case Enter(id, plan) =>
      if id in s.calls || !Admissible(plan) then s
      else s.(calls := s.calls[id := Entered(plan)])
    case Act(id, action) => if id in s.calls then ActStep(s, id, action) else s
  }

  function Run(s: State, steps: seq<Step>): State {
    if steps == [] then s else Do(Run(s, steps[..|steps| - 1]), steps[|steps| - 1])
  }
}
