/** Whole schedules of service calls, and the protocol runs that simulate them: what holds of every protocol run
    holds of the service. */
module ServiceRuns {
  import opened MailTypes
  import opened Ledger
  import opened LedgerInvariants
  import S = SendServiceSpec
  import V = ServiceInvariants
  import P = SendProtocol
  import AtMostOnce
  import ProtocolLedger
  import SentRows

  /** A send between its reservation and its end: not yet given to the transport, given to it, or stored with the
      receipt its caller goes on with. */
  datatype Stage = Reserved | Given | Stored(receipt: Receipt)

  datatype Waiting = Waiting(plan: P.Plan, stage: Stage)

  /** `sends` lists the transport calls; `ids` and `confirmations` the call and confirmation ids used so far. */
  datatype System = System(
    tables: Tables, waiting: map<P.CallId, Waiting>, ids: set<P.CallId>, confirmations: set<Owned<ConfirmationId>>,
    sends: seq<(Owned<SendKey>, Payload)>)

  datatype Turn =
    | Drafting(step: V.ServiceStep)
    | BeginDraft(id: P.CallId, d: DraftId, confirmation: Option<ConfirmationId>, seen: Option<nat>,
                 operation: OperationId, checkedAt: Time, consumedAt: Time, reservedAt: Time, now: Time)
    | BeginDirect(id: P.CallId, token: string, payload: Payload, operation: OperationId, checkedAt: Time,
                  reservedAt: Time, now: Time)
    | Send(id: P.CallId)
    | Settle(id: P.CallId, outcome: S.Outcome, now: Time)
    | Mark(id: P.CallId)
    | Stop(id: P.CallId)

  /** One turn of some user's service object, whose registry may have changed since the last. */
  datatype Move = Move(registry: S.Registry, user: UserKey, turn: Turn)

  function Idle(mailboxes: set<Owned<MailboxId>>): System {
    System(EmptyTables(mailboxes), map[], {}, {}, [])
  }

  // ----- the service's turns -----

  predicate Quiet(step: V.ServiceStep) {
    V.Drafting(step) || step.UpdatePolicy? || step.Prepare?
  }

  /** The confirmation id is random, hence new. */
  predicate FreshConfirmation(used: set<Owned<ConfirmationId>>, u: UserKey, step: V.ServiceStep) {
    step.Prepare? ==> Owned(u, step.c) !in used
  }

  function Began(sys: System, id: P.CallId, planned: Result<S.Begun>, tx: Tx<S.Begun>): System {
    if planned.Err? || planned.value.Replay? then sys
    else
      sys.(tables := tx.tables, ids := sys.ids + {id},
           waiting := match tx.result
                      case Ok(Deliver(_)) => sys.waiting[id := Waiting(planned.value.plan, Reserved)]
                      case Ok(Replay(receipt)) => sys.waiting[id := Waiting(planned.value.plan, Stored(receipt))]
                      case Err(_) => sys.waiting)
  }

  /** A turn that is not possible now changes nothing. */
  function Take(sys: System, m: Move): System {
    var reg, u, t := m.registry, m.user, sys.tables;
    match m.turn
    case Drafting(step) =>
      if !Quiet(step) || !FreshConfirmation(sys.confirmations, u, step) then sys
      else
        sys.(tables := V.Call(reg, t, u, step),
             confirmations := if step.Prepare? && CommandFor(reg, t, u, step).Some?
                                 && Prepares(t, u, CommandFor(reg, t, u, step).value)
                              then sys.confirmations + {Owned(u, step.c)} else sys.confirmations)
    case BeginDraft(id, d, c, seen, operation, checkedAt, consumedAt, reservedAt, now) =>
      if id in sys.ids || reservedAt > now then sys
      else Began(sys, id, S.PlanDraft(reg, t, u, d, c, seen, checkedAt),
                 S.BeginSendDraft(reg, t, u, d, c, seen, operation, checkedAt, consumedAt, reservedAt, now))
    case BeginDirect(id, token, payload, operation, checkedAt, reservedAt, now) =>
      if id in sys.ids || reservedAt > now then sys
      else Began(sys, id, S.PlanDirect(reg, t, u, token, payload, checkedAt),
                 S.BeginSendDirect(reg, t, u, token, payload, operation, checkedAt, reservedAt, now))
    case Send(id) =>
      if id !in sys.waiting || sys.waiting[id].stage != Reserved then sys
      else
        var p := sys.waiting[id].plan;
        sys.(waiting := sys.waiting[id := Waiting(p, Given)], sends := sys.sends + [(P.KeyOf(p), p.payload)])
    case Settle(id, outcome, now) =>
      if id !in sys.waiting || sys.waiting[id].stage.Stored?
         || (outcome.Delivered? && sys.waiting[id].stage != Given) then sys
      else
        var p := sys.waiting[id].plan;
        var tx := S.SettleSend(t, p, outcome, now);
        sys.(tables := tx.tables,
             waiting := if tx.result.Ok? then sys.waiting[id := Waiting(p, Stored(tx.result.value))]
                        else sys.waiting - {id})
    case Mark(id) =>
      if id !in sys.waiting || !sys.waiting[id].stage.Stored? then sys
      else
        var w := sys.waiting[id];
        sys.(tables := S.MarkAccepted(t, w.plan, w.stage.receipt).tables, waiting := sys.waiting - {id})
    case Stop(id) => sys.(waiting := sys.waiting - {id})
  }

  function Schedule(sys: System, moves: seq<Move>): System {
    if moves == [] then sys else Take(Schedule(sys, moves[..|moves| - 1]), moves[|moves| - 1])
  }

  // ----- a drafting turn is at most one write -----

  /** The store write a drafting call makes, if it gets that far. */
  function CommandFor(reg: S.Registry, t: Tables, u: UserKey, step: V.ServiceStep): Option<Command>
    requires Quiet(step)
  {
    match step
    case CreateDraft(input, d, now) =>
      var payload := S.Compose(reg, input);
      if payload.Err? then None else Some(DoCreateDraft(d, payload.value, now))
    case CreateReply(reply, d, now) =>
      if reply.Err? then None else Some(DoCreateDraft(d, S.ReplyPayload(reply.value), now))
    case UpdateDraft(d, expected, input, now) =>
      if Owned(u, d) !in t.drafts then None
      else
        var current, payload := t.drafts[Owned(u, d)].payload, S.Compose(reg, input);
        if current.mailbox != input.mailbox || payload.Err? then None
        else
          Some(DoUpdateDraft(d, expected,
                             payload.value.(inReplyTo := current.inReplyTo, references := current.references,
                                            attachments := current.attachments), now))
    case AddAttachment(d, expected, input, id, now) =>
      var a := S.NormalizeAttachment(input, id);
      if S.AddDraftAttachment(t, u, d, expected, input, id, now).tables == t || a.Err? then None
      else Some(DoAddAttachment(d, expected, a.value, now))
    case RemoveAttachment(d, expected, id, now) => Some(DoRemoveAttachment(d, expected, id, now))
    case UpdatePolicy(m, policy) => if m !in reg then None else Some(DoSetPolicy(m, policy))
    case Prepare(d, c, checkedAt, now) =>
      if Owned(u, d) !in t.drafts then None
      else
        var draft := t.drafts[Owned(u, d)];
        var v := S.Validate(reg, t, u, d, draft.version, draft.payload, checkedAt);
        if v.Err? then None
        else
          Some(DoPrepare(d, HashPayload(draft.payload), v.value,
                         CurrentPolicy(t, u, draft.payload.mailbox).policy.ttlSeconds, c, now))
  }

  predicate Prepares(t: Tables, u: UserKey, c: Command) {
    c.DoPrepare? && CreateSendConfirmation(t, u, c.d, c.hash, c.validation, c.ttlSeconds, c.c, c.now).result.Ok?
  }

  lemma DraftingIsAWrite(reg: S.Registry, t: Tables, u: UserKey, step: V.ServiceStep)
    requires Quiet(step)
    ensures var c := CommandFor(reg, t, u, step);
            && V.Call(reg, t, u, step) == (if c.Some? then Execute(t, u, c.value) else t)
            && (c.Some? ==> P.Editorial(c.value) && (c.value.DoPrepare? <==> step.Prepare?))
            && (c.Some? && c.value.DoPrepare? ==> c.value.c == step.c)
  {
    match step
    case CreateDraft(input, d, now) =>
    case CreateReply(reply, d, now) =>
    case UpdateDraft(d, expected, input, now) =>
    case AddAttachment(d, expected, input, id, now) =>
    case RemoveAttachment(d, expected, id, now) =>
    case UpdatePolicy(m, policy) =>
    case Prepare(d, c, checkedAt, now) =>
  }

  // ----- the simulation -----

  function Submissions(log: seq<P.Event>): seq<(Owned<SendKey>, Payload)> {
    if log == [] then []
    else
      var e := log[|log| - 1];
      Submissions(log[..|log| - 1]) + if e.Submitted? then [(e.key, e.payload)] else []
  }

  function PhaseOf(stage: Stage): P.Phase {
    match stage
    case Reserved => P.Holding
    case Given => P.Awaiting
    case Stored(receipt) => P.Settled(receipt)
  }

  predicate WaitsAs(calls: map<P.CallId, P.Call>, id: P.CallId, w: Waiting) {
    id in calls && calls[id].plan == w.plan && calls[id].phase == PhaseOf(w.stage)
  }

  /** Same tables, same transport calls, and every waiting send is a call in the matching phase. */
  ghost predicate Simulates(s: P.State, sys: System) {
    && s.tables == sys.tables && s.calls.Keys == sys.ids && s.prepared.Keys == sys.confirmations
    && (forall id <- sys.waiting :: WaitsAs(s.calls, id, sys.waiting[id]))
    && Submissions(s.log) == sys.sends
  }

  lemma {:induction false} RunConcat(s: P.State, a: seq<P.Step>, b: seq<P.Step>)
    ensures P.Run(s, a + b) == P.Run(P.Run(s, a), b)
    decreases |b|
  {
    if b == [] {
      assert a + b == a;
    } else {
      var init, last := b[..|b| - 1], b[|b| - 1];
      assert (a + b)[..|a + b| - 1] == a + init && (a + b)[|a + b| - 1] == last;
      RunConcat(s, a, init);
    }
  }

  lemma RunOne(s: P.State, step: P.Step)
    ensures P.Run(s, [step]) == P.Do(s, step)
  {
    assert [step][..0] == [];
    assert P.Run(s, [step][..0]) == s;
  }

  lemma RunMore(s: P.State, steps: seq<P.Step>, step: P.Step)
    ensures P.Run(s, steps + [step]) == P.Do(P.Run(s, steps), step)
  {
    RunConcat(s, steps, [step]);
    RunOne(P.Run(s, steps), step);
  }

  /** Along these steps every prepare carries the hash of the draft's payload at that moment. */
  predicate Honest(s: P.State, steps: seq<P.Step>) {
    forall i | 0 <= i < |steps| :: SentRows.OwnHash(P.Run(s, steps[..i]), steps[i])
  }

  predicate NoWrites(steps: seq<P.Step>) {
    forall x <- steps :: !x.Write?
  }

  lemma HonestConcat(s: P.State, a: seq<P.Step>, b: seq<P.Step>)
    requires Honest(s, a) && Honest(P.Run(s, a), b)
    ensures Honest(s, a + b)
  {
    forall i | 0 <= i < |a + b| ensures SentRows.OwnHash(P.Run(s, (a + b)[..i]), (a + b)[i]) {
      if i < |a| {
        assert (a + b)[..i] == a[..i];
      } else {
        assert (a + b)[..i] == a + b[..i - |a|];
        RunConcat(s, a, b[..i - |a|]);
        assert SentRows.OwnHash(P.Run(P.Run(s, a), b[..i - |a|]), b[i - |a|]);
      }
    }
  }

  /** The log stays or grows by one event that is no submission. */
  predicate QuietLog(log: seq<P.Event>, log': seq<P.Event>) {
    log' == log
    || (|log'| == |log| + 1 && log' == log + [log'[|log|]] && !log'[|log|].Submitted?)
  }

  lemma QuietSubmissions(log: seq<P.Event>, log': seq<P.Event>)
    requires QuietLog(log, log')
    ensures Submissions(log') == Submissions(log)
  {
    if log' != log {
      assert log'[..|log|] == log;
    }
  }

  /** An action concerns its own call only, and makes no submission unless it is one. */
  predicate Own(s: P.State, s': P.State, id: P.CallId) {
    && s'.prepared == s.prepared && id in s.calls && id in s'.calls && s'.calls == s.calls[id := s'.calls[id]]
    && s'.calls[id].plan == s.calls[id].plan && QuietLog(s.log, s'.log)
  }

  lemma ReserveIsOwn(s: P.State, id: P.CallId, operation: OperationId, checkedAt: Time, now: Time)
    requires id in s.calls
    ensures Own(s, P.ReserveStep(s, id, operation, checkedAt, now), id)
  {
    assert s.calls == s.calls[id := s.calls[id]];
  }

  lemma CompleteIsOwn(s: P.State, id: P.CallId, fault: P.CompletionFault)
    requires id in s.calls
    ensures Own(s, P.CompleteStep(s, id, fault), id)
  {
    assert s.calls == s.calls[id := s.calls[id]];
  }

  lemma ConsumeIsOwn(s: P.State, id: P.CallId, now: Time)
    requires id in s.calls
    ensures Own(s, P.ConsumeStep(s, id, now), id)
  {
    assert s.calls == s.calls[id := s.calls[id]];
  }

  lemma EndIsOwn(s: P.State, id: P.CallId, now: Time)
    requires id in s.calls
    ensures Own(s, P.GiveUpStep(s, id, now), id) && Own(s, P.MarkSentStep(s, id), id)
  {
    assert s.calls == s.calls[id := s.calls[id]];
  }

  lemma ActIsOwn(s: P.State, id: P.CallId, action: P.Action)
    requires id in s.calls && !action.Submit?
    ensures Own(s, P.Do(s, P.Act(id, action)), id)
  {
    assert s.calls == s.calls[id := s.calls[id]];
    match action
    case Consume(now) => ConsumeIsOwn(s, id, now);
    case Reserve(operation, checkedAt, now) => ReserveIsOwn(s, id, operation, checkedAt, now);
    case Complete(fault) => CompleteIsOwn(s, id, fault);
    case GiveUp(now) => EndIsOwn(s, id, now);
    case MarkSent => EndIsOwn(s, id, 0);
    case _ =>
  }

  // ----- drafting turns -----

  lemma WriteFrame(s: P.State, u: UserKey, c: Command)
    requires P.Editorial(c) && (c.DoPrepare? ==> Owned(u, c.c) !in s.prepared)
    ensures var s' := P.Do(s, P.Write(u, c));
            && s'.tables == Execute(s.tables, u, c) && s'.calls == s.calls && QuietLog(s.log, s'.log)
            && s'.prepared.Keys
               == if c.DoPrepare? && Prepares(s.tables, u, c)
                  then s.prepared.Keys + {Owned(u, c.c)} else s.prepared.Keys
  {
  }

  lemma OwnPrepare(reg: S.Registry, t: Tables, u: UserKey, step: V.ServiceStep)
    requires Quiet(step)
    ensures var c := CommandFor(reg, t, u, step);
            c.Some? && c.value.DoPrepare? ==>
              Owned(u, c.value.d) in t.drafts && c.value.hash == HashPayload(t.drafts[Owned(u, c.value.d)].payload)
  {
  }

  lemma DraftingSimulated(s: P.State, sys: System, m: Move) returns (steps: seq<P.Step>)
    requires Simulates(s, sys) && m.turn.Drafting?
    ensures Simulates(P.Run(s, steps), Take(sys, m)) && Honest(s, steps)
  {
    var step := m.turn.step;
    steps := [];
    if Quiet(step) && FreshConfirmation(sys.confirmations, m.user, step) {
      var c := CommandFor(m.registry, sys.tables, m.user, step);
      DraftingIsAWrite(m.registry, sys.tables, m.user, step);
      if c.Some? {
        steps := [P.Write(m.user, c.value)];
        assert steps[..0] == [];
        OwnPrepare(m.registry, sys.tables, m.user, step);
        RunOne(s, steps[0]);
        WriteFrame(s, m.user, c.value);
        QuietSubmissions(s.log, P.Run(s, steps).log);
      }
    }
  }

  // ----- turns of a waiting send -----

  /** Only this call moved, and the waiting sends are the same but for it. */
  lemma OthersWait(s: P.State, s': P.State, sys: System, sys': System, id: P.CallId)
    requires Simulates(s, sys) && id in s.calls && id in s'.calls && s'.calls == s.calls[id := s'.calls[id]]
    requires sys'.waiting - {id} == sys.waiting - {id}
    requires id in sys'.waiting ==> WaitsAs(s'.calls, id, sys'.waiting[id])
    requires s'.prepared == s.prepared && sys'.ids == sys.ids && sys'.confirmations == sys.confirmations
    requires s'.tables == sys'.tables && Submissions(s'.log) == sys'.sends
    ensures Simulates(s', sys')
  {
    assert s'.calls.Keys == s.calls.Keys;
    forall i <- sys'.waiting ensures WaitsAs(s'.calls, i, sys'.waiting[i]) {
      if i != id {
        assert i in sys'.waiting - {id};
        assert i in sys.waiting - {id};
        assert sys'.waiting[i] == (sys'.waiting - {id})[i] == (sys.waiting - {id})[i] == sys.waiting[i];
        assert WaitsAs(s.calls, i, sys.waiting[i]);
      }
    }
  }

  lemma SendSimulated(s: P.State, sys: System, m: Move) returns (steps: seq<P.Step>)
    requires Simulates(s, sys) && m.turn.Send?
    ensures Simulates(P.Run(s, steps), Take(sys, m)) && NoWrites(steps)
  {
    var id := m.turn.id;
    steps := [];
    if id in sys.waiting && sys.waiting[id].stage == Reserved {
      assert WaitsAs(s.calls, id, sys.waiting[id]);
      steps := [P.Act(id, P.Submit)];
      RunOne(s, steps[0]);
      var s' := P.SubmitStep(s, id);
      assert P.Run(s, steps) == s';
      assert s'.log[..|s.log|] == s.log;
      OthersWait(s, s', sys, Take(sys, m), id);
    }
  }

  lemma SettleSimulated(s: P.State, sys: System, m: Move) returns (steps: seq<P.Step>)
    requires Simulates(s, sys) && m.turn.Settle?
    ensures Simulates(P.Run(s, steps), Take(sys, m)) && NoWrites(steps)
  {
    var id, outcome, now := m.turn.id, m.turn.outcome, m.turn.now;
    steps := [];
    if id in sys.waiting && !sys.waiting[id].stage.Stored? && (outcome.Delivered? ==> sys.waiting[id].stage == Given) {
      assert WaitsAs(s.calls, id, sys.waiting[id]);
      if outcome.Failed? {
        steps := FailureSteps(s, id, outcome.code, now);
      } else {
        steps := DeliverySteps(s, id, outcome.receipt, outcome.fault, now);
      }
      OthersWait(s, P.Run(s, steps), sys, Take(sys, m), id);
    }
  }

  lemma MarkSimulated(s: P.State, sys: System, m: Move) returns (steps: seq<P.Step>)
    requires Simulates(s, sys) && m.turn.Mark?
    ensures Simulates(P.Run(s, steps), Take(sys, m)) && NoWrites(steps)
  {
    var id := m.turn.id;
    steps := [];
    if id in sys.waiting && sys.waiting[id].stage.Stored? {
      assert WaitsAs(s.calls, id, sys.waiting[id]);
      steps := [P.Act(id, P.MarkSent)];
      RunOne(s, steps[0]);
      V.MarkAcceptedIsARun(s, id, sys.waiting[id].stage.receipt);
      ActIsOwn(s, id, P.MarkSent);
      QuietSubmissions(s.log, P.Run(s, steps).log);
      OthersWait(s, P.Run(s, steps), sys, Take(sys, m), id);
    }
  }

  lemma StopSimulated(s: P.State, sys: System, m: Move) returns (steps: seq<P.Step>)
    requires Simulates(s, sys) && m.turn.Stop?
    ensures Simulates(P.Run(s, steps), Take(sys, m)) && NoWrites(steps)
  {
    var id := m.turn.id;
    steps := [];
    if id in sys.waiting {
      assert WaitsAs(s.calls, id, sys.waiting[id]);
      steps := [P.Act(id, P.Crash)];
      RunOne(s, steps[0]);
      OthersWait(s, P.Run(s, steps), sys, Take(sys, m), id);
    } else {
      assert sys.waiting - {id} == sys.waiting;
    }
  }

  /** After these steps the receipt is stored and the call settled, or the call has given up. */
  predicate SettledAs(s: P.State, s': P.State, id: P.CallId, outcome: S.Outcome, now: Time) {
    && id in s.calls && id in s'.calls && s'.calls == s.calls[id := s'.calls[id]] && s'.prepared == s.prepared
    && Submissions(s'.log) == Submissions(s.log)
    && var tx := S.SettleSend(s.tables, s.calls[id].plan, outcome, now);
       && s'.tables == tx.tables && s'.calls[id].plan == s.calls[id].plan
       && (tx.result.Ok? ==> s'.calls[id].phase == P.Settled(tx.result.value))
  }

  lemma OwnTwice(s: P.State, s1: P.State, s2: P.State, id: P.CallId)
    requires Own(s, s1, id) && Own(s1, s2, id)
    ensures s2.calls == s.calls[id := s2.calls[id]] && s2.prepared == s.prepared
    ensures s2.calls[id].plan == s.calls[id].plan
    ensures Submissions(s2.log) == Submissions(s.log)
  {
    QuietSubmissions(s.log, s1.log);
    QuietSubmissions(s1.log, s2.log);
  }

  lemma FailureSteps(s: P.State, id: P.CallId, code: ErrorCode, now: Time) returns (steps: seq<P.Step>)
    requires id in s.calls && (s.calls[id].phase == P.Holding || s.calls[id].phase == P.Awaiting)
    ensures SettledAs(s, P.Run(s, steps), id, S.Failed(code), now) && NoWrites(steps)
  {
    var s1 := P.Do(s, P.Act(id, P.Throw(code)));
    var s2 := P.Do(s1, P.Act(id, P.GiveUp(now)));
    steps := [P.Act(id, P.Throw(code))] + [P.Act(id, P.GiveUp(now))];
    RunOne(s, P.Act(id, P.Throw(code)));
    RunMore(s, [P.Act(id, P.Throw(code))], P.Act(id, P.GiveUp(now)));
    V.FailedSendIsARun(s, id, code, now);
    ActIsOwn(s, id, P.Throw(code));
    ActIsOwn(s1, id, P.GiveUp(now));
    OwnTwice(s, s1, s2, id);
  }

  lemma DeliverySteps(s: P.State, id: P.CallId, receipt: Receipt, fault: P.CompletionFault, now: Time)
    returns (steps: seq<P.Step>)
    requires id in s.calls && s.calls[id].phase == P.Awaiting
    ensures SettledAs(s, P.Run(s, steps), id, S.Delivered(receipt, fault), now) && NoWrites(steps)
  {
    var a1, a2 := P.Act(id, P.Answer(receipt)), P.Act(id, P.Complete(fault));
    var s1 := P.Do(s, a1);
    var s2 := P.Do(s1, a2);
    ActIsOwn(s, id, P.Answer(receipt));
    ActIsOwn(s1, id, P.Complete(fault));
    OwnTwice(s, s1, s2, id);
    V.SettleSendIsARun(s1, id, receipt, fault, now);
    steps := [a1] + [a2];
    RunOne(s, a1);
    RunMore(s, [a1], a2);
    if S.SettleSend(s1.tables, s1.calls[id].plan, S.Delivered(receipt, fault), now).result.Err? {
      var a3 := P.Act(id, P.GiveUp(now));
      RunMore(s, steps, a3);
      ActIsOwn(s2, id, P.GiveUp(now));
      QuietSubmissions(s2.log, P.Do(s2, a3).log);
      steps := steps + [a3];
    }
  }

  // ----- turns that begin a send -----

  /** After these steps the call is known, and waits exactly if the service goes on. */
  ghost predicate Begun(s: P.State, s': P.State, id: P.CallId, p: P.Plan, tx: Tx<S.Begun>) {
    && id in s'.calls && s'.calls == s.calls[id := s'.calls[id]] && s'.prepared == s.prepared
    && s'.tables == tx.tables && s'.calls[id].plan == p
    && V.BegunAs(tx, s'.calls[id].phase)
    && Submissions(s'.log) == Submissions(s.log)
  }

  lemma BegunSimulates(
    s: P.State, s': P.State, sys: System, id: P.CallId, planned: Result<S.Begun>, tx: Tx<S.Begun>)
    requires Simulates(s, sys) && id !in sys.ids && planned.Ok? && planned.value.Deliver?
    requires Begun(s, s', id, planned.value.plan, tx)
    ensures Simulates(s', Began(sys, id, planned, tx))
  {
    var sys' := Began(sys, id, planned, tx);
    assert s'.calls.Keys == s.calls.Keys + {id};
    forall i <- sys'.waiting ensures WaitsAs(s'.calls, i, sys'.waiting[i]) {
      if i in sys.waiting {
        assert WaitsAs(s.calls, i, sys.waiting[i]);
      }
    }
  }

  lemma EnteredCall(s: P.State, id: P.CallId, p: P.Plan)
    requires id !in s.calls && P.Admissible(p)
    ensures var s' := P.Do(s, P.Enter(id, p));
            && s'.calls == s.calls[id := P.Entered(p)] && s'.tables == s.tables && s'.prepared == s.prepared
            && s'.log == s.log
  {
  }

  lemma EnterConsumeReserve(s: P.State, id: P.CallId, p: P.Plan, consumedAt: Time, reserve: P.Action)
    returns (steps: seq<P.Step>)
    requires id !in s.calls && P.Admissible(p) && reserve.Reserve?
    ensures P.Run(s, steps) == P.Do(P.Do(P.Do(s, P.Enter(id, p)), P.Act(id, P.Consume(consumedAt))), P.Act(id, reserve))
    ensures Started(s, P.Run(s, steps), id, p) && NoWrites(steps)
  {
    var a1, a2, a3 := P.Enter(id, p), P.Act(id, P.Consume(consumedAt)), P.Act(id, reserve);
    steps := [a1] + [a2] + [a3];
    RunOne(s, a1);
    RunMore(s, [a1], a2);
    RunMore(s, [a1] + [a2], a3);
    EnteredCall(s, id, p);
    var s1 := P.Do(s, a1);
    ActIsOwn(s1, id, P.Consume(consumedAt));
    var s2 := P.Do(s1, a2);
    ActIsOwn(s2, id, reserve);
    OwnTwice(s1, s2, P.Do(s2, a3), id);
  }

  lemma EnterReserve(s: P.State, id: P.CallId, p: P.Plan, reserve: P.Action) returns (steps: seq<P.Step>)
    requires id !in s.calls && P.Admissible(p) && reserve.Reserve?
    ensures P.Run(s, steps) == P.Do(P.Do(s, P.Enter(id, p)), P.Act(id, reserve))
    ensures Started(s, P.Run(s, steps), id, p) && NoWrites(steps)
  {
    var a1, a2 := P.Enter(id, p), P.Act(id, reserve);
    steps := [a1] + [a2];
    RunOne(s, a1);
    RunMore(s, [a1], a2);
    EnteredCall(s, id, p);
    var s1 := P.Do(s, a1);
    ActIsOwn(s1, id, reserve);
    QuietSubmissions(s1.log, P.Do(s1, a2).log);
  }

  /** One new call with this plan, and no submission. */
  predicate Started(s: P.State, s': P.State, id: P.CallId, p: P.Plan) {
    && id in s'.calls && s'.calls == s.calls[id := s'.calls[id]] && s'.prepared == s.prepared
    && s'.calls[id].plan == p && Submissions(s'.log) == Submissions(s.log)
  }

  lemma BeginDraftSimulated(s: P.State, sys: System, m: Move) returns (steps: seq<P.Step>)
    requires Simulates(s, sys) && m.turn.BeginDraft?
    ensures Simulates(P.Run(s, steps), Take(sys, m)) && NoWrites(steps)
  {
    var b := m.turn;
    var planned := S.PlanDraft(m.registry, sys.tables, m.user, b.d, b.confirmation, b.seen, b.checkedAt);
    steps := [];
    if b.id !in sys.ids && b.reservedAt <= b.now && planned.Ok? && planned.value.Deliver? {
      var tx := S.BeginSendDraft(m.registry, sys.tables, m.user, b.d, b.confirmation, b.seen, b.operation, b.checkedAt,
                                 b.consumedAt, b.reservedAt, b.now);
      V.PlansAreAdmissible(m.registry, sys.tables, m.user, b.d, b.confirmation, b.seen, "", V.EmptyPayload(),
                           b.checkedAt);
      V.BeginSendDraftIsARun(s, b.id, m.registry, m.user, b.d, b.confirmation, b.seen, b.operation, b.checkedAt,
                             b.consumedAt, b.reservedAt, b.now);
      steps := EnterConsumeReserve(s, b.id, planned.value.plan, b.consumedAt,
                                   P.Reserve(b.operation, b.reservedAt, b.now));
      BegunSimulates(s, P.Run(s, steps), sys, b.id, planned, tx);
    }
  }

  lemma BeginDirectSimulated(s: P.State, sys: System, m: Move) returns (steps: seq<P.Step>)
    requires Simulates(s, sys) && m.turn.BeginDirect?
    ensures Simulates(P.Run(s, steps), Take(sys, m)) && NoWrites(steps)
  {
    var b := m.turn;
    var planned := S.PlanDirect(m.registry, sys.tables, m.user, b.token, b.payload, b.checkedAt);
    steps := [];
    if b.id !in sys.ids && b.reservedAt <= b.now && planned.Ok? && planned.value.Deliver? {
      var tx := S.BeginSendDirect(m.registry, sys.tables, m.user, b.token, b.payload, b.operation, b.checkedAt,
                                  b.reservedAt, b.now);
      V.PlansAreAdmissible(m.registry, sys.tables, m.user, "", None, None, b.token, b.payload, b.checkedAt);
      V.BeginSendDirectIsARun(s, b.id, m.registry, m.user, b.token, b.payload, b.operation, b.checkedAt, b.reservedAt,
                              b.now);
      steps := EnterReserve(s, b.id, planned.value.plan, P.Reserve(b.operation, b.reservedAt, b.now));
      BegunSimulates(s, P.Run(s, steps), sys, b.id, planned, tx);
    }
  }

  lemma TurnIsSimulated(s: P.State, sys: System, m: Move) returns (steps: seq<P.Step>)
    requires Simulates(s, sys)
    ensures Simulates(P.Run(s, steps), Take(sys, m)) && Honest(s, steps)
  {
    match m.turn
    case Drafting(_) => steps := DraftingSimulated(s, sys, m);
    case BeginDraft(_, _, _, _, _, _, _, _, _) => steps := BeginDraftSimulated(s, sys, m);
    case BeginDirect(_, _, _, _, _, _, _) => steps := BeginDirectSimulated(s, sys, m);
    case Send(_) => steps := SendSimulated(s, sys, m);
    case Settle(_, _, _) => steps := SettleSimulated(s, sys, m);
    case Mark(_) => steps := MarkSimulated(s, sys, m);
    case Stop(_) => steps := StopSimulated(s, sys, m);
  }

  /** Every schedule of service calls, by any users, with their waits interleaved, is simulated by a protocol run:
      same tables, same transport calls, and every prepare with the draft's own hash. */
  lemma {:induction false} ServiceIsSimulated(mailboxes: set<Owned<MailboxId>>, moves: seq<Move>)
    returns (steps: seq<P.Step>)
    ensures Simulates(P.Run(P.Start(mailboxes), steps), Schedule(Idle(mailboxes), moves))
    ensures SentRows.OwnHashes(mailboxes, steps)
  {
    steps := [];
    if moves != [] {
      var m := moves[|moves| - 1];
      var sys := Schedule(Idle(mailboxes), moves[..|moves| - 1]);
      var before := ServiceIsSimulated(mailboxes, moves[..|moves| - 1]);
      var more := TurnIsSimulated(P.Run(P.Start(mailboxes), before), sys, m);
      RunConcat(P.Start(mailboxes), before, more);
      HonestConcat(P.Start(mailboxes), before, more);
      steps := before + more;
    }
  }

  // ----- what carries over -----

  predicate KeysDiffer(sends: seq<(Owned<SendKey>, Payload)>) {
    forall i, j | 0 <= i < j < |sends| :: sends[i].0 != sends[j].0
  }

  predicate SubmittedOnce(log: seq<P.Event>) {
    forall i, j | 0 <= i < |log| && 0 <= j < |log| && log[i].Submitted? && log[j].Submitted?
                  && log[i].key == log[j].key :: i == j
  }

  lemma {:induction false} SubmissionsDiffer(log: seq<P.Event>)
    requires SubmittedOnce(log)
    ensures KeysDiffer(Submissions(log))
    ensures forall x <- Submissions(log) :: exists i :: 0 <= i < |log| && log[i].Submitted? && log[i].key == x.0
  {
    if log != [] {
      var init, e := log[..|log| - 1], log[|log| - 1];
      forall i, j | 0 <= i < |init| && 0 <= j < |init| && init[i].Submitted? && init[j].Submitted?
                    && init[i].key == init[j].key
        ensures i == j
      {
        assert init[i] == log[i] && init[j] == log[j];
      }
      SubmissionsDiffer(init);
      var before := Submissions(init);
      forall i | 0 <= i < |before| && e.Submitted? ensures before[i].0 != e.key {
        assert before[i] in before;
        var n :| 0 <= n < |init| && init[n].Submitted? && init[n].key == before[i].0;
        assert log[n] == init[n];
      }
      forall x <- Submissions(log) ensures exists i :: 0 <= i < |log| && log[i].Submitted? && log[i].key == x.0 {
        if x in before {
          var n :| 0 <= n < |init| && init[n].Submitted? && init[n].key == x.0;
          assert log[n] == init[n];
        } else {
          assert log[|log| - 1].key == x.0;
        }
      }
    }
  }

  lemma OnceIsOnce(mailboxes: set<Owned<MailboxId>>, steps: seq<P.Step>)
    ensures SubmittedOnce(P.Run(P.Start(mailboxes), steps).log)
  {
    AtMostOnce.SubmittedAtMostOnce(mailboxes, steps);
  }

  /** Over every schedule of service calls the transport is called at most once per user and idempotency key, and
      the ledger stays consistent. */
  lemma ServiceSendsAtMostOnce(mailboxes: set<Owned<MailboxId>>, moves: seq<Move>)
    ensures KeysDiffer(Schedule(Idle(mailboxes), moves).sends)
    ensures Consistent(Schedule(Idle(mailboxes), moves).tables)
  {
    var steps := ServiceIsSimulated(mailboxes, moves);
    OnceIsOnce(mailboxes, steps);
    SubmissionsDiffer(P.Run(P.Start(mailboxes), steps).log);
    ProtocolLedger.ConsistentAlways(mailboxes, steps);
  }
}
