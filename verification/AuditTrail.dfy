/** The audit trail of every operation, event by event, over every protocol run. */
module AuditTrail {
  import opened MailTypes
  import opened Ledger
  import opened LedgerInvariants
  import opened SendProtocol
  import opened AtMostOnce
  import opened ProtocolLedger

  /** `submitting` alone, or followed by the one state the operation ended in. */
  predicate Exact(history: seq<SendState>, state: SendState) {
    history == if state == Submitting then [Submitting] else [Submitting, state]
  }

  /** The one other trail: the answer was stored, reading it back failed, and `unknown` was recorded after it. */
  predicate Contradicted(history: seq<SendState>, state: SendState) {
    Completed(state) && history == [Submitting, state, Unknown]
  }

  predicate Tight(history: seq<SendState>, state: SendState, phase: Phase, lost: bool, gaveUp: bool) {
    match phase
    case Failing(_) => Exact(history, state) && !gaveUp && if lost then Completed(state) else state == Submitting
    case Closed => if lost && gaveUp then Contradicted(history, state) else Exact(history, state)
    case Settled(_) => Exact(history, state) && !lost && !gaveUp
    case _ => Exact(history, state) && state == Submitting && !lost && !gaveUp
  }

  function TrailOf(t: Tables, k: Owned<SendKey>): seq<SendState>
    requires k in t.operations
  {
    History(t.sendAudit, k.user, t.operations[k].id)
  }

  predicate CallTight(t: Tables, c: Call) {
    c.reservation.Some? ==>
      && KeyOf(c.plan) in t.operations
      && Tight(TrailOf(t, KeyOf(c.plan)), t.operations[KeyOf(c.plan)].state, c.phase, c.lost.Some?, c.gaveUp.Some?)
  }

  predicate AllTight(t: Tables, calls: map<CallId, Call>) {
    forall id <- calls :: CallTight(t, calls[id])
  }

  /** All keys but one keep their state and their trail. */
  predicate OthersKept(t: Tables, t': Tables, k: Owned<SendKey>) {
    forall l <- t.operations | l != k ::
      l in t'.operations && t'.operations[l] == t.operations[l] && TrailOf(t', l) == TrailOf(t, l)
  }

  lemma OnlyThisCall(s: State, s': State, id: CallId)
    requires HoldersOk(s) && AllTight(s.tables, s.calls)
    requires id in s.calls && id in s'.calls && s'.calls == s.calls[id := s'.calls[id]]
    requires s.calls[id].reservation.Some? || KeyOf(s.calls[id].plan) !in s.tables.operations || s'.tables == s.tables
    requires OthersKept(s.tables, s'.tables, KeyOf(s.calls[id].plan)) || s'.tables == s.tables
    requires CallTight(s'.tables, s'.calls[id])
    ensures AllTight(s'.tables, s'.calls)
  {
    forall i <- s'.calls ensures CallTight(s'.tables, s'.calls[i]) {
      if i != id {
        assert CallTight(s.tables, s.calls[i]);
      }
    }
  }

  lemma InsertTrail(t: Tables, t': Tables, k: Owned<SendKey>, op: Operation, e: AuditEvent)
    requires AuditAgrees(t.operations, t.sendAudit) && k !in t.operations && !IdInUse(t.operations, k.user, op.id)
    requires t'.operations == t.operations[k := op] && t'.sendAudit == t.sendAudit + [e]
    requires e.user == k.user && e.operation == Some(op.id) && e.state == Some(op.state)
    ensures OthersKept(t, t', k) && TrailOf(t', k) == [op.state]
  {
    UnusedHistory(t.sendAudit, k.user, op.id);
    AuditAppends(t.sendAudit, e, k.user, op.id);
    forall l <- t.operations | l != k ensures TrailOf(t', l) == TrailOf(t, l) {
      AuditAppends(t.sendAudit, e, l.user, t.operations[l].id);
    }
  }

  lemma AppendTrail(t: Tables, t': Tables, k: Owned<SendKey>, e: AuditEvent)
    requires IdsDistinct(t.operations) && k in t.operations && k in t'.operations
    requires t'.operations == t.operations[k := t'.operations[k]] && t'.operations[k].id == t.operations[k].id
    requires t'.sendAudit == t.sendAudit + [e] && e.user == k.user && e.operation == Some(t.operations[k].id)
             && e.state.Some?
    ensures OthersKept(t, t', k) && TrailOf(t', k) == TrailOf(t, k) + [e.state.value]
  {
    AuditAppends(t.sendAudit, e, k.user, t.operations[k].id);
    forall l <- t.operations | l != k ensures TrailOf(t', l) == TrailOf(t, l) {
      AuditAppends(t.sendAudit, e, l.user, t.operations[l].id);
    }
  }

  lemma WriteKeepsTight(s: State, u: UserKey, c: Command)
    requires AllTight(s.tables, s.calls)
    ensures AllTight(WriteStep(s, u, c).tables, s.calls)
  {
    var s' := WriteStep(s, u, c);
    if s' != s {
      OtherWritesKeep(s.tables, u, c);
      forall k <- s.tables.operations ensures TrailOf(s'.tables, k) == TrailOf(s.tables, k) {
        if s'.tables.sendAudit != s.tables.sendAudit {
          var e: AuditEvent :| e.operation == None && s'.tables.sendAudit == s.tables.sendAudit + [e];
          AuditAppends(s.tables.sendAudit, e, k.user, s.tables.operations[k].id);
        }
      }
      forall id <- s.calls ensures CallTight(s'.tables, s.calls[id]) {
        assert CallTight(s.tables, s.calls[id]);
      }
    }
  }

  /** The audit row that names this operation with this state. */
  predicate Names(e: AuditEvent, k: Owned<SendKey>, op: Operation, state: SendState) {
    e.user == k.user && e.operation == Some(op.id) && e.state == Some(state)
  }

  lemma ReserveLedger(s: State, id: CallId, operation: OperationId, checkedAt: Time, now: Time)
    requires id in s.calls
    ensures var s', c, k := ReserveStep(s, id, operation, checkedAt, now), s.calls[id], KeyOf(s.calls[id].plan);
            if s'.log == s.log then
              s'.tables == s.tables
            else
              && k !in s.tables.operations && k in s'.tables.operations
              && var op := s'.tables.operations[k];
                 && op.state == Submitting && !OperationIdUsed(s.tables, k.user, op.id)
                 && s'.tables.operations == s.tables.operations[k := op]
                 && |s'.tables.sendAudit| == |s.tables.sendAudit| + 1
                 && var e := s'.tables.sendAudit[|s.tables.sendAudit|];
                    s'.tables.sendAudit == s.tables.sendAudit + [e] && Names(e, k, op, Submitting)
  {
  }

  lemma ReservePhase(s: State, id: CallId, operation: OperationId, checkedAt: Time, now: Time)
    requires CallOk(s, id)
    ensures var s', c := ReserveStep(s, id, operation, checkedAt, now), s.calls[id];
            && s'.calls == s.calls[id := s'.calls[id]]
            && (s'.log == s.log ==> s'.calls[id].reservation == c.reservation && (s' == s || c.reservation.None?))
            && (s'.log != s.log ==>
                  s'.calls[id] == c.(phase := Holding, reservation := Some(|s.log|)) && c.lost.None? && c.gaveUp.None?)
  {
    ReserveShape(s, id, operation, checkedAt, now);
  }

  lemma ReserveKeepsTight(s: State, id: CallId, operation: OperationId, checkedAt: Time, now: Time)
    requires AllTight(s.tables, s.calls) && HoldersOk(s) && CallOk(s, id)
             && AuditAgrees(s.tables.operations, s.tables.sendAudit)
    ensures var s' := ReserveStep(s, id, operation, checkedAt, now); AllTight(s'.tables, s'.calls)
  {
    var s' := ReserveStep(s, id, operation, checkedAt, now);
    var k := KeyOf(s.calls[id].plan);
    ReserveLedger(s, id, operation, checkedAt, now);
    ReservePhase(s, id, operation, checkedAt, now);
    assert CallTight(s.tables, s.calls[id]);
    if s'.log != s.log {
      ReservedTrail(s.tables, s'.tables, k);
    }
    OnlyThisCall(s, s', id);
  }

  lemma ReservedTrail(t: Tables, t': Tables, k: Owned<SendKey>)
    requires AuditAgrees(t.operations, t.sendAudit) && k !in t.operations && k in t'.operations
    requires t'.operations[k].state == Submitting && !OperationIdUsed(t, k.user, t'.operations[k].id)
    requires t'.operations == t.operations[k := t'.operations[k]] && |t'.sendAudit| == |t.sendAudit| + 1
    requires t'.sendAudit == t.sendAudit + [t'.sendAudit[|t.sendAudit|]]
    requires Names(t'.sendAudit[|t.sendAudit|], k, t'.operations[k], Submitting)
    ensures OthersKept(t, t', k) && TrailOf(t', k) == [Submitting]
  {
    InsertTrail(t, t', k, t'.operations[k], t'.sendAudit[|t.sendAudit|]);
  }

  /** A completion either leaves the tables alone or settles this call's key and audits it. */
  predicate CompletesAs(s: State, s': State, id: CallId) {
    && id in s.calls && id in s'.calls && s'.calls == s.calls[id := s'.calls[id]]
    && var c, d, k := s.calls[id], s'.calls[id], KeyOf(s.calls[id].plan);
       && d.plan == c.plan && d.reservation == c.reservation && d.gaveUp == c.gaveUp
       && if s'.tables == s.tables then
            d == c || (c.phase.Answered? && d.phase.Failing? && d.lost == c.lost)
          else
            && k in s.tables.operations && k in s'.tables.operations && c.phase.Answered?
            && var op, audit := s'.tables.operations[k], s.tables.sendAudit;
               && op.id == s.tables.operations[k].id && Completed(op.state)
               && s'.tables.operations == s.tables.operations[k := op]
               && |s'.tables.sendAudit| == |audit| + 1 && s'.tables.sendAudit == audit + [s'.tables.sendAudit[|audit|]]
               && Names(s'.tables.sendAudit[|audit|], k, op, op.state)
               && ((d.phase.Settled? && d.lost == c.lost) || (d.phase.Failing? && d.lost.Some?))
  }

  lemma CompleteLedger(s: State, id: CallId, fault: CompletionFault)
    requires id in s.calls
    ensures CompletesAs(s, CompleteStep(s, id, fault), id)
  {
  }

  lemma CompletedTight(s: State, s': State, id: CallId)
    requires AllTight(s.tables, s.calls) && HoldersOk(s) && CallOk(s, id) && IdsDistinct(s.tables.operations)
    requires CompletesAs(s, s', id)
    ensures AllTight(s'.tables, s'.calls)
  {
    var k := KeyOf(s.calls[id].plan);
    assert CallTight(s.tables, s.calls[id]);
    if s'.tables != s.tables {
      AppendTrail(s.tables, s'.tables, k, s'.tables.sendAudit[|s.tables.sendAudit|]);
      assert TrailOf(s'.tables, k) == [Submitting] + [s'.tables.operations[k].state];
    }
    OnlyThisCall(s, s', id);
  }

  lemma CompleteKeepsTight(s: State, id: CallId, fault: CompletionFault)
    requires AllTight(s.tables, s.calls) && HoldersOk(s) && CallOk(s, id) && IdsDistinct(s.tables.operations)
    ensures var s' := CompleteStep(s, id, fault); AllTight(s'.tables, s'.calls)
  {
    CompleteLedger(s, id, fault);
    CompletedTight(s, CompleteStep(s, id, fault), id);
  }

  /** Giving up leaves the tables alone or audits `unknown` for this call's key, and closes the call. */
  predicate GivesUpAs(s: State, s': State, id: CallId) {
    && id in s.calls && id in s'.calls && s'.calls == s.calls[id := s'.calls[id]]
    && var c, d, k := s.calls[id], s'.calls[id], KeyOf(s.calls[id].plan);
       && d == (if c.phase.Failing? then c.(phase := Closed, gaveUp := Some(|s.log|)) else c)
       && if k !in s.tables.operations || !c.phase.Failing? then s'.tables == s.tables
          else
            && k in s'.tables.operations
            && var op, audit := s'.tables.operations[k], s.tables.sendAudit;
               && op.id == s.tables.operations[k].id
               && op.state
                  == (if s.tables.operations[k].state == Submitting then Unknown else s.tables.operations[k].state)
               && s'.tables.operations == s.tables.operations[k := op]
               && |s'.tables.sendAudit| == |audit| + 1 && s'.tables.sendAudit == audit + [s'.tables.sendAudit[|audit|]]
               && Names(s'.tables.sendAudit[|audit|], k, op, Unknown)
  }

  lemma GiveUpLedger(s: State, id: CallId, now: Time)
    requires id in s.calls
    ensures GivesUpAs(s, GiveUpStep(s, id, now), id)
  {
  }

  lemma UnknownEnds(history: seq<SendState>, state: SendState, phase: Phase, lost: bool)
    requires phase.Failing? && Tight(history, state, phase, lost, false)
    ensures Tight(history + [Unknown], if state == Submitting then Unknown else state, Closed, lost, true)
  {
  }

  lemma GivenUpTight(s: State, s': State, id: CallId)
    requires AllTight(s.tables, s.calls) && HoldersOk(s) && CallOk(s, id) && IdsDistinct(s.tables.operations)
    requires GivesUpAs(s, s', id)
    ensures AllTight(s'.tables, s'.calls)
  {
    var k := KeyOf(s.calls[id].plan);
    assert CallTight(s.tables, s.calls[id]);
    var c := s.calls[id];
    assert PhaseOk(c);
    if c.phase.Failing? {
      AppendTrail(s.tables, s'.tables, k, s'.tables.sendAudit[|s.tables.sendAudit|]);
      UnknownEnds(TrailOf(s.tables, k), s.tables.operations[k].state, c.phase, c.lost.Some?);
    }
    assert CallTight(s'.tables, s'.calls[id]);
    OnlyThisCall(s, s', id);
  }

  lemma GiveUpKeepsTight(s: State, id: CallId, now: Time)
    requires AllTight(s.tables, s.calls) && HoldersOk(s) && CallOk(s, id) && IdsDistinct(s.tables.operations)
    ensures var s' := GiveUpStep(s, id, now); AllTight(s'.tables, s'.calls)
  {
    GiveUpLedger(s, id, now);
    GivenUpTight(s, GiveUpStep(s, id, now), id);
  }

  /** The other actions change no trail, and move a call only between phases that ask no more of it. */
  lemma QuietLedger(s: State, id: CallId, action: Action)
    requires id in s.calls && PhaseOk(s.calls[id]) && !action.Reserve? && !action.Complete? && !action.GiveUp?
    ensures var s' := ActStep(s, id, action);
            && s'.tables.operations == s.tables.operations && s'.tables.sendAudit == s.tables.sendAudit
            && id in s'.calls && s'.calls == s.calls[id := s'.calls[id]]
            && var c, d := s.calls[id], s'.calls[id];
               && d.plan == c.plan && d.reservation == c.reservation && d.lost == c.lost && d.gaveUp == c.gaveUp
               && (c.reservation.Some? ==>
                     d.phase == c.phase || d.phase == Closed
                     || !(c.phase.Settled? || c.phase.Closed? || c.phase.Failing?))
               && (d.phase.Settled? ==> d.phase == c.phase)
  {
    match action
    case Consume(now) =>
    case Submit =>
    case MarkSent =>
    case _ =>
  }

  lemma TightMoves(history: seq<SendState>, state: SendState, c: Phase, d: Phase, lost: bool, gaveUp: bool)
    requires Tight(history, state, c, lost, gaveUp)
    requires d == c || d == Closed || !(c.Settled? || c.Closed? || c.Failing?)
    ensures Tight(history, state, d, lost, gaveUp)
  {
  }

  lemma QuietKeepsTight(s: State, id: CallId, action: Action)
    requires AllTight(s.tables, s.calls) && CallOk(s, id)
    requires !action.Reserve? && !action.Complete? && !action.GiveUp?
    ensures var s' := ActStep(s, id, action); AllTight(s'.tables, s'.calls)
  {
    var s' := ActStep(s, id, action);
    QuietLedger(s, id, action);
    forall i <- s'.calls ensures CallTight(s'.tables, s'.calls[i]) {
      var c := s.calls[i];
      assert CallTight(s.tables, c);
      if c.reservation.Some? {
        assert TrailOf(s'.tables, KeyOf(c.plan)) == TrailOf(s.tables, KeyOf(c.plan));
        TightMoves(TrailOf(s.tables, KeyOf(c.plan)), s.tables.operations[KeyOf(c.plan)].state, c.phase,
                   s'.calls[i].phase, c.lost.Some?, c.gaveUp.Some?);
      }
    }
  }

  lemma ActKeepsTight(s: State, id: CallId, action: Action)
    requires AllTight(s.tables, s.calls) && HoldersOk(s) && CallOk(s, id)
    requires IdsDistinct(s.tables.operations) && AuditAgrees(s.tables.operations, s.tables.sendAudit)
    ensures AllTight(ActStep(s, id, action).tables, ActStep(s, id, action).calls)
  {
    match action
    case Reserve(operation, checkedAt, now) => ReserveKeepsTight(s, id, operation, checkedAt, now);
    case Complete(fault) => CompleteKeepsTight(s, id, fault);
    case GiveUp(now) => GiveUpKeepsTight(s, id, now);
    case _ => QuietKeepsTight(s, id, action);
  }

  lemma TightStep(s: State, step: Step)
    requires AllTight(s.tables, s.calls) && Sound(s) && Consistent(s.tables)
    ensures AllTight(Do(s, step).tables, Do(s, step).calls)
  {
    match step
    case Write(u, c) => WriteKeepsTight(s, u, c);
    case Enter(id, plan) =>
    case Act(id, action) =>
      if id in s.calls {
        assert CallOk(s, id);
        ActKeepsTight(s, id, action);
      }
  }

  lemma {:induction false} TightAlways(mailboxes: set<Owned<MailboxId>>, steps: seq<Step>)
    ensures var s := Run(Start(mailboxes), steps); AllTight(s.tables, s.calls)
  {
    if steps != [] {
      var s := Run(Start(mailboxes), steps[..|steps| - 1]);
      TightAlways(mailboxes, steps[..|steps| - 1]);
      SoundAlways(mailboxes, steps[..|steps| - 1]);
      ConsistentAlways(mailboxes, steps[..|steps| - 1]);
      TightStep(s, steps[|steps| - 1]);
    }
  }

  /** Some call lost the answer it had already stored for this key. */
  predicate LostFor(log: seq<Event>, k: Owned<SendKey>) {
    exists e <- log :: e.AnswerLost? && e.key == k
  }

  /** Some call recorded its giving up on this key. */
  predicate GivenUpFor(log: seq<Event>, k: Owned<SendKey>) {
    exists e <- log :: e.GaveUp? && e.key == k
  }

  lemma LossIsTheHolders(s: State, k: Owned<SendKey>)
    requires Sound(s) && k in s.holder
    ensures LostFor(s.log, k) <==> s.calls[s.holder[k]].lost.Some?
  {
    var id := s.holder[k];
    assert PositionsOk(id, s.calls[id], s.log);
    if LostFor(s.log, k) {
      var n :| 0 <= n < |s.log| && s.log[n].AnswerLost? && s.log[n].key == k;
      HolderActs(s, n);
    }
    if s.calls[id].lost.Some? {
      assert s.log[s.calls[id].lost.value] == AnswerLost(id, k);
    }
  }

  lemma GivingUpIsTheHolders(s: State, k: Owned<SendKey>)
    requires Sound(s) && k in s.holder
    ensures GivenUpFor(s.log, k) <==> s.calls[s.holder[k]].gaveUp.Some?
  {
    var id := s.holder[k];
    assert PositionsOk(id, s.calls[id], s.log);
    if GivenUpFor(s.log, k) {
      var n :| 0 <= n < |s.log| && s.log[n].GaveUp? && s.log[n].key == k;
      HolderActs(s, n);
    }
    if s.calls[id].gaveUp.Some? {
      assert s.log[s.calls[id].gaveUp.value] == GaveUp(id, k);
    }
  }

  /** An operation's audit trail is exactly `submitting`, or `submitting` and its final state, unless its holder both
      lost an answer it had already stored and recorded its giving up: then, and only then, `unknown` follows the
      final state. */
  lemma TrailIsExact(mailboxes: set<Owned<MailboxId>>, steps: seq<Step>, k: Owned<SendKey>)
    requires k in Run(Start(mailboxes), steps).tables.operations
    ensures var s := Run(Start(mailboxes), steps);
            var state := s.tables.operations[k].state;
            && (Contradicted(TrailOf(s.tables, k), state) <==> LostFor(s.log, k) && GivenUpFor(s.log, k))
            && (Exact(TrailOf(s.tables, k), state) <==> !(LostFor(s.log, k) && GivenUpFor(s.log, k)))
  {
    var s := Run(Start(mailboxes), steps);
    SoundAlways(mailboxes, steps);
    TightAlways(mailboxes, steps);
    var c := s.calls[s.holder[k]];
    LossIsTheHolders(s, k);
    GivingUpIsTheHolders(s, k);
    assert CallTight(s.tables, c) && PhaseOk(c);
  }

  // ----- a settled key is out of its holder's hands -----

  /** An operation that has left `submitting` is never submitted again, whatever runs later. */
  lemma SettledIsNeverSubmitted(
    mailboxes: set<Owned<MailboxId>>, steps: seq<Step>, k: Owned<SendKey>, more: seq<Step>)
    requires var t := Run(Start(mailboxes), steps).tables; k in t.operations && t.operations[k].state != Submitting
    ensures var s := Run(Start(mailboxes), steps);
            |s.log| <= |Run(s, more).log| && NoSubmission(Run(s, more).log, |s.log|, k)
  {
    var s := Run(Start(mailboxes), steps);
    SoundAlways(mailboxes, steps);
    TightAlways(mailboxes, steps);
    assert CallTight(s.tables, s.calls[s.holder[k]]);
    NeverSubmittedAgain(s, more, k);
  }

  /** A holder that crashed leaves its key blocked: nothing submits that key again. */
  lemma AbandonedIsNeverSubmitted(
    mailboxes: set<Owned<MailboxId>>, steps: seq<Step>, id: CallId, more: seq<Step>)
    requires var s := Run(Start(mailboxes), steps); id in s.calls && s.calls[id].reservation.Some?
    ensures var s := Run(Start(mailboxes), steps);
            var crashed := Do(s, Act(id, Crash));
            NoSubmission(Run(crashed, more).log, |s.log|, KeyOf(s.calls[id].plan))
  {
    var s := Run(Start(mailboxes), steps);
    SoundAlways(mailboxes, steps);
    SoundStep(s, Act(id, Crash));
    NeverSubmittedAgain(Do(s, Act(id, Crash)), more, KeyOf(s.calls[id].plan));
  }

  // ----- a holder that is gone never settles its operation -----

  /** The holder's call is closed and its operation row is this one. */
  predicate Stuck(s: State, id: CallId, k: Owned<SendKey>, op: Operation) {
    && id in s.calls && s.calls[id].phase.Closed? && s.calls[id].reservation.Some? && KeyOf(s.calls[id].plan) == k
    && k in s.holder && s.holder[k] == id && k in s.tables.operations && s.tables.operations[k] == op
  }

  /** A complete or give-up comes from a call in the right phase, for that call's own key. */
  lemma SettlesOwnKey(s: State, step: Step)
    ensures var w := CommandOf(s, step);
            w.Some? && (w.value.1.DoComplete? || w.value.1.DoMarkUnknown?) ==>
              && step.Act? && step.id in s.calls
              && Owned(w.value.0, w.value.1.key) == KeyOf(s.calls[step.id].plan)
              && (s.calls[step.id].phase.Answered? || s.calls[step.id].phase.Failing?)
  {
  }

  lemma OnlyHolderSettles(s: State, step: Step, k: Owned<SendKey>)
    requires k in s.tables.operations
    requires step.Act? && step.id in s.calls && KeyOf(s.calls[step.id].plan) == k ==>
               !s.calls[step.id].phase.Answered? && !s.calls[step.id].phase.Failing?
    ensures k in Do(s, step).tables.operations && Do(s, step).tables.operations[k] == s.tables.operations[k]
  {
    var t, t', w := s.tables, Do(s, step).tables, CommandOf(s, step);
    StepIsAtMostOneWrite(s, step);
    if w.Some? {
      SettlesOwnKey(s, step);
      OtherKeysStay(t, w.value.0, w.value.1, k);
    }
  }

  lemma OtherKeysStay(t: Tables, u: UserKey, c: Command, k: Owned<SendKey>)
    requires k in t.operations
    requires c.DoComplete? || c.DoMarkUnknown? ==> Owned(u, c.key) != k
    ensures k in Execute(t, u, c).operations && Execute(t, u, c).operations[k] == t.operations[k]
  {
    match c
    case DoReserve(_, _, _, _, _, _, _, _, _) =>
    case DoComplete(_, _, _, _) =>
    case DoMarkUnknown(_, _, _, _, _) =>
    case _ => OtherWritesKeep(t, u, c);
  }

  /** Before its reservation a call can neither complete nor give up, and only one call has reserved the key. */
  lemma NotSettling(s: State, id: CallId, k: Owned<SendKey>, op: Operation, other: CallId)
    requires HoldersOk(s) && Stuck(s, id, k, op) && other in s.calls && PhaseOk(s.calls[other])
    requires KeyOf(s.calls[other].plan) == k
    ensures !s.calls[other].phase.Answered? && !s.calls[other].phase.Failing?
  {
  }

  lemma ClosedStays(s: State, id: CallId, action: Action)
    requires id in s.calls && s.calls[id].phase.Closed?
    ensures id in ActStep(s, id, action).calls && ActStep(s, id, action).calls[id] == s.calls[id]
  {
    match action
    case Consume(now) =>
    case Reserve(operation, checkedAt, now) =>
    case Submit =>
    case Complete(fault) =>
    case GiveUp(now) =>
    case MarkSent =>
    case _ =>
  }

  lemma ClosedCallStays(s: State, step: Step, id: CallId)
    requires id in s.calls && s.calls[id].phase.Closed? && CallsOk(s.calls, s.log)
    ensures id in Do(s, step).calls && Do(s, step).calls[id] == s.calls[id]
  {
    if step.Act? && step.id in s.calls {
      if step.id == id {
        ClosedStays(s, id, step.action);
      } else {
        assert PhaseOk(s.calls[step.id]) && CallOk(s, step.id);
        ActShape(s, step.id, step.action);
      }
    } else if step.Write? {
      WriteShape(s, step.u, step.command);
    }
  }

  lemma StuckStays(s: State, step: Step, id: CallId, k: Owned<SendKey>, op: Operation)
    requires Sound(s) && Stuck(s, id, k, op)
    ensures Stuck(Do(s, step), id, k, op)
  {
    if step.Act? && step.id in s.calls && KeyOf(s.calls[step.id].plan) == k {
      assert PhaseOk(s.calls[step.id]);
      NotSettling(s, id, k, op, step.id);
    }
    ClosedCallStays(s, step, id);
    OnlyHolderSettles(s, step, k);
    HolderStays(s, step, k);
  }

  lemma HolderStays(s: State, step: Step, k: Owned<SendKey>)
    requires Sound(s) && k in s.holder
    ensures k in Do(s, step).holder && Do(s, step).holder[k] == s.holder[k]
  {
    if step.Act? && step.id in s.calls {
      assert CallOk(s, step.id);
      ActShape(s, step.id, step.action);
    } else if step.Write? {
      WriteShape(s, step.u, step.command);
    }
  }

  /** And an operation that was still `submitting` then stays so for good, as does any other row of a closed call. */
  lemma {:induction false} AbandonedStaysAsItIs(s: State, more: seq<Step>, id: CallId, k: Owned<SendKey>, op: Operation)
    requires Sound(s) && Stuck(s, id, k, op)
    ensures Sound(Run(s, more)) && Stuck(Run(s, more), id, k, op)
  {
    if more != [] {
      var mid := Run(s, more[..|more| - 1]);
      AbandonedStaysAsItIs(s, more[..|more| - 1], id, k, op);
      SoundStep(mid, more[|more| - 1]);
      StuckStays(mid, more[|more| - 1], id, k, op);
    }
  }
}
