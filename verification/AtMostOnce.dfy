/** At most one transport.send per user and idempotency key, over every interleaving, fault and crash. */
module AtMostOnce {
  import opened MailTypes
  import opened Ledger
  import opened LedgerInvariants
  import opened SendProtocol

  /** Which positions a call in this phase must, or must not, have recorded. */
  predicate PhaseOk(c: Call) {
    && (c.submission.Some? ==> c.reservation.Some?)
    && (c.lost.Some? ==> c.reservation.Some? && (c.phase.Failing? || c.phase.Closed?))
    && (c.gaveUp.Some? ==> c.reservation.Some? && c.phase.Closed?)
    && (c.answer.Some? ==> c.submission.Some?)
    && (c.reservation.Some? && c.plan.origin.FromDraft? ==> c.consumption.Some?)
    && match c.phase
       case Planned => c.reservation.None? && c.consumption.None?
       case Confirmed => c.reservation.None? && c.consumption.Some? && c.plan.origin.FromDraft?
       case Holding => c.reservation.Some? && c.submission.None?
       case Awaiting => c.submission.Some? && c.answer.None?
       case Answered(receipt) => c.submission.Some? && c.answer == Some(receipt)
       case Failing(_) => c.reservation.Some?
       case _ => true
  }

  /** The recorded positions point at this call's own events, in protocol order. */
  predicate PositionsOk(id: CallId, c: Call, log: seq<Event>) {
    && (c.consumption.Some? ==>
          var j := c.consumption.value;
          && j < |log| && log[j].Consumed? && log[j].call == id && c.plan.origin.FromDraft?
          && log[j] == Consumed(id, c.plan.user, c.plan.origin.draft, c.plan.origin.confirmation, c.plan.origin.version,
                                HashPayload(c.plan.payload), c.plan.view.version, log[j].at))
    && (c.reservation.Some? ==>
          var r := c.reservation.value;
          && r < |log| && log[r].Reserved? && log[r].call == id && log[r].key == KeyOf(c.plan)
          && log[r].hash == HashPayload(c.plan.payload) && (c.consumption.Some? ==> c.consumption.value < r))
    && (c.submission.Some? ==>
          var i := c.submission.value;
          && i < |log| && log[i] == Submitted(id, KeyOf(c.plan), c.plan.payload)
          && c.reservation.Some? && c.reservation.value < i)
    && (c.lost.Some? ==> c.lost.value < |log| && log[c.lost.value] == AnswerLost(id, KeyOf(c.plan)))
    && (c.gaveUp.Some? ==> c.gaveUp.value < |log| && log[c.gaveUp.value] == GaveUp(id, KeyOf(c.plan)))
  }

  /** Every consumption, reservation and submission in the log is the one its call recorded. */
  predicate EventOk(n: nat, e: Event, calls: map<CallId, Call>) {
    match e
    case Consumed(id, _, _, _, _, _, _, _) => id in calls && calls[id].consumption == Some(n)
    case Reserved(id, _, _, _) => id in calls && calls[id].reservation == Some(n)
    case Submitted(id, _, _) => id in calls && calls[id].submission == Some(n)
    case AnswerLost(id, key) => id in calls && calls[id].lost == Some(n) && KeyOf(calls[id].plan) == key
    case GaveUp(id, key) => id in calls && calls[id].gaveUp == Some(n) && KeyOf(calls[id].plan) == key
    case _ => true
  }

  predicate CallsOk(calls: map<CallId, Call>, log: seq<Event>) {
    forall id <- calls :: PhaseOk(calls[id]) && PositionsOk(id, calls[id], log)
  }

  predicate LogOk(calls: map<CallId, Call>, log: seq<Event>) {
    forall n: nat | n < |log| :: EventAt(n, log, calls)
  }

  predicate EventAt(n: nat, log: seq<Event>, calls: map<CallId, Call>)
    requires n < |log|
  {
    EventOk(n, log[n], calls)
  }

  /** A key has an operation row exactly when some call reserved it, and that call is unique. */
  predicate HoldersOk(s: State) {
    && s.holder.Keys == s.tables.operations.Keys
    && (forall k <- s.holder ::
          s.holder[k] in s.calls && s.calls[s.holder[k]].reservation.Some? && KeyOf(s.calls[s.holder[k]].plan) == k)
    && forall id <- s.calls | s.calls[id].reservation.Some? ::
         KeyOf(s.calls[id].plan) in s.holder && s.holder[KeyOf(s.calls[id].plan)] == id
  }

  ghost predicate Sound(s: State) {
    CallsOk(s.calls, s.log) && LogOk(s.calls, s.log) && HoldersOk(s)
  }

  /** A call keeps its plan and its answer and never forgets or moves a position. */
  predicate Grows(c: Call, d: Call) {
    && d.plan == c.plan && (c.lost.Some? ==> d.lost == c.lost) && (c.gaveUp.Some? ==> d.gaveUp == c.gaveUp)
    && (c.answer.Some? ==> d.answer == c.answer)
    && (c.consumption.Some? ==> d.consumption == c.consumption)
    && (c.reservation.Some? ==> d.reservation == c.reservation)
    && (c.submission.Some? ==> d.submission == c.submission)
  }

  predicate Extends(log: seq<Event>, added: Option<Event>, log': seq<Event>) {
    log' == if added.Some? then log + [added.value] else log
  }

  lemma PositionsStay(id: CallId, c: Call, log: seq<Event>, added: Option<Event>, log': seq<Event>)
    requires PositionsOk(id, c, log) && Extends(log, added, log')
    ensures PositionsOk(id, c, log')
  {
  }

  lemma EventsStay(
    calls: map<CallId, Call>, log: seq<Event>, id: CallId, d: Call, added: Option<Event>, log': seq<Event>)
    requires LogOk(calls, log) && Extends(log, added, log')
    requires id in calls ==> Grows(calls[id], d)
    requires added.Some? ==> EventOk(|log|, added.value, calls[id := d])
    ensures LogOk(calls[id := d], log')
  {
    var calls' := calls[id := d];
    forall n: nat | n < |log'| ensures EventAt(n, log', calls') {
      assert n < |log| ==> EventAt(n, log, calls) && log'[n] == log[n];
    }
  }

  lemma UpdateKeepsLog(
    calls: map<CallId, Call>, log: seq<Event>, id: CallId, d: Call, added: Option<Event>, log': seq<Event>)
    requires CallsOk(calls, log) && LogOk(calls, log) && Extends(log, added, log')
    requires id in calls ==> Grows(calls[id], d)
    requires PhaseOk(d) && PositionsOk(id, d, log')
    requires added.Some? ==> EventOk(|log|, added.value, calls[id := d])
    ensures CallsOk(calls[id := d], log') && LogOk(calls[id := d], log')
  {
    var calls' := calls[id := d];
    forall i <- calls' ensures PhaseOk(calls'[i]) && PositionsOk(i, calls'[i], log') {
      if i != id {
        assert PositionsOk(i, calls[i], log);
        PositionsStay(i, calls[i], log, added, log');
      }
    }
    EventsStay(calls, log, id, d, added, log');
  }

  lemma WriteShape(s: State, u: UserKey, c: Command)
    ensures var s' := WriteStep(s, u, c);
            && s'.calls == s.calls && s'.holder == s.holder && s'.tables.operations == s.tables.operations
            && (s'.log == s.log || (|s'.log| == |s.log| + 1 && s'.log[..|s.log|] == s.log
                                    && (s'.log[|s.log|].Edited? || s'.log[|s.log|].PolicyChanged?
                                        || s'.log[|s.log|].Prepared?)))
  {
    if WriteStep(s, u, c) != s {
      OtherWritesKeep(s.tables, u, c);
    }
  }

  lemma WriteKeepsSound(s: State, u: UserKey, c: Command)
    requires Sound(s)
    ensures Sound(WriteStep(s, u, c))
  {
    var s' := WriteStep(s, u, c);
    WriteShape(s, u, c);
    forall n: nat | n < |s'.log| ensures EventAt(n, s'.log, s.calls) {
      assert n < |s.log| ==> EventAt(n, s.log, s.calls) && s'.log[n] == s.log[n];
    }
    assert CallsOk(s.calls, s'.log);
  }

  /** What one action of one call may do to the calls, the log and the holders. */
  predicate Stepped(s: State, s': State, id: CallId) {
    && id in s.calls && id in s'.calls && s'.calls == s.calls[id := s'.calls[id]]
    && Grows(s.calls[id], s'.calls[id]) && PhaseOk(s'.calls[id]) && PositionsOk(id, s'.calls[id], s'.log)
    && (s'.log == s.log || (&& |s'.log| == |s.log| + 1 && s'.log == s.log + [s'.log[|s.log|]]
                            && EventOk(|s.log|, s'.log[|s.log|], s'.calls)))
    && HolderMoves(s, s', id)
  }

  /** Reserving adds the key and its holder; nothing else touches either. */
  predicate HolderMoves(s: State, s': State, id: CallId)
    requires id in s.calls && id in s'.calls
  {
    var k := KeyOf(s.calls[id].plan);
    if s'.calls[id].reservation == s.calls[id].reservation then
      s'.tables.operations.Keys == s.tables.operations.Keys && s'.holder == s.holder
    else
      && k !in s.tables.operations && s'.tables.operations.Keys == s.tables.operations.Keys + {k}
      && s'.holder == s.holder[k := id]
  }

  predicate CallOk(s: State, id: CallId) {
    id in s.calls && PhaseOk(s.calls[id]) && PositionsOk(id, s.calls[id], s.log)
  }

  /** A change of phase, with or without a rewritten operation row. */
  lemma PhaseOnlyShape(s: State, id: CallId, t: Tables, d: Call)
    requires CallOk(s, id) && PhaseOk(d) && d.(phase := s.calls[id].phase, answer := s.calls[id].answer) == s.calls[id]
    requires s.calls[id].answer.Some? ==> d.answer == s.calls[id].answer
    requires t.operations.Keys == s.tables.operations.Keys
    ensures Stepped(s, s.(tables := t, calls := s.calls[id := d]), id)
  {
  }

  lemma StutterShape(s: State, id: CallId)
    requires CallOk(s, id)
    ensures Stepped(s, s, id)
  {
    assert s.calls == s.calls[id := s.calls[id]];
  }

  lemma ConsumeShape(s: State, id: CallId, now: Time)
    requires CallOk(s, id)
    ensures Stepped(s, ConsumeStep(s, id, now), id)
  {
  }

  lemma ReserveShape(s: State, id: CallId, operation: OperationId, checkedAt: Time, now: Time)
    requires CallOk(s, id)
    ensures Stepped(s, ReserveStep(s, id, operation, checkedAt, now), id)
  {
    var c := s.calls[id];
    var tx := Attempt(s, c.plan, operation, checkedAt, now);
    if tx.result.Ok? && tx.result.value.Fresh? {
      assert KeyOf(c.plan) !in s.tables.operations;
      assert tx.tables.operations.Keys == s.tables.operations.Keys + {KeyOf(c.plan)};
    }
  }

  lemma SubmitShape(s: State, id: CallId)
    requires CallOk(s, id)
    ensures Stepped(s, SubmitStep(s, id), id)
  {
  }

  lemma LostShape(s: State, id: CallId, t: Tables, cause: ErrorCode)
    requires CallOk(s, id) && s.calls[id].phase.Answered? && t.operations.Keys == s.tables.operations.Keys
    ensures var d := s.calls[id].(phase := Failing(cause), lost := Some(|s.log|));
            Stepped(s, s.(tables := t, calls := s.calls[id := d], log := s.log + [AnswerLost(id, KeyOf(d.plan))]), id)
  {
  }

  lemma GaveUpShape(s: State, id: CallId, t: Tables)
    requires CallOk(s, id) && s.calls[id].phase.Failing? && t.operations.Keys == s.tables.operations.Keys
    ensures var d := s.calls[id].(phase := Closed, gaveUp := Some(|s.log|));
            Stepped(s, s.(tables := t, calls := s.calls[id := d], log := s.log + [GaveUp(id, KeyOf(d.plan))]), id)
  {
  }

  lemma MarkedShape(s: State, id: CallId, t: Tables, u: UserKey, d: DraftId)
    requires CallOk(s, id) && s.calls[id].phase.Settled? && t.operations.Keys == s.tables.operations.Keys
    ensures var c := s.calls[id].(phase := Closed);
            Stepped(s, s.(tables := t, calls := s.calls[id := c], log := s.log + [MarkedSent(id, u, d)]), id)
  {
  }

  lemma CompleteShape(s: State, id: CallId, fault: CompletionFault)
    requires CallOk(s, id)
    ensures Stepped(s, CompleteStep(s, id, fault), id)
  {
    var c := s.calls[id];
    StutterShape(s, id);
    if c.phase.Answered? {
      var v := c.plan.validation;
      var tx := CompleteSendOperation(s.tables, c.plan.user, KeyOf(c.plan).id, c.phase.receipt, v.recipients,
                                      v.externals);
      CompletionKeepsKeys(s.tables, c.plan.user, KeyOf(c.plan).id, c.phase.receipt, v.recipients, v.externals);
      if fault.RolledBack? {
        PhaseOnlyShape(s, id, s.tables, c.(phase := Failing(fault.cause)));
      } else if tx.result.Err? {
        PhaseOnlyShape(s, id, s.tables, c.(phase := Failing(tx.result.error)));
      } else if fault.NoFault? {
        PhaseOnlyShape(s, id, tx.tables, c.(phase := Settled(c.phase.receipt)));
      } else {
        LostShape(s, id, tx.tables, fault.cause);
      }
    }
  }

  lemma GiveUpShape(s: State, id: CallId, now: Time)
    requires CallOk(s, id)
    ensures Stepped(s, GiveUpStep(s, id, now), id)
  {
    StutterShape(s, id);
    if s.calls[id].phase.Failing? {
      var t := GiveUpStep(s, id, now).tables;
      assert t.operations.Keys == s.tables.operations.Keys;
      GaveUpShape(s, id, t);
    }
  }

  lemma MarkSentShape(s: State, id: CallId)
    requires CallOk(s, id)
    ensures Stepped(s, MarkSentStep(s, id), id)
  {
    StutterShape(s, id);
    var s', p := MarkSentStep(s, id), s.calls[id].plan;
    if s'.log != s.log {
      MarkedShape(s, id, s'.tables, p.user, p.origin.draft);
    } else if s' != s {
      PhaseOnlyShape(s, id, s'.tables, s.calls[id].(phase := Closed));
    }
  }

  lemma AnswerShape(s: State, id: CallId, action: Action)
    requires CallOk(s, id) && (action.Answer? || action.Throw? || action.Crash?)
    ensures Stepped(s, ActStep(s, id, action), id)
  {
    var c := s.calls[id];
    StutterShape(s, id);
    match action
    case Answer(receipt) =>
      if c.phase == Awaiting {
        PhaseOnlyShape(s, id, s.tables, c.(phase := Answered(receipt), answer := Some(receipt)));
      }
    case Throw(code) =>
      if c.phase == Holding || c.phase == Awaiting {
        PhaseOnlyShape(s, id, s.tables, c.(phase := Failing(code)));
      }
    case _ => PhaseOnlyShape(s, id, s.tables, c.(phase := Closed));
  }

  lemma ActShape(s: State, id: CallId, action: Action)
    requires CallOk(s, id)
    ensures Stepped(s, ActStep(s, id, action), id)
  {
    match action
    case Consume(now) => ConsumeShape(s, id, now);
    case Reserve(operation, checkedAt, now) => ReserveShape(s, id, operation, checkedAt, now);
    case Submit => SubmitShape(s, id);
    case Complete(fault) => CompleteShape(s, id, fault);
    case GiveUp(now) => GiveUpShape(s, id, now);
    case MarkSent => MarkSentShape(s, id);
    case _ => AnswerShape(s, id, action);
  }

  lemma SteppedKeepsSound(s: State, s': State, id: CallId)
    requires Sound(s) && Stepped(s, s', id)
    ensures Sound(s')
  {
    var added := if s'.log == s.log then None else Some(s'.log[|s.log|]);
    UpdateKeepsLog(s.calls, s.log, id, s'.calls[id], added, s'.log);
    HoldersFollow(s, s', id);
  }

  lemma HoldersFollow(s: State, s': State, id: CallId)
    requires HoldersOk(s) && id in s.calls && id in s'.calls && s'.calls == s.calls[id := s'.calls[id]]
    requires Grows(s.calls[id], s'.calls[id]) && HolderMoves(s, s', id)
    ensures HoldersOk(s')
  {
    HoldersStay(s, s', id);
    ReservedHold(s, s', id);
  }

  lemma HoldersStay(s: State, s': State, id: CallId)
    requires HoldersOk(s) && id in s.calls && id in s'.calls && s'.calls == s.calls[id := s'.calls[id]]
    requires Grows(s.calls[id], s'.calls[id]) && HolderMoves(s, s', id)
    ensures s'.holder.Keys == s'.tables.operations.Keys
    ensures forall k <- s'.holder ::
              && s'.holder[k] in s'.calls && s'.calls[s'.holder[k]].reservation.Some?
              && KeyOf(s'.calls[s'.holder[k]].plan) == k
  {
    forall k <- s'.holder
      ensures s'.holder[k] in s'.calls && s'.calls[s'.holder[k]].reservation.Some?
              && KeyOf(s'.calls[s'.holder[k]].plan) == k
    {
      assert k in s.holder || k == KeyOf(s.calls[id].plan);
    }
  }

  lemma ReservedHold(s: State, s': State, id: CallId)
    requires HoldersOk(s) && id in s.calls && id in s'.calls && s'.calls == s.calls[id := s'.calls[id]]
    requires Grows(s.calls[id], s'.calls[id]) && HolderMoves(s, s', id)
    ensures forall c <- s'.calls | s'.calls[c].reservation.Some? ::
              KeyOf(s'.calls[c].plan) in s'.holder && s'.holder[KeyOf(s'.calls[c].plan)] == c
  {
  }

  lemma ActKeepsSound(s: State, id: CallId, action: Action)
    requires Sound(s) && id in s.calls
    ensures Sound(ActStep(s, id, action))
  {
    assert CallOk(s, id);
    ActShape(s, id, action);
    SteppedKeepsSound(s, ActStep(s, id, action), id);
  }

  lemma SoundStep(s: State, step: Step)
    requires Sound(s)
    ensures Sound(Do(s, step))
  {
    match step
    case Write(u, c) => WriteKeepsSound(s, u, c);
    case Enter(id, plan) =>
      if Do(s, step) != s {
        UpdateKeepsLog(s.calls, s.log, id, Entered(plan), None, s.log);
      }
    case Act(id, action) =>
      if id in s.calls {
        ActKeepsSound(s, id, action);
      }
  }

  lemma {:induction false} SoundAlways(mailboxes: set<Owned<MailboxId>>, steps: seq<Step>)
    ensures Sound(Run(Start(mailboxes), steps))
  {
    if steps != [] {
      SoundAlways(mailboxes, steps[..|steps| - 1]);
      SoundStep(Run(Start(mailboxes), steps[..|steps| - 1]), steps[|steps| - 1]);
    }
  }

  /** The events that a reservation makes possible. */
  predicate UnderReservation(e: Event) {
    e.Reserved? || e.Submitted? || e.AnswerLost? || e.GaveUp?
  }

  function PositionOf(c: Call, e: Event): Option<nat>
    requires UnderReservation(e)
  {
    if e.Reserved? then c.reservation
    else if e.Submitted? then c.submission
    else if e.AnswerLost? then c.lost
    else c.gaveUp
  }

  /** Each of them was caused by the one call that holds its key, and is the one that call recorded. */
  lemma HolderActs(s: State, n: nat)
    requires Sound(s) && n < |s.log| && UnderReservation(s.log[n])
    ensures var id, k := s.log[n].call, s.log[n].key;
            && id in s.calls && KeyOf(s.calls[id].plan) == k && k in s.holder && s.holder[k] == id
            && PositionOf(s.calls[id], s.log[n]) == Some(n)
  {
    assert EventAt(n, s.log, s.calls);
    assert PhaseOk(s.calls[s.log[n].call]) && PositionsOk(s.log[n].call, s.calls[s.log[n].call], s.log);
  }

  /** The transport is invoked at most once per user and idempotency key, and only by the call
      that holds the key's single reservation. */
  lemma SubmittedAtMostOnce(mailboxes: set<Owned<MailboxId>>, steps: seq<Step>)
    ensures var log := Run(Start(mailboxes), steps).log;
            && (forall i, j | 0 <= i < |log| && 0 <= j < |log| && log[i].Submitted? && log[j].Submitted?
                              && log[i].key == log[j].key :: i == j)
            && (forall i, j | 0 <= i < |log| && 0 <= j < |log| && log[i].Reserved? && log[j].Reserved?
                              && log[i].key == log[j].key :: i == j)
            && (forall i :: 0 <= i < |log| && log[i].Submitted? ==>
                  exists r :: 0 <= r < i && log[r].Reserved? && log[r].call == log[i].call && log[r].key == log[i].key
                              && log[r].hash == HashPayload(log[i].payload))
  {
    var s := Run(Start(mailboxes), steps);
    var log := s.log;
    SoundAlways(mailboxes, steps);
    forall i | 0 <= i < |log| && (log[i].Submitted? || log[i].Reserved?)
      ensures log[i].key in s.holder && s.holder[log[i].key] == log[i].call && log[i].call in s.calls
      ensures PositionOf(s.calls[log[i].call], log[i]) == Some(i)
    {
      HolderActs(s, i);
    }
    forall i | 0 <= i < |log| && log[i].Submitted?
      ensures exists r :: 0 <= r < i && log[r].Reserved? && log[r].call == log[i].call && log[r].key == log[i].key
                          && log[r].hash == HashPayload(log[i].payload)
    {
      var c := s.calls[log[i].call];
      assert PositionsOk(log[i].call, c, log);
      var r := c.reservation.value;
      assert log[r].Reserved?;
    }
  }

  // ----- nothing is sent for a key that has left its holder's hands -----

  /** The holder of this key has called the transport, failed, settled or crashed. */
  predicate Past(s: State, k: Owned<SendKey>) {
    k in s.holder && s.holder[k] in s.calls && s.calls[s.holder[k]].reservation.Some?
    && KeyOf(s.calls[s.holder[k]].plan) == k && s.calls[s.holder[k]].phase != Holding
  }

  predicate NoSubmission(log: seq<Event>, from: nat, k: Owned<SendKey>) {
    forall n | from <= n < |log| :: !(log[n].Submitted? && log[n].key == k)
  }

  /** Only a call in phase Holding submits, and a call gets there only from before its reservation. */
  lemma HoldingSubmits(s: State, id: CallId, action: Action)
    requires id in s.calls
    ensures var s' := ActStep(s, id, action);
            && (s'.log == s.log || |s'.log| == |s.log| + 1)
            && (s'.log != s.log && s'.log[|s.log|].Submitted? ==>
                  s.calls[id].phase == Holding && s'.log[|s.log|].key == KeyOf(s.calls[id].plan))
            && (s'.calls[id].phase == Holding ==>
                  s.calls[id].phase == Holding || s.calls[id].phase == Planned || s.calls[id].phase == Confirmed)
  {
    match action
    case Consume(now) =>
    case Reserve(operation, checkedAt, now) =>
    case Submit =>
    case Complete(fault) =>
    case GiveUp(now) =>
    case MarkSent =>
    case _ =>
  }

  /** What a step may do with a key whose holder is past its reservation. */
  predicate LeavesAlone(s: State, s': State, k: Owned<SendKey>) {
    Past(s', k) && s.log <= s'.log && NoSubmission(s'.log, |s.log|, k)
  }

  lemma HolderIsPast(s: State, id: CallId, k: Owned<SendKey>)
    requires HoldersOk(s) && Past(s, k) && id in s.calls && PhaseOk(s.calls[id]) && s.calls[id].phase == Holding
    ensures KeyOf(s.calls[id].plan) != k
  {
  }

  lemma SteppedStaysPast(s: State, s': State, id: CallId, k: Owned<SendKey>)
    requires s.holder.Keys == s.tables.operations.Keys && Past(s, k) && Stepped(s, s', id) && PhaseOk(s.calls[id])
    requires s'.calls[id].phase == Holding ==>
               s.calls[id].phase == Holding || s.calls[id].phase == Planned || s.calls[id].phase == Confirmed
    ensures Past(s', k) && s.log <= s'.log
  {
    assert s'.holder[k] == s.holder[k];
  }

  /** The log grows by one event at most, and that is no submission of k. */
  predicate QuietLog(log: seq<Event>, log': seq<Event>, k: Owned<SendKey>) {
    log' == log || (|log'| == |log| + 1 && log'[..|log|] == log && !(log'[|log|].Submitted? && log'[|log|].key == k))
  }

  lemma QuietIsAlone(s: State, s': State, k: Owned<SendKey>)
    requires Past(s', k) && QuietLog(s.log, s'.log, k)
    ensures LeavesAlone(s, s', k)
  {
  }

  lemma ActLeavesAlone(s: State, id: CallId, action: Action, k: Owned<SendKey>)
    requires CallOk(s, id) && HoldersOk(s) && Past(s, k)
    ensures Past(ActStep(s, id, action), k) && QuietLog(s.log, ActStep(s, id, action).log, k)
  {
    ActShape(s, id, action);
    HoldingSubmits(s, id, action);
    SteppedStaysPast(s, ActStep(s, id, action), id, k);
    if s.calls[id].phase == Holding {
      HolderIsPast(s, id, k);
    }
  }

  lemma WriteLeavesAlone(s: State, u: UserKey, c: Command, k: Owned<SendKey>)
    requires Past(s, k)
    ensures Past(WriteStep(s, u, c), k) && QuietLog(s.log, WriteStep(s, u, c).log, k)
  {
    WriteShape(s, u, c);
  }

  lemma EnterLeavesAlone(s: State, id: CallId, plan: Plan, k: Owned<SendKey>)
    requires Past(s, k)
    ensures Past(Do(s, Enter(id, plan)), k) && Do(s, Enter(id, plan)).log == s.log
  {
  }

  lemma PastStays(s: State, step: Step, k: Owned<SendKey>)
    requires Sound(s) && Past(s, k)
    ensures LeavesAlone(s, Do(s, step), k)
  {
    match step {
      case Write(u, c) => WriteLeavesAlone(s, u, c, k);
      case Enter(id, plan) => EnterLeavesAlone(s, id, plan, k);
      case Act(id, action) =>
        if id in s.calls {
          assert CallOk(s, id);
          ActLeavesAlone(s, id, action, k);
        }
    }
    QuietIsAlone(s, Do(s, step), k);
  }

  lemma AloneTwice(s: State, mid: State, s': State, k: Owned<SendKey>)
    requires LeavesAlone(s, mid, k) && LeavesAlone(mid, s', k)
    ensures LeavesAlone(s, s', k)
  {
    forall n | |s.log| <= n < |s'.log| ensures !(s'.log[n].Submitted? && s'.log[n].key == k) {
      if n < |mid.log| {
        assert s'.log[n] == mid.log[n];
      }
    }
  }

  /** Once the holder is past its reservation, no continuation of the run ever submits that key. */
  lemma {:induction false} NeverSubmittedAgain(s: State, more: seq<Step>, k: Owned<SendKey>)
    requires Sound(s) && Past(s, k)
    ensures Sound(Run(s, more)) && LeavesAlone(s, Run(s, more), k)
  {
    if more != [] {
      var mid := Run(s, more[..|more| - 1]);
      NeverSubmittedAgain(s, more[..|more| - 1], k);
      SoundStep(mid, more[|more| - 1]);
      PastStays(mid, more[|more| - 1], k);
      AloneTwice(s, mid, Run(s, more), k);
    }
  }
}
