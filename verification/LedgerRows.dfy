/** What the rows of the ledger say for themselves, after any store calls and over protocol runs. */
module LedgerRows {
  import opened MailTypes
  import opened SendPolicy
  import opened Ledger
  import opened LedgerInvariants
  import opened SendProtocol
  import opened AtMostOnce
  import opened ProtocolLedger
  import D = Deliveries
  import L = DraftLifecycle
  import R = RateWindow

  // ----- single rows, over store runs -----

  /** An error code is recorded exactly for an uncertain outcome; a row in flight has not been touched; a settled one
      has the state that its receipt's recipients say and the time of its receipt. */
  predicate OperationMeans(op: Operation, receipt: Option<Receipt>) {
    && (op.errorCode.Some? <==> op.state == Unknown)
    && (op.state == Submitting ==> op.updatedAt == op.createdAt)
    && (receipt.Some? ==>
          var r := receipt.value;
          && (op.state == SmtpAccepted <==> r.accepted != [] && r.rejected == [])
          && (op.state == PartialRejected <==> r.accepted != [] && r.rejected != [])
          && (op.state == Rejected <==> r.accepted == []) && op.updatedAt == r.sentAt)
  }

  /** Only preparing is no operation and has no state; what passed has no reason, and what did not has one. */
  predicate AuditMeans(e: AuditEvent) {
    && (e.operation.None? <==> e.action == ConfirmationPrepared)
    && (e.state.None? <==> e.action == ConfirmationPrepared)
    && (e.action == SendSubmitting <==> e.state == Some(Submitting))
    && (e.action == OutcomeUnknown <==> e.state == Some(Unknown))
    && (!e.passed <==> e.state == Some(Rejected) || e.state == Some(Unknown))
    && (e.reason.Some? <==> !e.passed) && (e.state == Some(Rejected) ==> e.reason == Some(SmtpRejected))
  }

  /** A draft names its sending exactly when it is sent, and stays with its mailbox. */
  predicate DraftMeans(row: Draft) {
    && (row.status == Editable <==> row.sentAt.None?) && (row.status == Editable <==> row.messageId.None?)
    && row.mailbox == row.payload.mailbox && row.version >= 1
  }

  function ReceiptOf(t: Tables, k: Owned<SendKey>): Option<Receipt> {
    if k in t.receipts then Some(t.receipts[k].receipt) else None
  }

  predicate RowsMean(t: Tables) {
    && (forall k <- t.operations :: OperationMeans(t.operations[k], ReceiptOf(t, k)))
    && (forall e <- t.sendAudit :: AuditMeans(e))
    && (forall k <- t.drafts :: DraftMeans(t.drafts[k]))
  }

  lemma DraftWritesKeep(t: Tables, u: UserKey, c: Command)
    requires RowsMean(t) && !WritesLedger(c) && !c.DoPrepare?
    ensures RowsMean(Execute(t, u, c))
  {
    match c
    case _ =>
  }

  /** One operation is written, with or without its receipt, and one audit row added. */
  lemma SettlingKeeps(t: Tables, t': Tables, k: Owned<SendKey>)
    requires RowsMean(t) && k in t'.operations && t'.operations == t.operations[k := t'.operations[k]]
    requires forall l <- t.operations | l != k :: ReceiptOf(t', l) == ReceiptOf(t, l)
    requires OperationMeans(t'.operations[k], ReceiptOf(t', k))
    requires |t'.sendAudit| == |t.sendAudit| + 1 && t'.sendAudit[..|t.sendAudit|] == t.sendAudit
    requires AuditMeans(t'.sendAudit[|t.sendAudit|]) && t'.drafts == t.drafts
    ensures RowsMean(t')
  {
    forall e <- t'.sendAudit ensures AuditMeans(e) {
      assert e in t.sendAudit || e == t'.sendAudit[|t.sendAudit|];
    }
  }

  lemma ReserveKeeps(t: Tables, u: UserKey, c: Command)
    requires RowsMean(t) && ReceiptsAgree(t.operations, t.receipts) && c.DoReserve?
    ensures RowsMean(Execute(t, u, c))
  {
    var t' := Execute(t, u, c);
    if t' != t {
      SettlingKeeps(t, t', Owned(u, c.key));
    }
  }

  lemma CompleteKeeps(t: Tables, u: UserKey, c: Command)
    requires RowsMean(t) && c.DoComplete?
    ensures RowsMean(Execute(t, u, c))
  {
    var t' := Execute(t, u, c);
    if t' != t {
      SettlingKeeps(t, t', Owned(u, c.key));
    }
  }

  lemma MarkUnknownKeeps(t: Tables, u: UserKey, c: Command)
    requires RowsMean(t) && ReceiptsAgree(t.operations, t.receipts) && c.DoMarkUnknown?
    ensures RowsMean(Execute(t, u, c))
  {
    if Owned(u, c.key) in t.operations {
      ReceiptsCounts(t.operations, t.receipts, Owned(u, c.key));
      SettlingKeeps(t, Execute(t, u, c), Owned(u, c.key));
    }
  }

  lemma PrepareKeeps(t: Tables, u: UserKey, c: Command)
    requires RowsMean(t) && c.DoPrepare?
    ensures RowsMean(Execute(t, u, c))
  {
  }

  /** After any sequence of store calls every row says what it means. */
  lemma {:induction false} RowsMeanWhatTheySay(mailboxes: set<Owned<MailboxId>>, commands: seq<(UserKey, Command)>)
    ensures RowsMean(ExecuteAll(EmptyTables(mailboxes), commands))
  {
    if commands != [] {
      var init, n := commands[..|commands| - 1], |commands| - 1;
      RowsMeanWhatTheySay(mailboxes, init);
      LedgerIsConsistent(mailboxes, init);
      var t, u := ExecuteAll(EmptyTables(mailboxes), init), commands[n].0;
      match commands[n].1
      case DoReserve(_, _, _, _, _, _, _, _, _) => ReserveKeeps(t, u, commands[n].1);
      case DoComplete(_, _, _, _) => CompleteKeeps(t, u, commands[n].1);
      case DoMarkUnknown(_, _, _, _, _) => MarkUnknownKeeps(t, u, commands[n].1);
      case DoPrepare(_, _, _, _, _, _) => PrepareKeeps(t, u, commands[n].1);
      case _ => DraftWritesKeep(t, u, commands[n].1);
    }
  }

  // ----- recipient counts, over protocol runs -----

  /** The audit row is about the operation under this key, and counts the recipients of its holder's text. */
  predicate CountsFor(e: AuditEvent, s: State, k: Owned<SendKey>) {
    && k in s.tables.operations && k.user == e.user && e.operation == Some(s.tables.operations[k].id)
    && k in s.holder && s.holder[k] in s.calls
    && var p := s.calls[s.holder[k]].plan;
       && p.own.Some? && e.recipients == |p.payload.to| + |p.payload.cc| + |p.payload.bcc|
       && e.externals == |Outsiders(p.payload.to + p.payload.cc + p.payload.bcc, p.own.value)|
  }

  ghost predicate CountsTrue(s: State) {
    forall e <- s.tables.sendAudit | e.operation.Some? :: exists k :: CountsFor(e, s, k)
  }

  lemma PlanCounts(p: Plan)
    requires Admissible(p)
    ensures p.own.Some?
    ensures p.validation.recipients == |p.payload.to| + |p.payload.cc| + |p.payload.bcc|
    ensures p.validation.externals == |Outsiders(p.payload.to + p.payload.cc + p.payload.bcc, p.own.value)|
  {
    if p.origin.Direct? {
      ValidationIsTrue(p.own, "direct", 0, p.payload, p.view, p.usage);
    } else {
      ValidationIsTrue(p.own, p.origin.draft, p.origin.version, p.payload, p.view, p.usage);
    }
  }

  /** Operations keep their ids. */
  predicate IdsStay(t: Tables, t': Tables) {
    forall k <- t.operations :: k in t'.operations && t'.operations[k].id == t.operations[k].id
  }

  lemma CountsStay(e: AuditEvent, s: State, s': State, k: Owned<SendKey>)
    requires CountsFor(e, s, k) && D.Remembers(s, s') && IdsStay(s.tables, s'.tables)
    ensures CountsFor(e, s', k)
  {
  }

  /** Besides the rows there were, the write may add one, for the operation under this key and with these counts. */
  predicate AuditsOwn(t: Tables, t': Tables, k: Owned<SendKey>, recipients: nat, externals: nat) {
    && IdsStay(t, t')
    && forall e <- t'.sendAudit | e !in t.sendAudit ::
         e.operation.Some? ==>
           && k in t'.operations && e.user == k.user && e.operation == Some(t'.operations[k].id)
           && e.recipients == recipients && e.externals == externals
  }

  lemma ReserveAudits(t: Tables, u: UserKey, c: Command)
    requires c.DoReserve?
    ensures AuditsOwn(t, Execute(t, u, c), Owned(u, c.key), c.recipients, c.externals)
  {
  }

  lemma CompleteAudits(t: Tables, u: UserKey, c: Command)
    requires c.DoComplete?
    ensures AuditsOwn(t, Execute(t, u, c), Owned(u, c.key), c.recipients, c.externals)
  {
  }

  lemma MarkUnknownAudits(t: Tables, u: UserKey, c: Command)
    requires c.DoMarkUnknown?
    ensures AuditsOwn(t, Execute(t, u, c), Owned(u, c.key), c.recipients, c.externals)
  {
  }

  lemma OtherAudits(t: Tables, u: UserKey, c: Command)
    requires !WritesLedger(c)
    ensures IdsStay(t, Execute(t, u, c))
    ensures forall e <- Execute(t, u, c).sendAudit | e !in t.sendAudit :: e.operation.None?
  {
    OtherWritesKeep(t, u, c);
  }

  lemma OwnKey(s: State, step: Step)
    requires CommandOf(s, step).Some? && WritesLedger(CommandOf(s, step).value.1)
    ensures step.Act? && step.id in s.calls
    ensures var p, c := s.calls[step.id].plan, CommandOf(s, step).value.1;
            && Owned(CommandOf(s, step).value.0, c.key) == KeyOf(p)
            && c.recipients == p.validation.recipients && c.externals == p.validation.externals
  {
  }

  /** Who writes the ledger has reserved. */
  lemma WriterReserved(s: State, id: CallId, action: Action)
    requires CallOk(s, id) && (action.Reserve? || action.Complete? || action.GiveUp?)
    requires ActStep(s, id, action).tables != s.tables
    ensures var s' := ActStep(s, id, action);
            id in s'.calls && s'.calls[id].reservation.Some? && s'.calls[id].plan == s.calls[id].plan
  {
    match action
    case Reserve(operation, checkedAt, now) =>
      assert ActStep(s, id, action) == ReserveStep(s, id, operation, checkedAt, now);
    case Complete(fault) => assert ActStep(s, id, action) == CompleteStep(s, id, fault);
    case GiveUp(now) => assert ActStep(s, id, action) == GiveUpStep(s, id, now);
  }

  lemma CountsStep(s: State, step: Step)
    requires Sound(s) && L.PlansAdmitted(s.calls) && CountsTrue(s)
    ensures CountsTrue(Do(s, step))
  {
    var s', w := Do(s, step), CommandOf(s, step);
    StepIsAtMostOneWrite(s, step);
    D.StepRemembers(s, step);
    if w.None? {
      forall e <- s'.tables.sendAudit | e.operation.Some? ensures exists k :: CountsFor(e, s', k) {
        var k :| CountsFor(e, s, k);
        CountsStay(e, s, s', k);
      }
    } else if !WritesLedger(w.value.1) {
      OtherAudits(s.tables, w.value.0, w.value.1);
      forall e <- s'.tables.sendAudit | e.operation.Some? ensures exists k :: CountsFor(e, s', k) {
        var k :| CountsFor(e, s, k);
        CountsStay(e, s, s', k);
      }
    } else {
      OwnKey(s, step);
      LedgerStep(s, step);
    }
  }

  predicate LedgerWrite(s: State, step: Step) {
    step.Act? && step.id in s.calls && CommandOf(s, step).Some? && WritesLedger(CommandOf(s, step).value.1)
  }

  lemma StepAudits(s: State, step: Step)
    requires LedgerWrite(s, step) && Admissible(s.calls[step.id].plan)
    ensures var p := s.calls[step.id].plan;
            AuditsOwn(s.tables, Do(s, step).tables, KeyOf(p), p.validation.recipients, p.validation.externals)
  {
    StepIsAtMostOneWrite(s, step);
    OwnKey(s, step);
    var (u, c) := CommandOf(s, step).value;
    match c
    case DoReserve(_, _, _, _, _, _, _, _, _) => ReserveAudits(s.tables, u, c);
    case DoComplete(_, _, _, _) => CompleteAudits(s.tables, u, c);
    case DoMarkUnknown(_, _, _, _, _) => MarkUnknownAudits(s.tables, u, c);
  }

  lemma ReservedHolds(s: State, id: CallId)
    requires Sound(s) && id in s.calls && s.calls[id].reservation.Some?
    ensures KeyOf(s.calls[id].plan) in s.holder && s.holder[KeyOf(s.calls[id].plan)] == id
  {
  }

  lemma LedgerActions(s: State, step: Step)
    requires LedgerWrite(s, step)
    ensures step.action.Reserve? || step.action.Complete? || step.action.GiveUp?
    ensures Do(s, step) == ActStep(s, step.id, step.action)
  {
  }

  lemma WriterHolds(s: State, step: Step)
    requires Sound(s) && LedgerWrite(s, step) && Do(s, step).tables != s.tables
    ensures var s', k := Do(s, step), KeyOf(s.calls[step.id].plan);
            && k in s'.holder && s'.holder[k] == step.id && step.id in s'.calls
            && s'.calls[step.id].plan == s.calls[step.id].plan
  {
    LedgerActions(s, step);
    assert CallOk(s, step.id);
    WriterReserved(s, step.id, step.action);
    SoundStep(s, step);
    ReservedHolds(Do(s, step), step.id);
  }

  lemma NewCounts(s: State, step: Step, e: AuditEvent)
    requires Sound(s) && LedgerWrite(s, step) && Admissible(s.calls[step.id].plan)
    requires e in Do(s, step).tables.sendAudit && e !in s.tables.sendAudit && e.operation.Some?
    ensures CountsFor(e, Do(s, step), KeyOf(s.calls[step.id].plan))
  {
    StepAudits(s, step);
    WriterHolds(s, step);
    PlanCounts(s.calls[step.id].plan);
  }

  lemma LedgerStep(s: State, step: Step)
    requires Sound(s) && L.PlansAdmitted(s.calls) && CountsTrue(s) && LedgerWrite(s, step)
    ensures CountsTrue(Do(s, step))
  {
    var s' := Do(s, step);
    D.StepRemembers(s, step);
    StepAudits(s, step);
    forall e <- s'.tables.sendAudit | e.operation.Some? ensures exists k :: CountsFor(e, s', k) {
      if e in s.tables.sendAudit {
        var k :| CountsFor(e, s, k);
        CountsStay(e, s, s', k);
      } else {
        NewCounts(s, step, e);
      }
    }
  }

  /** Over every run each audit row of a send counts the recipients, and those of another domain, of the very text that
      its operation's holder was about to send, sends or sent. */
  lemma {:induction false} AuditCountsAreTrue(mailboxes: set<Owned<MailboxId>>, steps: seq<Step>)
    ensures CountsTrue(Run(Start(mailboxes), steps))
  {
    if steps != [] {
      AuditCountsAreTrue(mailboxes, steps[..|steps| - 1]);
      SoundAlways(mailboxes, steps[..|steps| - 1]);
      L.AdmittedAlways(mailboxes, steps[..|steps| - 1]);
      CountsStep(Run(Start(mailboxes), steps[..|steps| - 1]), steps[|steps| - 1]);
    }
  }

  // ----- operation ids, over store runs -----

  lemma CommandKeepsIds(t: Tables, u: UserKey, c: Command)
    ensures IdsStay(t, Execute(t, u, c))
  {
    match c
    case DoReserve(_, _, _, _, _, _, _, _, _) => ReserveAudits(t, u, c);
    case DoComplete(_, _, _, _) => CompleteAudits(t, u, c);
    case DoMarkUnknown(_, _, _, _, _) => MarkUnknownAudits(t, u, c);
    case _ => OtherAudits(t, u, c);
  }

  predicate EventsNamed(t: Tables) {
    forall e <- t.rateEvents :: IdInUse(t.operations, e.user, e.operation)
  }

  lemma NamesStay(t: Tables, t': Tables, u: UserKey, id: OperationId)
    requires IdsStay(t, t') && IdInUse(t.operations, u, id)
    ensures IdInUse(t'.operations, u, id)
  {
    var k :| k in t.operations && k.user == u && t.operations[k].id == id;
    assert t'.operations[k].id == id;
  }

  lemma ReservedName(t: Tables, u: UserKey, c: Command)
    requires c.DoReserve? && Execute(t, u, c).rateEvents != t.rateEvents
    ensures IdInUse(Execute(t, u, c).operations, u, c.id)
  {
    assert Execute(t, u, c).operations[Owned(u, c.key)].id == c.id;
  }

  lemma EventsStayNamed(t: Tables, u: UserKey, c: Command)
    requires EventsNamed(t)
    ensures EventsNamed(Execute(t, u, c))
  {
    var t' := Execute(t, u, c);
    R.EventsGrow(t, u, c);
    CommandKeepsIds(t, u, c);
    forall e <- t'.rateEvents ensures IdInUse(t'.operations, e.user, e.operation) {
      if e in t.rateEvents {
        NamesStay(t, t', e.user, e.operation);
      } else {
        ReservedName(t, u, c);
      }
    }
  }

  lemma {:induction false} EventsAlwaysNamed(mailboxes: set<Owned<MailboxId>>, commands: seq<(UserKey, Command)>)
    ensures EventsNamed(ExecuteAll(EmptyTables(mailboxes), commands))
  {
    if commands != [] {
      EventsAlwaysNamed(mailboxes, commands[..|commands| - 1]);
      EventsStayNamed(ExecuteAll(EmptyTables(mailboxes), commands[..|commands| - 1]), commands[|commands| - 1].0,
                      commands[|commands| - 1].1);
    }
  }

  /** After any store calls an id counts as taken exactly if an operation of the same user has it; other users' ids do
      not matter. */
  lemma IdIsTakenExactlyWhen(
    mailboxes: set<Owned<MailboxId>>, commands: seq<(UserKey, Command)>, u: UserKey, id: OperationId)
    ensures var t := ExecuteAll(EmptyTables(mailboxes), commands);
            OperationIdUsed(t, u, id) <==> exists k :: k in t.operations && k.user == u && t.operations[k].id == id
  {
    EventsAlwaysNamed(mailboxes, commands);
    var t := ExecuteAll(EmptyTables(mailboxes), commands);
    if e :| e in t.rateEvents && e.user == u && e.operation == id {
      assert IdInUse(t.operations, u, id);
    }
  }
}
