/** What every sequence of store transactions keeps true of the send ledger, and the small abstract
    ledger that the tables implement. Mailbox and user deletion are outside the model. */
module LedgerInvariants {
  import opened MailTypes
  import opened SendPolicy
  import opened Ledger

  // ----- every write the store offers -----

  datatype Command =
    | DoCreateDraft(d: DraftId, payload: Payload, now: Time)
    | DoUpdateDraft(d: DraftId, expected: nat, payload: Payload, now: Time)
    | DoAddAttachment(d: DraftId, expected: nat, attachment: Attachment, now: Time)
    | DoRemoveAttachment(d: DraftId, expected: nat, attachmentId: string, now: Time)
    | DoMarkSent(d: DraftId, receipt: Receipt)
    | DoSetPolicy(m: MailboxId, policy: Policy)
    | DoPrepare(d: DraftId, hash: PayloadHash, validation: Validation, ttlSeconds: nat, c: ConfirmationId, now: Time)
    | DoConsume(c: ConfirmationId, d: DraftId, version: nat, hash: PayloadHash, policyVersion: nat, now: Time)
    | DoReserve(key: SendKey, m: MailboxId, hash: PayloadHash, policy: Policy, recipients: nat, externals: nat,
                id: OperationId, checkedAt: Time, now: Time)
    | DoComplete(key: SendKey, receipt: Receipt, recipients: nat, externals: nat)
    | DoMarkUnknown(key: SendKey, code: ErrorCode, recipients: nat, externals: nat, now: Time)

  function Execute(t: Tables, u: UserKey, c: Command): Tables {
    match c
    case DoCreateDraft(d, payload, now) => CreateDraft(t, u, d, payload, now).tables
    case DoUpdateDraft(d, expected, payload, now) => UpdateDraft(t, u, d, expected, payload, now).tables
    case DoAddAttachment(d, expected, a, now) => AddDraftAttachment(t, u, d, expected, a, now).tables
    case DoRemoveAttachment(d, expected, id, now) => RemoveDraftAttachment(t, u, d, expected, id, now).tables
    case DoMarkSent(d, receipt) => MarkDraftSent(t, u, d, receipt).tables
    case DoSetPolicy(m, policy) => SetSendPolicy(t, u, m, policy).tables
    case DoPrepare(d, hash, v, ttl, id, now) => CreateSendConfirmation(t, u, d, hash, v, ttl, id, now).tables
    case DoConsume(id, d, version, hash, policyVersion, now) =>
      ConsumeSendConfirmation(t, u, id, d, version, hash, policyVersion, now).tables
    case DoReserve(key, m, hash, policy, recipients, externals, id, checkedAt, now) =>
      ReserveSendOperation(t, u, key, m, hash, policy, recipients, externals, id, checkedAt, now).tables
    case DoComplete(key, receipt, recipients, externals) =>
      CompleteSendOperation(t, u, key, receipt, recipients, externals).tables
    case DoMarkUnknown(key, code, recipients, externals, now) =>
      MarkSendOperationUnknown(t, u, key, code, recipients, externals, now).tables
  }

  function ExecuteAll(t: Tables, commands: seq<(UserKey, Command)>): Tables {
    if commands == [] then t
    else
      var (u, c) := commands[|commands| - 1];
      Execute(ExecuteAll(t, commands[..|commands| - 1]), u, c)
  }

  // ----- the invariant -----

  type Operations = map<Owned<SendKey>, Operation>

  function EventOf(k: Owned<SendKey>, op: Operation): RateEvent {
    RateEvent(k.user, op.id, op.mailbox, op.createdAt)
  }

  /** The states audited for one operation, oldest first. */
  function History(log: seq<AuditEvent>, u: UserKey, id: OperationId): seq<SendState> {
    if log == [] then []
    else
      var e := log[|log| - 1];
      History(log[..|log| - 1], u, id)
      + if e.user == u && e.operation == Some(id) && e.state.Some? then [e.state.value] else []
  }

  /** Folding a history: `submitting` gives way to the next state, anything else is final. */
  function Settle(history: seq<SendState>): Option<SendState> {
    if history == [] then None
    else
      var before := Settle(history[..|history| - 1]);
      if before == None || before == Some(Submitting) then Some(history[|history| - 1]) else before
  }

  /** A completed operation, and no other, has a receipt; the receipt agrees with it in every respect. */
  predicate ReceiptsAgree(operations: Operations, receipts: map<Owned<SendKey>, StoredReceipt>) {
    && receipts.Keys <= operations.Keys
    && forall k <- operations ::
         var op := operations[k];
         if k in receipts then
           && op.state == StateOf(receipts[k].receipt) && receipts[k].payloadHash == op.payloadHash
           && op.accepted == |receipts[k].receipt.accepted| && op.rejected == |receipts[k].receipt.rejected|
         else !Completed(op.state) && op.accepted == 0 && op.rejected == 0
  }

  predicate IdsDistinct(operations: Operations) {
    forall k, l | k in operations && l in operations && k.user == l.user && operations[k].id == operations[l].id ::
      k == l
  }

  /** Exactly one rate event per operation, and no other rate events. */
  ghost predicate RatesAgree(operations: Operations, events: seq<RateEvent>) {
    && (forall k <- operations :: multiset(events)[EventOf(k, operations[k])] == 1)
    && |events| == |operations|
  }

  predicate IdInUse(operations: Operations, u: UserKey, id: OperationId) {
    exists k <- operations :: k.user == u && operations[k].id == id
  }

  /** The audit log alone determines the state of every operation. */
  predicate AuditAgrees(operations: Operations, log: seq<AuditEvent>) {
    && (forall k <- operations :: Settle(History(log, k.user, operations[k].id)) == Some(operations[k].state))
    && (forall e <- log | e.operation.Some? :: IdInUse(operations, e.user, e.operation.value))
  }

  ghost predicate Consistent(t: Tables) {
    && ReceiptsAgree(t.operations, t.receipts)
    && IdsDistinct(t.operations)
    && RatesAgree(t.operations, t.rateEvents)
    && AuditAgrees(t.operations, t.sendAudit)
  }

  lemma {:induction false} UnusedHistory(log: seq<AuditEvent>, u: UserKey, id: OperationId)
    requires forall e <- log :: !(e.user == u && e.operation == Some(id))
    ensures History(log, u, id) == []
  {
    if log != [] {
      UnusedHistory(log[..|log| - 1], u, id);
    }
  }

  lemma AuditAppends(log: seq<AuditEvent>, e: AuditEvent, u: UserKey, id: OperationId)
    ensures History(log + [e], u, id)
         == History(log, u, id)
            + if e.user == u && e.operation == Some(id) && e.state.Some? then [e.state.value] else []
  {
    assert (log + [e])[..|log|] == log;
  }

  lemma SettleAppends(history: seq<SendState>, s: SendState)
    ensures Settle(history + [s])
         == if Settle(history) == None || Settle(history) == Some(Submitting) then Some(s) else Settle(history)
  {
    assert (history + [s])[..|history|] == history;
  }

  /** Appending one audit row moves the fold of the operation it names and of no other. */
  lemma AuditMovesOne(log: seq<AuditEvent>, e: AuditEvent, u: UserKey, id: OperationId)
    ensures Settle(History(log + [e], u, id))
         == var before := Settle(History(log, u, id));
            if e.user == u && e.operation == Some(id) && e.state.Some? && (before == None || before == Some(Submitting))
            then e.state else before
  {
    AuditAppends(log, e, u, id);
    var h := History(log, u, id);
    assert h + [] == h;
    if e.state.Some? {
      SettleAppends(h, e.state.value);
    }
  }

  lemma RatesInsert(operations: Operations, events: seq<RateEvent>, k: Owned<SendKey>, op: Operation)
    requires RatesAgree(operations, events) && k !in operations
    requires forall e <- events :: !(e.user == k.user && e.operation == op.id)
    ensures RatesAgree(operations[k := op], events + [EventOf(k, op)])
  {
    var after := operations[k := op];
    forall l <- after ensures multiset(events + [EventOf(k, op)])[EventOf(l, after[l])] == 1 {
      if l != k {
        assert EventOf(l, after[l]) in multiset(events);
        assert EventOf(l, after[l]) in events;
      } else {
        assert EventOf(k, op) !in events;
      }
    }
  }

  /** Every operation that the log names is there after the write, which keeps or adds the id it is about. */
  lemma NamedStayInUse(operations: Operations, log: seq<AuditEvent>, k: Owned<SendKey>, op: Operation, e: AuditEvent)
    requires forall f <- log | f.operation.Some? :: IdInUse(operations, f.user, f.operation.value)
    requires k in operations ==> op.id == operations[k].id
    requires e.user == k.user && e.operation == Some(op.id)
    ensures forall f <- log + [e] | f.operation.Some? :: IdInUse(operations[k := op], f.user, f.operation.value)
  {
    var after := operations[k := op];
    forall f <- log + [e] | f.operation.Some? ensures IdInUse(after, f.user, f.operation.value) {
      if f in log {
        assert IdInUse(operations, f.user, f.operation.value);
        var l :| l in operations && l.user == f.user && operations[l].id == f.operation.value;
        assert after[l].id == f.operation.value;
      } else {
        assert after[k].id == f.operation.value;
      }
    }
  }

  lemma AuditInsert(operations: Operations, log: seq<AuditEvent>, k: Owned<SendKey>, op: Operation, e: AuditEvent)
    requires AuditAgrees(operations, log) && k !in operations && !IdInUse(operations, k.user, op.id)
    requires e.user == k.user && e.operation == Some(op.id) && e.state == Some(op.state)
    ensures AuditAgrees(operations[k := op], log + [e])
  {
    var after := operations[k := op];
    assert forall f <- log :: !(f.user == k.user && f.operation == Some(op.id));
    UnusedHistory(log, k.user, op.id);
    forall l <- after ensures Settle(History(log + [e], l.user, after[l].id)) == Some(after[l].state) {
      AuditMovesOne(log, e, l.user, after[l].id);
    }
    NamedStayInUse(operations, log, k, op, e);
  }

  /** Rewriting one operation's state as the audit row says, or leaving it if it was already settled. */
  lemma AuditSettle(operations: Operations, log: seq<AuditEvent>, k: Owned<SendKey>, op: Operation, e: AuditEvent)
    requires AuditAgrees(operations, log) && IdsDistinct(operations) && k in operations && op.id == operations[k].id
    requires e.user == k.user && e.operation == Some(op.id) && e.state.Some?
    requires op.state == if operations[k].state == Submitting then e.state.value else operations[k].state
    ensures AuditAgrees(operations[k := op], log + [e])
  {
    var after := operations[k := op];
    forall l <- after ensures Settle(History(log + [e], l.user, after[l].id)) == Some(after[l].state) {
      AuditMovesOne(log, e, l.user, after[l].id);
    }
    NamedStayInUse(operations, log, k, op, e);
  }

  lemma AuditIgnores(operations: Operations, log: seq<AuditEvent>, e: AuditEvent)
    requires AuditAgrees(operations, log) && e.operation == None
    ensures AuditAgrees(operations, log + [e])
  {
    forall k <- operations ensures Settle(History(log + [e], k.user, operations[k].id)) == Some(operations[k].state) {
      AuditMovesOne(log, e, k.user, operations[k].id);
    }
  }

  // Per transaction: what it does to the ledger columns, then that each part of the invariant survives.

  lemma ReserveKeeps(
    t: Tables, u: UserKey, key: SendKey, m: MailboxId, hash: PayloadHash, policy: Policy, recipients: nat,
    externals: nat, id: OperationId, checkedAt: Time, now: Time)
    requires Consistent(t)
    ensures Consistent(ReserveSendOperation(t, u, key, m, hash, policy, recipients, externals, id, checkedAt,
                                            now).tables)
  {
    var t' := ReserveSendOperation(t, u, key, m, hash, policy, recipients, externals, id, checkedAt, now).tables;
    if t' != t {
      var k, op := Owned(u, key), NewOperation(m, hash, id, now);
      var e := AuditEvent(u, Some(id), m, SendSubmitting, true, Some(Submitting), recipients, externals, None, now);
      assert t' == t.(operations := t.operations[k := op], rateEvents := t.rateEvents + [EventOf(k, op)],
                      sendAudit := t.sendAudit + [e]);
      InsertKeeps(t, k, op, e);
    }
  }

  lemma InsertKeeps(t: Tables, k: Owned<SendKey>, op: Operation, e: AuditEvent)
    requires Consistent(t) && k !in t.operations && !OperationIdUsed(t, k.user, op.id)
    requires op.state == Submitting && op.accepted == op.rejected == 0
    requires e.user == k.user && e.operation == Some(op.id) && e.state == Some(Submitting)
    ensures Consistent(t.(operations := t.operations[k := op], rateEvents := t.rateEvents + [EventOf(k, op)],
                          sendAudit := t.sendAudit + [e]))
  {
    RatesInsert(t.operations, t.rateEvents, k, op);
    AuditInsert(t.operations, t.sendAudit, k, op, e);
    ReceiptsInsert(t.operations, t.receipts, k, op);
    IdsInsert(t.operations, k, op);
  }

  lemma ReceiptsInsert(
    operations: Operations, receipts: map<Owned<SendKey>, StoredReceipt>, k: Owned<SendKey>, op: Operation)
    requires ReceiptsAgree(operations, receipts) && k !in operations
    requires op.state == Submitting && op.accepted == op.rejected == 0
    ensures ReceiptsAgree(operations[k := op], receipts)
  {
  }

  lemma IdsInsert(operations: Operations, k: Owned<SendKey>, op: Operation)
    requires IdsDistinct(operations) && !IdInUse(operations, k.user, op.id)
    ensures IdsDistinct(operations[k := op])
  {
  }

  /** Settling a row that is still `submitting`: it leaves with or without a receipt. */
  lemma SettleKeeps(
    t: Tables, receipts: map<Owned<SendKey>, StoredReceipt>, k: Owned<SendKey>, op: Operation, e: AuditEvent)
    requires Consistent(t) && k in t.operations
    requires op.id == t.operations[k].id && op.mailbox == t.operations[k].mailbox
    requires op.createdAt == t.operations[k].createdAt
    requires e.user == k.user && e.operation == Some(op.id) && e.state.Some?
    requires op.state == if t.operations[k].state == Submitting then e.state.value else t.operations[k].state
    requires ReceiptsAgree(t.operations[k := op], receipts)
    ensures Consistent(t.(operations := t.operations[k := op], receipts := receipts, sendAudit := t.sendAudit + [e]))
  {
    AuditSettle(t.operations, t.sendAudit, k, op, e);
    RatesKeep(t.operations, t.rateEvents, k, op);
    IdsKeep(t.operations, k, op);
  }

  lemma RatesKeep(operations: Operations, events: seq<RateEvent>, k: Owned<SendKey>, op: Operation)
    requires RatesAgree(operations, events) && k in operations && EventOf(k, op) == EventOf(k, operations[k])
    ensures RatesAgree(operations[k := op], events)
  {
    assert operations[k := op].Keys == operations.Keys;
  }

  lemma IdsKeep(operations: Operations, k: Owned<SendKey>, op: Operation)
    requires IdsDistinct(operations) && k in operations && op.id == operations[k].id
    ensures IdsDistinct(operations[k := op])
  {
  }

  lemma ReceiptsComplete(
    operations: Operations, receipts: map<Owned<SendKey>, StoredReceipt>, k: Owned<SendKey>, op: Operation, r: Receipt)
    requires ReceiptsAgree(operations, receipts) && k in operations
    requires op.state == StateOf(r) && op.accepted == |r.accepted| && op.rejected == |r.rejected|
    ensures ReceiptsAgree(operations[k := op], receipts[k := StoredReceipt(op.payloadHash, r)])
  {
  }

  lemma ReceiptsUnknown(
    operations: Operations, receipts: map<Owned<SendKey>, StoredReceipt>, k: Owned<SendKey>, op: Operation)
    requires ReceiptsAgree(operations, receipts) && k in operations
    requires op == operations[k]
          || (!Completed(operations[k].state) && !Completed(op.state) && op.accepted == op.rejected == 0)
    ensures ReceiptsAgree(operations[k := op], receipts)
  {
  }

  lemma CompleteKeeps(t: Tables, u: UserKey, key: SendKey, receipt: Receipt, recipients: nat, externals: nat)
    requires Consistent(t)
    ensures Consistent(CompleteSendOperation(t, u, key, receipt, recipients, externals).tables)
  {
    var t' := CompleteSendOperation(t, u, key, receipt, recipients, externals).tables;
    if t' != t {
      var k := Owned(u, key);
      ReceiptsComplete(t.operations, t.receipts, k, t'.operations[k], receipt);
      SettleKeeps(t, t'.receipts, k, t'.operations[k], t'.sendAudit[|t.sendAudit|]);
    }
  }

  lemma MarkUnknownKeeps(
    t: Tables, u: UserKey, key: SendKey, code: ErrorCode, recipients: nat, externals: nat, now: Time)
    requires Consistent(t)
    ensures Consistent(MarkSendOperationUnknown(t, u, key, code, recipients, externals, now).tables)
  {
    var k := Owned(u, key);
    if k in t.operations {
      var t' := MarkSendOperationUnknown(t, u, key, code, recipients, externals, now).tables;
      ReceiptsCounts(t.operations, t.receipts, k);
      ReceiptsUnknown(t.operations, t.receipts, k, t'.operations[k]);
      SettleKeeps(t, t.receipts, k, t'.operations[k], t'.sendAudit[|t.sendAudit|]);
    }
  }

  lemma ReceiptsCounts(operations: Operations, receipts: map<Owned<SendKey>, StoredReceipt>, k: Owned<SendKey>)
    requires ReceiptsAgree(operations, receipts) && k in operations
    ensures k in receipts <==> Completed(operations[k].state)
    ensures k !in receipts ==> operations[k].accepted == operations[k].rejected == 0
  {
  }

  predicate WritesLedger(c: Command) {
    c.DoReserve? || c.DoComplete? || c.DoMarkUnknown?
  }

  lemma OtherWritesKeep(t: Tables, u: UserKey, c: Command)
    requires !WritesLedger(c)
    ensures var t' := Execute(t, u, c);
            && t'.operations == t.operations && t'.receipts == t.receipts && t'.rateEvents == t.rateEvents
            && (t'.sendAudit == t.sendAudit
                || exists e: AuditEvent :: e.operation == None && t'.sendAudit == t.sendAudit + [e])
  {
    var t' := Execute(t, u, c);
    if t'.sendAudit != t.sendAudit {
      var e := t'.sendAudit[|t.sendAudit|];
      assert e.operation == None && t'.sendAudit == t.sendAudit + [e];
    }
  }

  lemma SameLedgerKeeps(t: Tables, t': Tables)
    requires Consistent(t)
    requires t'.operations == t.operations && t'.receipts == t.receipts && t'.rateEvents == t.rateEvents
    requires t'.sendAudit == t.sendAudit
          || exists e: AuditEvent :: e.operation == None && t'.sendAudit == t.sendAudit + [e]
    ensures Consistent(t')
  {
    if t'.sendAudit != t.sendAudit {
      AuditIgnores(t.operations, t.sendAudit, t'.sendAudit[|t.sendAudit|]);
    }
  }

  lemma ExecuteKeeps(t: Tables, u: UserKey, c: Command)
    requires Consistent(t)
    ensures Consistent(Execute(t, u, c))
  {
    match c
    case DoReserve(key, m, hash, policy, recipients, externals, id, checkedAt, now) =>
      ReserveKeeps(t, u, key, m, hash, policy, recipients, externals, id, checkedAt, now);
    case DoComplete(key, receipt, recipients, externals) =>
      CompleteKeeps(t, u, key, receipt, recipients, externals);
    case DoMarkUnknown(key, code, recipients, externals, now) =>
      MarkUnknownKeeps(t, u, key, code, recipients, externals, now);
    case _ =>
      OtherWritesKeep(t, u, c);
      SameLedgerKeeps(t, Execute(t, u, c));
  }

  /** The ledger invariant holds after any sequence of store calls by any users with any arguments. */
  lemma {:induction false} LedgerIsConsistent(mailboxes: set<Owned<MailboxId>>, commands: seq<(UserKey, Command)>)
    ensures Consistent(ExecuteAll(EmptyTables(mailboxes), commands))
  {
    if commands != [] {
      var (u, c) := commands[|commands| - 1];
      LedgerIsConsistent(mailboxes, commands[..|commands| - 1]);
      ExecuteKeeps(ExecuteAll(EmptyTables(mailboxes), commands[..|commands| - 1]), u, c);
    }
  }

  // ----- refinement -----

  datatype Status = InFlight | Done(receipt: Receipt) | Uncertain

  /** What the ledger knows about a key; an absent key was never reserved. */
  datatype Entry = Entry(hash: PayloadHash, status: Status)

  type AbstractLedger = map<Owned<SendKey>, Entry>

  function StatusOf(t: Tables, k: Owned<SendKey>): Status
    requires k in t.operations
  {
    var op := t.operations[k];
    if op.state == Submitting then InFlight
    else if Completed(op.state) && k in t.receipts then Done(t.receipts[k].receipt)
    else Uncertain
  }

  function Abstract(t: Tables): AbstractLedger {
    map k | k in t.operations :: Entry(t.operations[k].payloadHash, StatusOf(t, k))
  }

  datatype Answer = Granted | Replay(receipt: Receipt) | Busy | Refused | Conflict

  /** Reserving is a compare-and-set: only an absent key is granted, and it is granted once. */
  function AbstractReserve(a: AbstractLedger, k: Owned<SendKey>, hash: PayloadHash): (AbstractLedger, Answer) {
    if k !in a then (a[k := Entry(hash, InFlight)], Granted)
    else if a[k].hash != hash then (a, Conflict)
    else match a[k].status
      case Done(receipt) => (a, Replay(receipt))
      case InFlight => (a, Busy)
      case Uncertain => (a, Refused)
  }

  /** Settling touches only a key in flight. */
  function AbstractSettle(a: AbstractLedger, k: Owned<SendKey>, outcome: Status): AbstractLedger {
    if k in a && a[k].status == InFlight then a[k := a[k].(status := outcome)] else a
  }

  function AnswerOf(r: Result<Reservation>): Option<Answer> {
    match r
    case Ok(Fresh(_)) => Some(Granted)
    case Ok(Replayed(_, receipt)) => Some(Replay(receipt))
    case Err(IdempotencyConflict) => Some(Conflict)
    case Err(AlreadySubmitting) => Some(Busy)
    case Err(StatusUnknown) => Some(Refused)
    case Err(_) => None
  }

  /** A reservation either answers exactly as the abstract ledger does, or it is turned away by a rate limit
      or a table constraint while the key is still absent, and then nothing changes. */
  lemma ReserveRefines(
    t: Tables, u: UserKey, key: SendKey, m: MailboxId, hash: PayloadHash, policy: Policy, recipients: nat,
    externals: nat, id: OperationId, checkedAt: Time, now: Time)
    requires ReceiptsAgree(t.operations, t.receipts)
    ensures var tx := ReserveSendOperation(t, u, key, m, hash, policy, recipients, externals, id, checkedAt, now);
            if AnswerOf(tx.result).Some?
            then (Abstract(tx.tables), AnswerOf(tx.result).value) == AbstractReserve(Abstract(t), Owned(u, key), hash)
            else Owned(u, key) !in Abstract(t) && tx.tables == t
  {
    var k := Owned(u, key);
    if k in t.operations {
      ReceiptsCounts(t.operations, t.receipts, k);
    } else {
      var tx := ReserveSendOperation(t, u, key, m, hash, policy, recipients, externals, id, checkedAt, now);
      if tx.result.Ok? {
        InsertRefines(t, tx.tables, k, NewOperation(m, hash, id, now));
      }
    }
  }

  lemma InsertRefines(t: Tables, t': Tables, k: Owned<SendKey>, op: Operation)
    requires k !in t.operations && op.state == Submitting
    requires t'.operations == t.operations[k := op] && t'.receipts == t.receipts
    ensures Abstract(t') == Abstract(t)[k := Entry(op.payloadHash, InFlight)]
  {
  }

  lemma CompleteRefines(t: Tables, u: UserKey, key: SendKey, receipt: Receipt, recipients: nat, externals: nat)
    requires ReceiptsAgree(t.operations, t.receipts)
    ensures var tx := CompleteSendOperation(t, u, key, receipt, recipients, externals);
            && Abstract(tx.tables)
               == (if tx.result.Ok? then AbstractSettle(Abstract(t), Owned(u, key), Done(receipt)) else Abstract(t))
            && (tx.result.Ok? <==> && Owned(u, key) in Abstract(t) && Abstract(t)[Owned(u, key)].status == InFlight
                                   && Owned(u, receipt.mailbox) in t.mailboxes)
  {
    var k := Owned(u, key);
    if k in t.operations {
      ReceiptsCounts(t.operations, t.receipts, k);
      var tx := CompleteSendOperation(t, u, key, receipt, recipients, externals);
      if tx.result.Ok? {
        RewriteRefines(t, tx.tables, k, tx.tables.operations[k]);
      }
    }
  }

  lemma RewriteRefines(t: Tables, t': Tables, k: Owned<SendKey>, op: Operation)
    requires k in t.operations && t'.operations == t.operations[k := op]
    requires op.payloadHash == t.operations[k].payloadHash
    requires forall l <- t.operations | l != k :: (l in t.receipts <==> l in t'.receipts)
               && (l in t.receipts ==> t.receipts[l] == t'.receipts[l])
    ensures Abstract(t') == Abstract(t)[k := Abstract(t)[k].(status := StatusOf(t', k))]
  {
  }

  lemma MarkUnknownRefines(
    t: Tables, u: UserKey, key: SendKey, code: ErrorCode, recipients: nat, externals: nat, now: Time)
    ensures var tx := MarkSendOperationUnknown(t, u, key, code, recipients, externals, now);
            Abstract(tx.tables) == AbstractSettle(Abstract(t), Owned(u, key), Uncertain)
  {
    var k := Owned(u, key);
    if k in t.operations {
      var tx := MarkSendOperationUnknown(t, u, key, code, recipients, externals, now);
      RewriteRefines(t, tx.tables, k, tx.tables.operations[k]);
    }
  }

  lemma OtherWritesRefineNothing(t: Tables, u: UserKey, c: Command)
    requires !WritesLedger(c)
    ensures Abstract(Execute(t, u, c)) == Abstract(t)
  {
    OtherWritesKeep(t, u, c);
  }

  datatype AbstractStep =
    | Stutter
    | Claim(k: Owned<SendKey>, hash: PayloadHash)
    | Conclude(k: Owned<SendKey>, outcome: Status)

  function AbstractDo(a: AbstractLedger, step: AbstractStep): AbstractLedger {
    match step
    case Stutter => a
    case Claim(k, hash) => AbstractReserve(a, k, hash).0
    case Conclude(k, outcome) => AbstractSettle(a, k, outcome)
  }

  /** Every store write is one step of the abstract ledger, or none. */
  lemma WriteRefines(t: Tables, u: UserKey, c: Command) returns (step: AbstractStep)
    requires ReceiptsAgree(t.operations, t.receipts)
    ensures Abstract(Execute(t, u, c)) == AbstractDo(Abstract(t), step)
  {
    step := Stutter;
    match c
    case DoReserve(key, m, hash, policy, recipients, externals, id, checkedAt, now) =>
      var tx := ReserveSendOperation(t, u, key, m, hash, policy, recipients, externals, id, checkedAt, now);
      ReserveRefines(t, u, key, m, hash, policy, recipients, externals, id, checkedAt, now);
      if AnswerOf(tx.result).Some? {
        step := Claim(Owned(u, key), hash);
      }
    case DoComplete(key, receipt, recipients, externals) =>
      CompleteRefines(t, u, key, receipt, recipients, externals);
      if CompleteSendOperation(t, u, key, receipt, recipients, externals).result.Ok? {
        step := Conclude(Owned(u, key), Done(receipt));
      }
    case DoMarkUnknown(key, code, recipients, externals, now) =>
      MarkUnknownRefines(t, u, key, code, recipients, externals, now);
      step := Conclude(Owned(u, key), Uncertain);
    case _ =>
      OtherWritesRefineNothing(t, u, c);
  }

  /** A key is never forgotten, keeps its hash, and once settled keeps its entry. */
  predicate Advances(a: AbstractLedger, a': AbstractLedger, k: Owned<SendKey>)
    requires k in a
  {
    k in a' && a'[k].hash == a[k].hash && (a[k].status != InFlight ==> a'[k] == a[k])
  }

  lemma StepAdvances(a: AbstractLedger, step: AbstractStep, k: Owned<SendKey>)
    requires k in a
    ensures Advances(a, AbstractDo(a, step), k)
  {
  }

  lemma SettledStays(t: Tables, u: UserKey, c: Command, k: Owned<SendKey>)
    requires ReceiptsAgree(t.operations, t.receipts) && k in Abstract(t)
    ensures Advances(Abstract(t), Abstract(Execute(t, u, c)), k)
  {
    var step := WriteRefines(t, u, c);
    StepAdvances(Abstract(t), step, k);
  }

  /** Done and uncertain keys are final under every later sequence of store calls; no key is ever forgotten. */
  lemma {:induction false} SettledIsFinal(t: Tables, commands: seq<(UserKey, Command)>, k: Owned<SendKey>)
    requires Consistent(t) && k in Abstract(t)
    ensures Consistent(ExecuteAll(t, commands)) && Advances(Abstract(t), Abstract(ExecuteAll(t, commands)), k)
  {
    if commands != [] {
      var (u, c) := commands[|commands| - 1];
      var mid := ExecuteAll(t, commands[..|commands| - 1]);
      SettledIsFinal(t, commands[..|commands| - 1], k);
      ExecuteKeeps(mid, u, c);
      SettledStays(mid, u, c, k);
    }
  }
}
