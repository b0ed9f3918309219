/** Idempotency over whole schedules: what a key answers once a receipt is stored under it. */
module ServiceReplays {
  import opened MailTypes
  import opened ServiceRuns
  import D = ServiceDrafts
  import O = SendOutcomes
  import Ledger
  import AtMostOnce
  import Deliveries
  import S = SendServiceSpec
  import P = SendProtocol

  /** The one answer for this key from now on: the stored receipt for the text it was stored for, and a conflict for any
      other text. */
  predicate AnswersFor(r: Result<S.Begun>, stored: StoredReceipt, hash: PayloadHash) {
    if stored.payloadHash == hash then r == Ok(S.Replay(stored.receipt)) else r == Err(IdempotencyConflict)
  }

  lemma {:induction false} ReceiptStands(sys: System, moves: seq<Move>, key: Owned<SendKey>)
    requires key in sys.tables.receipts
    ensures var t := Schedule(sys, moves).tables;
            key in t.receipts && t.receipts[key] == sys.tables.receipts[key]
  {
    if moves != [] {
      ReceiptStands(sys, moves[..|moves| - 1], key);
      D.TurnKeepsReceipt(Schedule(sys, moves[..|moves| - 1]), moves[|moves| - 1], key);
    }
  }

  /** Once a receipt is stored under a direct key, every later direct send under that key, whatever turns come between,
      whoever is registered and whatever the policy has become, answers that receipt if its text has the stored hash and
      a conflict if not; it changes no table, waits for nothing and calls no transport. */
  lemma DirectKeyReplays(sys: System, moves: seq<Move>, m: Move)
    requires m.turn.BeginDirect? && Owned(m.user, DirectKey(m.turn.token)) in sys.tables.receipts
    ensures var b, later := m.turn, Schedule(sys, moves);
            var tx := S.BeginSendDirect(m.registry, later.tables, m.user, b.token, b.payload, b.operation, b.checkedAt,
                                        b.reservedAt, b.now);
            && tx.tables == later.tables
            && AnswersFor(tx.result, sys.tables.receipts[Owned(m.user, DirectKey(b.token))], HashPayload(b.payload))
            && Take(later, m) == later
  {
    var b, later := m.turn, Schedule(sys, moves);
    ReceiptStands(sys, moves, Owned(m.user, DirectKey(b.token)));
    O.StoredReceiptAnswers(m.registry, later.tables, m.user, b.token, b.payload, "", None, None, b.operation,
                           b.checkedAt, 0, b.reservedAt, b.now);
  }

  /** The same of a draft's key, for the text the draft has by then. */
  lemma DraftKeyReplays(sys: System, moves: seq<Move>, m: Move)
    requires m.turn.BeginDraft? && Owned(m.user, DraftKey(m.turn.d)) in sys.tables.receipts
    requires Owned(m.user, m.turn.d) in sys.tables.drafts
    ensures var b, later := m.turn, Schedule(sys, moves);
            var tx := S.BeginSendDraft(m.registry, later.tables, m.user, b.d, b.confirmation, b.seen, b.operation,
                                       b.checkedAt, b.consumedAt, b.reservedAt, b.now);
            && tx.tables == later.tables && Owned(m.user, b.d) in later.tables.drafts
            && AnswersFor(tx.result, sys.tables.receipts[Owned(m.user, DraftKey(b.d))],
                          HashPayload(later.tables.drafts[Owned(m.user, b.d)].payload))
            && Take(later, m) == later
  {
    var b, later := m.turn, Schedule(sys, moves);
    ReceiptStands(sys, moves, Owned(m.user, DraftKey(b.d)));
    DraftStands(sys, moves, Owned(m.user, b.d));
    O.StoredReceiptAnswers(m.registry, later.tables, m.user, "", later.tables.drafts[Owned(m.user, b.d)].payload, b.d,
                           b.confirmation, b.seen, b.operation, b.checkedAt, b.consumedAt, b.reservedAt, b.now);
  }

  lemma {:induction false} DraftStands(sys: System, moves: seq<Move>, k: Owned<DraftId>)
    requires k in sys.tables.drafts
    ensures k in Schedule(sys, moves).tables.drafts
  {
    if moves != [] {
      DraftStands(sys, moves[..|moves| - 1], k);
      D.TurnMarks(Schedule(sys, moves[..|moves| - 1]), moves[|moves| - 1], k);
    }
  }

  /** A waiting call's operation carries the hash of the text it delivers. */
  lemma WaitingHash(mailboxes: set<Owned<MailboxId>>, moves: seq<Move>, id: P.CallId)
    requires var sys := Schedule(Idle(mailboxes), moves); id in sys.waiting && sys.waiting[id].stage == Given
    ensures var sys := Schedule(Idle(mailboxes), moves);
            var p := sys.waiting[id].plan;
            && P.KeyOf(p) in sys.tables.operations
            && sys.tables.operations[P.KeyOf(p)].payloadHash == HashPayload(p.payload)
  {
    var steps := ServiceIsSimulated(mailboxes, moves);
    var s := P.Run(P.Start(mailboxes), steps);
    AtMostOnce.SoundAlways(mailboxes, steps);
    Deliveries.DeliveriesAlways(mailboxes, steps);
    assert WaitsAs(s.calls, id, Schedule(Idle(mailboxes), moves).waiting[id]);
    assert AtMostOnce.PhaseOk(s.calls[id]);
  }

  lemma SettledReceipt(sys: System, id: P.CallId, settle: Move)
    requires settle.turn.Settle? && settle.turn.id == id && id in sys.waiting && sys.waiting[id].stage == Given
    requires var tx := S.SettleSend(sys.tables, sys.waiting[id].plan, settle.turn.outcome, settle.turn.now);
             tx.result.Ok?
    requires P.KeyOf(sys.waiting[id].plan) in sys.tables.operations
    ensures settle.turn.outcome.Delivered?
    ensures var k, t' := P.KeyOf(sys.waiting[id].plan), Take(sys, settle).tables;
            && k in t'.receipts
            && t'.receipts[k] == StoredReceipt(sys.tables.operations[k].payloadHash, settle.turn.outcome.receipt)
  {
  }

  /** Sent once, answered for ever: after a direct call has stored its receipt, the same send made again, at any later
      point of the schedule, answers the receipt that the transport gave that call. */
  lemma RetryAnswersTheReceipt(
    mailboxes: set<Owned<MailboxId>>, earlier: seq<Move>, id: P.CallId, settle: Move, moves: seq<Move>, m: Move)
    requires var sys := Schedule(Idle(mailboxes), earlier);
             && settle.turn.Settle? && settle.turn.id == id && id in sys.waiting && sys.waiting[id].stage == Given
             && S.SettleSend(sys.tables, sys.waiting[id].plan, settle.turn.outcome, settle.turn.now).result.Ok?
             && m.turn.BeginDirect? && P.KeyOf(sys.waiting[id].plan) == Owned(m.user, DirectKey(m.turn.token))
             && sys.waiting[id].plan.payload == m.turn.payload
    ensures settle.turn.outcome.Delivered?
    ensures var b, later := m.turn, Schedule(Take(Schedule(Idle(mailboxes), earlier), settle), moves);
            S.BeginSendDirect(m.registry, later.tables, m.user, b.token, b.payload, b.operation, b.checkedAt,
                              b.reservedAt, b.now)
            == Ledger.Tx(later.tables, Ok(S.Replay(settle.turn.outcome.receipt)))
  {
    var sys := Schedule(Idle(mailboxes), earlier);
    WaitingHash(mailboxes, earlier, id);
    SettledReceipt(sys, id, settle);
    DirectKeyReplays(Take(sys, settle), moves, m);
  }
}
