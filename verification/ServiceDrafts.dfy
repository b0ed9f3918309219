/** How a draft of the service becomes sent, and how an accepted one can fail to. */
module ServiceDrafts {
  import opened MailTypes
  import opened Ledger
  import opened LedgerInvariants
  import opened ServiceRuns
  import D = DraftLifecycle

  function SendKeyOf(k: Owned<DraftId>): Owned<SendKey> {
    Owned(k.user, DraftKey(k.id))
  }

  predicate IsSent(t: Tables, k: Owned<DraftId>) {
    k in t.drafts && t.drafts[k].status == Sent
  }

  /** This turn resumes a call of this draft whose stored receipt names an accepted recipient. */
  predicate Marks(sys: System, m: Move, k: Owned<DraftId>) {
    && m.turn.Mark? && m.turn.id in sys.waiting && k in sys.tables.drafts
    && var w := sys.waiting[m.turn.id];
       w.stage.Stored? && |w.stage.receipt.accepted| > 0 && w.plan.origin.FromDraft? && P.KeyOf(w.plan) == SendKeyOf(k)
  }

  // ----- what one turn does to the rows -----

  lemma BeginKeepsRows(sys: System, m: Move)
    requires m.turn.BeginDraft? || m.turn.BeginDirect?
    ensures var t, t' := sys.tables, Take(sys, m).tables; t'.drafts == t.drafts && t'.receipts == t.receipts
  {
    var reg, t, u := m.registry, sys.tables, m.user;
    match m.turn
    case BeginDraft(_, d, c, seen, operation, checkedAt, consumedAt, reservedAt, now) =>
      var planned := S.PlanDraft(reg, t, u, d, c, seen, checkedAt);
      if planned.Ok? && planned.value.Deliver? {
        ConsumeAndReserveKeepsRows(t, planned.value.plan, operation, consumedAt, reservedAt, now);
      }
    case BeginDirect(_, token, payload, operation, checkedAt, reservedAt, now) =>
      var planned := S.PlanDirect(reg, t, u, token, payload, checkedAt);
      if planned.Ok? && planned.value.Deliver? {
        ReserveKeepsRows(t, planned.value.plan, operation, reservedAt, now);
      }
  }

  lemma ReserveKeepsRows(t: Tables, p: P.Plan, operation: OperationId, reservedAt: Time, now: Time)
    ensures var t' := S.ReservePlan(t, p, operation, reservedAt, now).tables;
            t'.drafts == t.drafts && t'.receipts == t.receipts
  {
  }

  lemma ConsumeAndReserveKeepsRows(
    t: Tables, p: P.Plan, operation: OperationId, consumedAt: Time, reservedAt: Time, now: Time)
    requires p.origin.FromDraft?
    ensures var t' := S.ConsumeAndReserve(t, p, operation, consumedAt, reservedAt, now).tables;
            t'.drafts == t.drafts && t'.receipts == t.receipts
  {
    var o := p.origin;
    var consumed := ConsumeSendConfirmation(t, p.user, o.confirmation, o.draft, o.version, HashPayload(p.payload),
                                            p.view.version, consumedAt);
    assert consumed.tables.drafts == t.drafts && consumed.tables.receipts == t.receipts;
    ReserveKeepsRows(consumed.tables, p, operation, reservedAt, now);
  }

  /** A draft is sent after a turn exactly if it was before or this turn marks it; and no draft disappears. */
  lemma TurnMarks(sys: System, m: Move, k: Owned<DraftId>)
    ensures IsSent(Take(sys, m).tables, k) <==> IsSent(sys.tables, k) || Marks(sys, m, k)
    ensures k in sys.tables.drafts ==> k in Take(sys, m).tables.drafts
  {
    match m.turn
    case Drafting(step) => DraftingMarks(sys, m, k);
    case BeginDraft(_, _, _, _, _, _, _, _, _) => BeginKeepsRows(sys, m);
    case BeginDirect(_, _, _, _, _, _, _) => BeginKeepsRows(sys, m);
    case Settle(id, outcome, now) =>
      if id in sys.waiting {
        V.SettlingIsQuiet(sys.tables, sys.waiting[id].plan, outcome, now);
      }
    case Mark(id) =>
    case Send(id) =>
    case Stop(id) =>
  }

  lemma DraftingMarks(sys: System, m: Move, k: Owned<DraftId>)
    requires m.turn.Drafting?
    ensures IsSent(Take(sys, m).tables, k) <==> IsSent(sys.tables, k)
    ensures k in sys.tables.drafts ==> k in Take(sys, m).tables.drafts
  {
    var step := m.turn.step;
    if Quiet(step) && FreshConfirmation(sys.confirmations, m.user, step) {
      DraftingIsAWrite(m.registry, sys.tables, m.user, step);
      var c := CommandFor(m.registry, sys.tables, m.user, step);
      if c.Some? {
        EditorialKeepsSent(sys.tables, m.user, c.value, k);
      }
    }
  }

  lemma EditorialKeepsSent(t: Tables, u: UserKey, c: Command, k: Owned<DraftId>)
    requires P.Editorial(c)
    ensures IsSent(Execute(t, u, c), k) <==> IsSent(t, k)
    ensures k in t.drafts ==> k in Execute(t, u, c).drafts
  {
    if k in t.drafts {
      D.WriteEvolves(t, u, c, k);
    }
    if IsSent(Execute(t, u, c), k) {
      D.OnlyMarkSentSends(t, u, c, k);
    }
  }

  // ----- sent means marked -----

  predicate MarkedAt(mailboxes: set<Owned<MailboxId>>, moves: seq<Move>, k: Owned<DraftId>, i: nat) {
    i < |moves| && Marks(Schedule(Idle(mailboxes), moves[..i]), moves[i], k)
  }

  ghost predicate EverMarked(mailboxes: set<Owned<MailboxId>>, moves: seq<Move>, k: Owned<DraftId>) {
    exists i: nat :: MarkedAt(mailboxes, moves, k, i)
  }

  lemma MarkedEarlier(mailboxes: set<Owned<MailboxId>>, moves: seq<Move>, k: Owned<DraftId>)
    requires moves != []
    ensures var n := |moves| - 1;
            EverMarked(mailboxes, moves, k)
            <==> EverMarked(mailboxes, moves[..n], k) || MarkedAt(mailboxes, moves, k, n)
  {
    var init := moves[..|moves| - 1];
    forall i: nat | i < |init| ensures MarkedAt(mailboxes, init, k, i) <==> MarkedAt(mailboxes, moves, k, i) {
      assert init[..i] == moves[..i];
    }
  }

  /** The row of a draft is sent exactly when some turn resumed a call of that draft after its receipt, naming an
      accepted recipient, had been stored. */
  lemma {:induction false} SentExactlyWhenMarked(
    mailboxes: set<Owned<MailboxId>>, moves: seq<Move>, k: Owned<DraftId>)
    ensures IsSent(Schedule(Idle(mailboxes), moves).tables, k) <==> EverMarked(mailboxes, moves, k)
  {
    if moves != [] {
      var init := moves[..|moves| - 1];
      SentExactlyWhenMarked(mailboxes, init, k);
      TurnMarks(Schedule(Idle(mailboxes), init), moves[|moves| - 1], k);
      MarkedEarlier(mailboxes, moves, k);
    }
  }

  // ----- accepted, and never marked -----

  /** No call waits on this key, but for at most this one. */
  predicate WaitsOnly(sys: System, key: Owned<SendKey>, who: Option<P.CallId>) {
    forall id <- sys.waiting :: P.KeyOf(sys.waiting[id].plan) == key ==> who == Some(id)
  }

  /** A receipt is stored for the draft, it is not marked sent, and at most one call is left that could mark it. */
  predicate Unmarked(sys: System, k: Owned<DraftId>, receipt: StoredReceipt, who: Option<P.CallId>) {
    && k in sys.tables.drafts && sys.tables.drafts[k].status == Editable
    && SendKeyOf(k) in sys.tables.receipts && sys.tables.receipts[SendKeyOf(k)] == receipt
    && WaitsOnly(sys, SendKeyOf(k), who)
  }

  /** With a receipt under its key, sending the draft again replays that receipt, or is refused if it was edited. */
  lemma ResendReplays(
    reg: S.Registry, t: Tables, k: Owned<DraftId>, c: Option<ConfirmationId>, seen: Option<nat>, checkedAt: Time)
    requires k in t.drafts && SendKeyOf(k) in t.receipts
    ensures S.PlanDraft(reg, t, k.user, k.id, c, seen, checkedAt)
         == if t.receipts[SendKeyOf(k)].payloadHash == HashPayload(t.drafts[k].payload)
            then Ok(S.Replay(t.receipts[SendKeyOf(k)].receipt)) else Err(IdempotencyConflict)
  {
  }

  lemma BeganIsOther(
    sys: System, id: P.CallId, planned: Result<S.Begun>, tx: Tx<S.Begun>, key: Owned<SendKey>, who: Option<P.CallId>)
    requires WaitsOnly(sys, key, who)
    requires planned.Ok? && planned.value.Deliver? ==> P.KeyOf(planned.value.plan) != key
    ensures WaitsOnly(Began(sys, id, planned, tx), key, who)
  {
  }

  lemma BeginIsOther(sys: System, m: Move, k: Owned<DraftId>, who: Option<P.CallId>)
    requires k in sys.tables.drafts && SendKeyOf(k) in sys.tables.receipts && WaitsOnly(sys, SendKeyOf(k), who)
    requires m.turn.BeginDraft? || m.turn.BeginDirect?
    ensures WaitsOnly(Take(sys, m), SendKeyOf(k), who)
  {
    var reg, t, u := m.registry, sys.tables, m.user;
    match m.turn
    case BeginDraft(id, d, c, seen, operation, checkedAt, consumedAt, reservedAt, now) =>
      if Owned(u, d) == k {
        ResendReplays(reg, t, k, c, seen, checkedAt);
      }
      V.PlansAreAdmissible(reg, t, u, d, c, seen, "", V.EmptyPayload(), checkedAt);
      BeganIsOther(sys, id, S.PlanDraft(reg, t, u, d, c, seen, checkedAt),
                   S.BeginSendDraft(reg, t, u, d, c, seen, operation, checkedAt, consumedAt, reservedAt, now),
                   SendKeyOf(k), who);
    case BeginDirect(id, token, payload, operation, checkedAt, reservedAt, now) =>
      V.PlansAreAdmissible(reg, t, u, "", None, None, token, payload, checkedAt);
      BeganIsOther(sys, id, S.PlanDirect(reg, t, u, token, payload, checkedAt),
                   S.BeginSendDirect(reg, t, u, token, payload, operation, checkedAt, reservedAt, now), SendKeyOf(k),
                   who);
  }

  lemma SettleKeepsReceipt(t: Tables, p: P.Plan, outcome: S.Outcome, now: Time, key: Owned<SendKey>)
    requires key in t.receipts
    ensures var t' := S.SettleSend(t, p, outcome, now).tables; key in t'.receipts && t'.receipts[key] == t.receipts[key]
  {
  }

  lemma TurnKeepsReceipt(sys: System, m: Move, key: Owned<SendKey>)
    requires key in sys.tables.receipts
    ensures var t' := Take(sys, m).tables; key in t'.receipts && t'.receipts[key] == sys.tables.receipts[key]
  {
    match m.turn
    case Drafting(step) =>
      if Quiet(step) && FreshConfirmation(sys.confirmations, m.user, step) {
        DraftingIsAWrite(m.registry, sys.tables, m.user, step);
        var c := CommandFor(m.registry, sys.tables, m.user, step);
        if c.Some? {
          D.WriteGrowsReceipts(sys.tables, m.user, c.value);
        }
      }
    case BeginDraft(_, _, _, _, _, _, _, _, _) => BeginKeepsRows(sys, m);
    case BeginDirect(_, _, _, _, _, _, _) => BeginKeepsRows(sys, m);
    case Settle(id, outcome, now) =>
      if id in sys.waiting {
        SettleKeepsReceipt(sys.tables, sys.waiting[id].plan, outcome, now, key);
      }
    case Mark(id) =>
    case Send(id) =>
    case Stop(id) =>
  }

  lemma TurnKeepsWaiters(sys: System, m: Move, k: Owned<DraftId>, who: Option<P.CallId>)
    requires k in sys.tables.drafts && SendKeyOf(k) in sys.tables.receipts && WaitsOnly(sys, SendKeyOf(k), who)
    ensures WaitsOnly(Take(sys, m), SendKeyOf(k), who)
    ensures m.turn.Stop? && who == Some(m.turn.id) ==> WaitsOnly(Take(sys, m), SendKeyOf(k), None)
  {
    if m.turn.BeginDraft? || m.turn.BeginDirect? {
      BeginIsOther(sys, m, k, who);
    }
  }

  /** Only the one call that may be left can change this, by being resumed. */
  lemma TurnKeepsUnmarked(sys: System, m: Move, k: Owned<DraftId>, receipt: StoredReceipt, who: Option<P.CallId>)
    requires Unmarked(sys, k, receipt, who) && (m.turn.Mark? ==> who != Some(m.turn.id))
    ensures Unmarked(Take(sys, m), k, receipt, who)
    ensures m.turn.Stop? && who == Some(m.turn.id) ==> Unmarked(Take(sys, m), k, receipt, None)
  {
    TurnMarks(sys, m, k);
    TurnKeepsReceipt(sys, m, SendKeyOf(k));
    TurnKeepsWaiters(sys, m, k, who);
  }

  /** An accepted draft whose holder crashed before it resumed stays editable for ever: whatever calls follow, its
      receipt stands, every further send of it replays that receipt or is refused, and none marks it. */
  lemma {:induction false} UnmarkedForEver(sys: System, moves: seq<Move>, k: Owned<DraftId>, receipt: StoredReceipt)
    requires Unmarked(sys, k, receipt, None)
    ensures Unmarked(Schedule(sys, moves), k, receipt, None)
    ensures forall reg, c, seen, checkedAt ::
              var begun := S.PlanDraft(reg, Schedule(sys, moves).tables, k.user, k.id, c, seen, checkedAt);
              begun == Ok(S.Replay(receipt.receipt)) || begun == Err(IdempotencyConflict)
  {
    if moves != [] {
      UnmarkedForEver(sys, moves[..|moves| - 1], k, receipt);
      TurnKeepsUnmarked(Schedule(sys, moves[..|moves| - 1]), moves[|moves| - 1], k, receipt, None);
    }
    forall reg, c, seen, checkedAt
      ensures var begun := S.PlanDraft(reg, Schedule(sys, moves).tables, k.user, k.id, c, seen, checkedAt);
              begun == Ok(S.Replay(receipt.receipt)) || begun == Err(IdempotencyConflict)
    {
      ResendReplays(reg, Schedule(sys, moves).tables, k, c, seen, checkedAt);
    }
  }

  // ----- one waiting call per key -----

  predicate Exclusive(sys: System) {
    && (forall id <- sys.waiting :: id in sys.ids && P.KeyOf(sys.waiting[id].plan) in sys.tables.operations)
    && forall i, j | i in sys.waiting && j in sys.waiting
                     && P.KeyOf(sys.waiting[i].plan) == P.KeyOf(sys.waiting[j].plan) :: i == j
  }

  /** A call that begins to wait has reserved a new key. */
  predicate ReservesNew(t: Tables, planned: Result<S.Begun>, tx: Tx<S.Begun>) {
    && t.operations.Keys <= tx.tables.operations.Keys
    && (planned.Ok? && planned.value.Deliver? && tx.result.Ok? ==>
          && tx.result.value.Deliver?
          && P.KeyOf(planned.value.plan) !in t.operations && P.KeyOf(planned.value.plan) in tx.tables.operations)
  }

  lemma ReserveIsNew(t: Tables, p: P.Plan, operation: OperationId, reservedAt: Time, now: Time)
    requires P.KeyOf(p) !in t.receipts
    ensures ReservesNew(t, Ok(S.Deliver(p)), S.ReservePlan(t, p, operation, reservedAt, now))
  {
  }

  lemma ConsumeAndReserveIsNew(
    t: Tables, p: P.Plan, operation: OperationId, consumedAt: Time, reservedAt: Time, now: Time)
    requires p.origin.FromDraft? && P.KeyOf(p) !in t.receipts
    ensures ReservesNew(t, Ok(S.Deliver(p)), S.ConsumeAndReserve(t, p, operation, consumedAt, reservedAt, now))
  {
    var o := p.origin;
    var consumed := ConsumeSendConfirmation(t, p.user, o.confirmation, o.draft, o.version, HashPayload(p.payload),
                                            p.view.version, consumedAt);
    assert consumed.tables.operations == t.operations && consumed.tables.receipts == t.receipts;
    ReserveIsNew(consumed.tables, p, operation, reservedAt, now);
  }

  lemma BeganIsExclusive(sys: System, id: P.CallId, planned: Result<S.Begun>, tx: Tx<S.Begun>)
    requires Exclusive(sys) && id !in sys.ids && ReservesNew(sys.tables, planned, tx)
    ensures Exclusive(Began(sys, id, planned, tx))
  {
  }

  lemma PlanIsUnsent(
    reg: S.Registry, t: Tables, u: UserKey, d: DraftId, c: Option<ConfirmationId>, seen: Option<nat>, token: string,
    payload: Payload, checkedAt: Time)
    ensures var b := S.PlanDraft(reg, t, u, d, c, seen, checkedAt);
            b.Ok? && b.value.Deliver? ==> P.KeyOf(b.value.plan) !in t.receipts
    ensures var b := S.PlanDirect(reg, t, u, token, payload, checkedAt);
            b.Ok? && b.value.Deliver? ==> P.KeyOf(b.value.plan) !in t.receipts
  {
  }

  lemma BeginIsExclusive(sys: System, m: Move)
    requires Exclusive(sys) && (m.turn.BeginDraft? || m.turn.BeginDirect?)
    ensures Exclusive(Take(sys, m))
  {
    var reg, t, u := m.registry, sys.tables, m.user;
    match m.turn
    case BeginDraft(id, d, c, seen, operation, checkedAt, consumedAt, reservedAt, now) =>
      var planned := S.PlanDraft(reg, t, u, d, c, seen, checkedAt);
      PlanIsUnsent(reg, t, u, d, c, seen, "", V.EmptyPayload(), checkedAt);
      V.PlansAreAdmissible(reg, t, u, d, c, seen, "", V.EmptyPayload(), checkedAt);
      if id !in sys.ids && planned.Ok? && planned.value.Deliver? {
        ConsumeAndReserveIsNew(t, planned.value.plan, operation, consumedAt, reservedAt, now);
        BeganIsExclusive(sys, id, planned, S.BeginSendDraft(reg, t, u, d, c, seen, operation, checkedAt, consumedAt,
                                                            reservedAt, now));
      }
    case BeginDirect(id, token, payload, operation, checkedAt, reservedAt, now) =>
      var planned := S.PlanDirect(reg, t, u, token, payload, checkedAt);
      PlanIsUnsent(reg, t, u, "", None, None, token, payload, checkedAt);
      if id !in sys.ids && planned.Ok? && planned.value.Deliver? {
        ReserveIsNew(t, planned.value.plan, operation, reservedAt, now);
        BeganIsExclusive(sys, id, planned, S.BeginSendDirect(reg, t, u, token, payload, operation, checkedAt,
                                                             reservedAt, now));
      }
  }

  lemma SettleKeepsOperations(t: Tables, p: P.Plan, outcome: S.Outcome, now: Time)
    ensures t.operations.Keys <= S.SettleSend(t, p, outcome, now).tables.operations.Keys
  {
  }

  lemma TurnKeepsExclusive(sys: System, m: Move)
    requires Exclusive(sys)
    ensures Exclusive(Take(sys, m))
  {
    match m.turn
    case Drafting(step) =>
      if Quiet(step) && FreshConfirmation(sys.confirmations, m.user, step) {
        DraftingIsAWrite(m.registry, sys.tables, m.user, step);
        var c := CommandFor(m.registry, sys.tables, m.user, step);
        if c.Some? {
          OtherWritesKeep(sys.tables, m.user, c.value);
        }
      }
    case BeginDraft(_, _, _, _, _, _, _, _, _) => BeginIsExclusive(sys, m);
    case BeginDirect(_, _, _, _, _, _, _) => BeginIsExclusive(sys, m);
    case Settle(id, outcome, now) =>
      if id in sys.waiting {
        SettleKeepsOperations(sys.tables, sys.waiting[id].plan, outcome, now);
      }
    case Mark(id) =>
    case Send(id) =>
    case Stop(id) =>
  }

  lemma {:induction false} ExclusiveAlways(mailboxes: set<Owned<MailboxId>>, moves: seq<Move>)
    ensures Exclusive(Schedule(Idle(mailboxes), moves))
  {
    if moves != [] {
      ExclusiveAlways(mailboxes, moves[..|moves| - 1]);
      TurnKeepsExclusive(Schedule(Idle(mailboxes), moves[..|moves| - 1]), moves[|moves| - 1]);
    }
  }

  // ----- the holder decides -----

  /** What becomes of a waiting call in this schedule: the first of its being resumed and its being stopped. */
  datatype Fate = Pending | Resumed | Stopped

  function FateOf(moves: seq<Move>, id: P.CallId): Fate {
    if moves == [] then Pending
    else
      var fate, turn := FateOf(moves[..|moves| - 1], id), moves[|moves| - 1].turn;
      if fate != Pending then fate
      else if turn == Mark(id) then Resumed
      else if turn == Stop(id) then Stopped
      else Pending
  }

  /** The call waits with its draft's stored receipt, which names an accepted recipient. */
  predicate ReadyToMark(sys: System, id: P.CallId, k: Owned<DraftId>) {
    && id in sys.ids && id in sys.waiting
    && var w := sys.waiting[id];
       && w.stage.Stored? && |w.stage.receipt.accepted| > 0 && w.plan.origin.FromDraft?
       && P.KeyOf(w.plan) == SendKeyOf(k)
  }

  lemma TurnKeepsReady(sys: System, m: Move, id: P.CallId, k: Owned<DraftId>)
    requires ReadyToMark(sys, id, k) && m.turn != Mark(id) && m.turn != Stop(id)
    ensures ReadyToMark(Take(sys, m), id, k)
  {
  }

  lemma StoredReceiptOf(mailboxes: set<Owned<MailboxId>>, moves: seq<Move>, id: P.CallId)
    requires var sys := Schedule(Idle(mailboxes), moves); id in sys.waiting && sys.waiting[id].stage.Stored?
    ensures P.KeyOf(Schedule(Idle(mailboxes), moves).waiting[id].plan)
            in Schedule(Idle(mailboxes), moves).tables.receipts
  {
    var steps := ServiceIsSimulated(mailboxes, moves);
    var s, sys := P.Run(P.Start(mailboxes), steps), Schedule(Idle(mailboxes), moves);
    D.SentMeansAccepted(mailboxes, steps);
    assert WaitsAs(s.calls, id, sys.waiting[id]);
    assert D.ReceiptFor(s.tables, P.KeyOf(s.calls[id].plan), s.calls[id].phase.result);
  }

  /** How a ready call's draft stands after these moves. */
  predicate Stands(sys: System, fate: Fate, id: P.CallId, k: Owned<DraftId>, receipt: StoredReceipt) {
    match fate
    case Pending => ReadyToMark(sys, id, k) && Unmarked(sys, k, receipt, Some(id))
    case Resumed => IsSent(sys.tables, k)
    case Stopped => Unmarked(sys, k, receipt, None)
  }

  lemma {:induction false} FateDecides(
    sys: System, moves: seq<Move>, id: P.CallId, k: Owned<DraftId>, receipt: StoredReceipt)
    requires ReadyToMark(sys, id, k) && Unmarked(sys, k, receipt, Some(id))
    ensures Stands(Schedule(sys, moves), FateOf(moves, id), id, k, receipt)
  {
    if moves != [] {
      var init, m := moves[..|moves| - 1], moves[|moves| - 1];
      var before := Schedule(sys, init);
      FateDecides(sys, init, id, k, receipt);
      match FateOf(init, id)
      case Resumed => TurnMarks(before, m, k);
      case Stopped => TurnKeepsUnmarked(before, m, k, receipt, None);
      case Pending =>
        if m.turn == Mark(id) {
          TurnMarks(before, m, k);
        } else {
          TurnKeepsUnmarked(before, m, k, receipt, Some(id));
          if m.turn != Stop(id) {
            TurnKeepsReady(before, m, id, k);
          }
        }
    }
  }

  /** Once a call of a draft has stored a receipt naming an accepted recipient, the draft is sent after any further
      turns exactly if the call was resumed before its process stopped; if it stopped, the draft stays editable. */
  lemma HolderDecides(
    mailboxes: set<Owned<MailboxId>>, earlier: seq<Move>, moves: seq<Move>, id: P.CallId, k: Owned<DraftId>)
    requires ReadyToMark(Schedule(Idle(mailboxes), earlier), id, k)
    requires var t := Schedule(Idle(mailboxes), earlier).tables; k in t.drafts && t.drafts[k].status == Editable
    ensures var sys := Schedule(Idle(mailboxes), earlier);
            var after := Schedule(sys, moves);
            && SendKeyOf(k) in sys.tables.receipts
            && (IsSent(after.tables, k) <==> FateOf(moves, id) == Resumed)
            && (FateOf(moves, id) == Stopped ==> Unmarked(after, k, sys.tables.receipts[SendKeyOf(k)], None))
  {
    var sys := Schedule(Idle(mailboxes), earlier);
    ExclusiveAlways(mailboxes, earlier);
    StoredReceiptOf(mailboxes, earlier, id);
    FateDecides(sys, moves, id, k, sys.tables.receipts[SendKeyOf(k)]);
  }
}
