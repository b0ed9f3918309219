/** Every delivery of a draft was confirmed: a one-time confirmation, prepared for exactly that payload, draft
    version and policy version, unexpired, with no edit and no policy change in between. */
module ConfirmedDelivery {
  import opened MailTypes
  import opened Ledger
  import opened LedgerInvariants
  import opened SendProtocol
  import opened AtMostOnce

  /** No edit of the draft and no change of its mailbox's policy in log[from..to]. */
  predicate Undisturbed(log: seq<Event>, from: nat, to: nat, u: UserKey, d: DraftId, m: MailboxId) {
    forall n | from <= n < to && n < |log| :: log[n] != Edited(u, d) && log[n] != PolicyChanged(u, m)
  }

  /** The row still in the table was prepared at k and nothing disturbed its draft since. */
  predicate RowFresh(cid: Owned<ConfirmationId>, row: Confirmation, k: nat, log: seq<Event>,
                     drafts: map<Owned<DraftId>, Draft>)
  {
    && k < |log| && Owned(cid.user, row.draft) in drafts
    && var m := drafts[Owned(cid.user, row.draft)].mailbox;
       && log[k] == Prepared(cid.user, row.draft, m, cid.id, row.draftVersion, row.payloadHash, row.policyVersion,
                             row.expiresAt)
       && Undisturbed(log, k + 1, |log|, cid.user, row.draft, m)
  }

  predicate RowsFresh(t: Tables, prepared: map<Owned<ConfirmationId>, nat>, log: seq<Event>) {
    forall c <- t.confirmations :: c in prepared && RowFresh(c, t.confirmations[c], prepared[c], log, t.drafts)
  }

  /** Event j consumed what event k prepared, before its expiry and undisturbed. */
  predicate Redeems(log: seq<Event>, j: nat, k: nat) {
    && k < j < |log| && log[j].Consumed? && log[k].Prepared?
    && var p := log[k];
       && log[j] == Consumed(log[j].call, p.user, p.draft, p.confirmation, p.version, p.hash, p.policyVersion,
                             log[j].at)
       && log[j].at < p.expiresAt
       && Undisturbed(log, k + 1, j, p.user, p.draft, p.mailbox)
  }

  function ConfirmationOf(e: Event): Owned<ConfirmationId>
    requires e.Consumed? || e.Prepared?
  {
    Owned(e.user, e.confirmation)
  }

  predicate UseOk(
    j: nat, log: seq<Event>, prepared: map<Owned<ConfirmationId>, nat>,
    rows: map<Owned<ConfirmationId>, Confirmation>)
    requires j < |log| && log[j].Consumed?
  {
    var c := ConfirmationOf(log[j]);
    c in prepared && Redeems(log, j, prepared[c]) && (c in rows ==> rows[c].usedAt.Some?)
  }

  predicate UsesOk(
    log: seq<Event>, prepared: map<Owned<ConfirmationId>, nat>, rows: map<Owned<ConfirmationId>, Confirmation>)
  {
    forall j: nat | j < |log| && log[j].Consumed? :: UseOk(j, log, prepared, rows)
  }

  predicate UsedOnce(log: seq<Event>) {
    forall i, j | 0 <= i < |log| && 0 <= j < |log| && log[i].Consumed? && log[j].Consumed?
                  && ConfirmationOf(log[i]) == ConfirmationOf(log[j]) :: i == j
  }

  ghost predicate Guarded(s: State) {
    && RowsFresh(s.tables, s.prepared, s.log)
    && UsesOk(s.log, s.prepared, s.tables.confirmations)
    && UsedOnce(s.log)
  }

  /** Drafts are never dropped and never move to another mailbox. */
  predicate DraftsStay(t: Tables, t': Tables) {
    forall k <- t.drafts :: k in t'.drafts && t'.drafts[k].mailbox == t.drafts[k].mailbox
  }

  // ----- steps that leave the surviving rows as they are -----

  lemma RowStaysFresh(
    c: Owned<ConfirmationId>, row: Confirmation, k: nat, log: seq<Event>, log': seq<Event>, t: Tables, t': Tables)
    requires RowFresh(c, row, k, log, t.drafts) && DraftsStay(t, t')
    requires c in t.confirmations && t.confirmations[c].draft == row.draft
    requires log' == log || (|log'| == |log| + 1 && log'[..|log|] == log && Spares(log'[|log|], t, c))
    ensures RowFresh(c, row, k, log', t'.drafts)
  {
    forall n | k + 1 <= n < |log'|
      ensures log'[n] != Edited(c.user, row.draft)
      ensures log'[n] != PolicyChanged(c.user, t.drafts[Owned(c.user, row.draft)].mailbox)
    {
      assert n < |log| ==> log'[n] == log[n];
    }
  }

  /** Rows may vanish; the log may grow by one event that does not disturb the survivors. */
  lemma ShrinkKeepsGuarded(s: State, s': State)
    requires Guarded(s) && DraftsStay(s.tables, s'.tables) && s'.prepared == s.prepared
    requires forall c <- s'.tables.confirmations ::
               c in s.tables.confirmations && s'.tables.confirmations[c] == s.tables.confirmations[c]
    requires s'.log == s.log || (|s'.log| == |s.log| + 1 && s'.log[..|s.log|] == s.log && !s'.log[|s.log|].Consumed?)
    requires s'.log != s.log ==> forall c <- s'.tables.confirmations :: Spares(s'.log[|s.log|], s.tables, c)
    ensures Guarded(s')
  {
    forall c <- s'.tables.confirmations
      ensures c in s'.prepared && RowFresh(c, s'.tables.confirmations[c], s'.prepared[c], s'.log, s'.tables.drafts)
    {
      var row := s.tables.confirmations[c];
      assert RowFresh(c, row, s.prepared[c], s.log, s.tables.drafts);
      assert s'.log != s.log ==> Spares(s'.log[|s.log|], s.tables, c);
      RowStaysFresh(c, row, s.prepared[c], s.log, s'.log, s.tables, s'.tables);
    }
    UsesExtend(s.log, s.prepared, s.tables.confirmations, s'.log, s'.prepared, s'.tables.confirmations);
  }

  /** The event does not disturb the draft this row was prepared for. */
  predicate Spares(e: Event, t: Tables, c: Owned<ConfirmationId>)
    requires c in t.confirmations
  {
    var d := Owned(c.user, t.confirmations[c].draft);
    d in t.drafts ==> e != Edited(d.user, d.id) && e != PolicyChanged(d.user, t.drafts[d].mailbox)
  }

  lemma UsesExtend(
    log: seq<Event>, prepared: map<Owned<ConfirmationId>, nat>, rows: map<Owned<ConfirmationId>, Confirmation>,
    log': seq<Event>, prepared': map<Owned<ConfirmationId>, nat>, rows': map<Owned<ConfirmationId>, Confirmation>)
    requires UsesOk(log, prepared, rows) && UsedOnce(log)
    requires log' == log || (|log'| == |log| + 1 && log'[..|log|] == log && !log'[|log|].Consumed?)
    requires forall c <- prepared :: c in prepared' && prepared'[c] == prepared[c]
    requires forall c <- rows' :: (c in rows && rows'[c] == rows[c]) || c !in prepared
    ensures UsesOk(log', prepared', rows') && UsedOnce(log')
  {
    forall j: nat | j < |log'| && log'[j].Consumed? ensures UseOk(j, log', prepared', rows') {
      assert j < |log| && log'[j] == log[j];
      assert UseOk(j, log, prepared, rows);
      assert Redeems(log, j, prepared[ConfirmationOf(log[j])]);
      assert log'[prepared[ConfirmationOf(log[j])]] == log[prepared[ConfirmationOf(log[j])]];
    }
  }

  predicate EditsDraft(c: Command) {
    c.DoUpdateDraft? || c.DoAddAttachment? || c.DoRemoveAttachment?
  }

  /** All three ways of editing go through one table update. */
  predicate Edits(t: Tables, t': Tables, u: UserKey, d: DraftId) {
    && t'.confirmations == WithoutDraft(t.confirmations, u, d) && Owned(u, d) in t.drafts && Owned(u, d) in t'.drafts
    && t'.drafts == t.drafts[Owned(u, d) := t'.drafts[Owned(u, d)]]
    && t'.drafts[Owned(u, d)].mailbox == t.drafts[Owned(u, d)].mailbox
  }

  lemma UpdateEdits(t: Tables, u: UserKey, d: DraftId, expected: nat, payload: Payload, now: Time)
    ensures var tx := UpdateDraft(t, u, d, expected, payload, now);
            if tx.result.Ok? then Edits(t, tx.tables, u, d) else tx.tables == t
  {
  }

  lemma EditShape(s: State, u: UserKey, c: Command)
    requires EditsDraft(c)
    ensures var s' := WriteStep(s, u, c);
            s' == s || (&& s'.log == s.log + [Edited(u, c.d)] && s'.prepared == s.prepared
                        && Edits(s.tables, s'.tables, u, c.d))
  {
    if Owned(u, c.d) in s.tables.drafts {
      var p := s.tables.drafts[Owned(u, c.d)].payload;
      match c
      case DoUpdateDraft(d, expected, payload, now) => UpdateEdits(s.tables, u, d, expected, payload, now);
      case DoAddAttachment(d, expected, a, now) =>
        UpdateEdits(s.tables, u, d, expected, p.(attachments := p.attachments + [a]), now);
      case DoRemoveAttachment(d, expected, id, now) =>
        UpdateEdits(s.tables, u, d, expected, p.(attachments := Without(p.attachments, id)), now);
    }
  }

  lemma EditKeepsGuarded(s: State, s': State, u: UserKey, d: DraftId)
    requires Guarded(s)
    requires s'.log == s.log + [Edited(u, d)] && s'.prepared == s.prepared && Edits(s.tables, s'.tables, u, d)
    ensures Guarded(s')
  {
    ShrinkKeepsGuarded(s, s');
  }

  predicate ChangesPolicy(s: State, s': State, u: UserKey, m: MailboxId) {
    && s'.log == s.log + [PolicyChanged(u, m)] && s'.prepared == s.prepared && s'.tables.drafts == s.tables.drafts
    && s'.tables.confirmations == WithoutMailbox(s.tables, u, m)
  }

  lemma PolicyShape(s: State, u: UserKey, c: Command)
    requires c.DoSetPolicy?
    ensures WriteStep(s, u, c) == s || ChangesPolicy(s, WriteStep(s, u, c), u, c.m)
  {
  }

  lemma PolicyKeepsGuarded(s: State, s': State, u: UserKey, m: MailboxId)
    requires Guarded(s) && ChangesPolicy(s, s', u, m)
    ensures Guarded(s')
  {
    ShrinkKeepsGuarded(s, s');
  }

  lemma CreateKeepsGuarded(s: State, u: UserKey, c: Command)
    requires Guarded(s) && c.DoCreateDraft?
    ensures Guarded(WriteStep(s, u, c))
  {
    var s' := WriteStep(s, u, c);
    if s' != s {
      ShrinkKeepsGuarded(s, s');
    }
  }

  /** The draft's rows are replaced by one new row, and the log says so. */
  predicate Prepares(s: State, s': State, id: Owned<ConfirmationId>, row: Confirmation) {
    && id !in s.prepared && Owned(id.user, row.draft) in s.tables.drafts
    && s'.log == s.log + [Prepared(id.user, row.draft, s.tables.drafts[Owned(id.user, row.draft)].mailbox, id.id,
                                   row.draftVersion, row.payloadHash, row.policyVersion, row.expiresAt)]
    && s'.prepared == s.prepared[id := |s.log|] && s'.tables.drafts == s.tables.drafts
    && s'.tables.confirmations == WithoutDraft(s.tables.confirmations, id.user, row.draft)[id := row]
  }

  lemma PrepareShape(s: State, u: UserKey, c: Command)
    requires c.DoPrepare?
    ensures var s' := WriteStep(s, u, c);
            s' == s || (Owned(u, c.c) in s'.tables.confirmations
                        && Prepares(s, s', Owned(u, c.c), s'.tables.confirmations[Owned(u, c.c)]))
  {
  }

  lemma PrepareKeepsGuarded(s: State, s': State, id: Owned<ConfirmationId>, row: Confirmation)
    requires Guarded(s) && Prepares(s, s', id, row)
    ensures Guarded(s')
  {
    var e := s'.log[|s.log|];
    assert s'.log[..|s.log|] == s.log && e.Prepared?;
    assert RowFresh(id, row, |s.log|, s'.log, s'.tables.drafts);
    forall r <- s'.tables.confirmations
      ensures r in s'.prepared && RowFresh(r, s'.tables.confirmations[r], s'.prepared[r], s'.log, s'.tables.drafts)
    {
      if r != id {
        assert RowFresh(r, s.tables.confirmations[r], s.prepared[r], s.log, s.tables.drafts);
        RowStaysFresh(r, s.tables.confirmations[r], s.prepared[r], s.log, s'.log, s.tables, s'.tables);
      }
    }
    UsesExtend(s.log, s.prepared, s.tables.confirmations, s'.log, s'.prepared, s'.tables.confirmations);
  }

  lemma ConsumeEffect(s: State, id: CallId, now: Time)
    requires id in s.calls
    ensures var s' := ConsumeStep(s, id, now);
            && s'.prepared == s.prepared && s'.tables.drafts == s.tables.drafts
            && if s'.log == s.log then s'.tables == s.tables
               else
                 && |s'.log| == |s.log| + 1 && s'.log == s.log + [s'.log[|s.log|]] && s'.log[|s.log|].Consumed?
                 && Matches(s.tables.confirmations, s'.log[|s.log|])
                 && var c := ConfirmationOf(s'.log[|s.log|]);
                    s'.tables.confirmations
                      == s.tables.confirmations[c := s.tables.confirmations[c].(usedAt := Some(now))]
  {
  }

  /** The consumed event agrees with an unused, unexpired row. */
  predicate Matches(rows: map<Owned<ConfirmationId>, Confirmation>, e: Event)
    requires e.Consumed?
  {
    && ConfirmationOf(e) in rows
    && var row := rows[ConfirmationOf(e)];
       && row.usedAt.None? && e.at < row.expiresAt && row.draft == e.draft && row.draftVersion == e.version
       && row.payloadHash == e.hash && row.policyVersion == e.policyVersion
  }

  lemma ConsumeKeepsGuarded(s: State, id: CallId, now: Time)
    requires Guarded(s) && id in s.calls
    ensures Guarded(ConsumeStep(s, id, now))
  {
    var s' := ConsumeStep(s, id, now);
    ConsumeEffect(s, id, now);
    if s'.log != s.log {
      ConsumedRows(s, s', s'.log[|s.log|], now);
      ConsumedUses(s, s', s'.log[|s.log|], now);
    }
  }

  function UsedRows(rows: map<Owned<ConfirmationId>, Confirmation>, c: Owned<ConfirmationId>, now: Time)
    : map<Owned<ConfirmationId>, Confirmation>
    requires c in rows
  {
    rows[c := rows[c].(usedAt := Some(now))]
  }

  lemma ConsumedRows(s: State, s': State, e: Event, now: Time)
    requires RowsFresh(s.tables, s.prepared, s.log)
    requires e.Consumed? && Matches(s.tables.confirmations, e) && s'.log == s.log + [e]
    requires s'.prepared == s.prepared && s'.tables.drafts == s.tables.drafts
    requires s'.tables.confirmations == UsedRows(s.tables.confirmations, ConfirmationOf(e), now)
    ensures RowsFresh(s'.tables, s'.prepared, s'.log)
  {
    forall r <- s'.tables.confirmations
      ensures r in s'.prepared && RowFresh(r, s'.tables.confirmations[r], s'.prepared[r], s'.log, s'.tables.drafts)
    {
      assert RowFresh(r, s.tables.confirmations[r], s.prepared[r], s.log, s.tables.drafts);
    }
  }

  lemma ConsumedUses(s: State, s': State, e: Event, now: Time)
    requires RowsFresh(s.tables, s.prepared, s.log) && UsesOk(s.log, s.prepared, s.tables.confirmations)
             && UsedOnce(s.log)
    requires e.Consumed? && Matches(s.tables.confirmations, e) && s'.log == s.log + [e] && s'.prepared == s.prepared
    requires s'.tables.confirmations == UsedRows(s.tables.confirmations, ConfirmationOf(e), now)
    ensures UsesOk(s'.log, s'.prepared, s'.tables.confirmations) && UsedOnce(s'.log)
  {
    var c := ConfirmationOf(e);
    assert RowFresh(c, s.tables.confirmations[c], s.prepared[c], s.log, s.tables.drafts);
    assert Redeems(s'.log, |s.log|, s.prepared[c]);
    forall j: nat | j < |s'.log| && s'.log[j].Consumed?
      ensures UseOk(j, s'.log, s'.prepared, s'.tables.confirmations) && (j < |s.log| ==> ConfirmationOf(s.log[j]) != c)
    {
      if j < |s.log| {
        assert s'.log[j] == s.log[j];
        assert UseOk(j, s.log, s.prepared, s.tables.confirmations);
        var k := s.prepared[ConfirmationOf(s.log[j])];
        assert Redeems(s.log, j, k) && s'.log[k] == s.log[k];
        assert Redeems(s'.log, j, k);
      }
    }
  }

  lemma CompleteEffect(s: State, id: CallId, fault: CompletionFault)
    requires id in s.calls
    ensures var s' := CompleteStep(s, id, fault);
            && s'.prepared == s.prepared && s'.tables.confirmations == s.tables.confirmations
            && s'.tables.drafts == s.tables.drafts
            && (s'.log == s.log || s'.log == s.log + [AnswerLost(id, KeyOf(s.calls[id].plan))])
  {
  }

  lemma ReserveEffect(s: State, id: CallId, operation: OperationId, checkedAt: Time, now: Time)
    requires id in s.calls
    ensures var s' := ReserveStep(s, id, operation, checkedAt, now);
            && s'.prepared == s.prepared && s'.tables.confirmations == s.tables.confirmations
            && s'.tables.drafts == s.tables.drafts
            && (s'.log == s.log
                || s'.log
                   == s.log + [Reserved(id, KeyOf(s.calls[id].plan), HashPayload(s.calls[id].plan.payload), now)])
  {
  }

  predicate Harmless(e: Event) {
    e.Reserved? || e.Submitted? || e.AnswerLost? || e.GaveUp? || e.MarkedSent?
  }

  /** Rows, preparations and drafts stay, and the log grows by one harmless event at most. */
  predicate Undisturbing(s: State, s': State) {
    && s'.prepared == s.prepared && s'.tables.confirmations == s.tables.confirmations
    && DraftsStay(s.tables, s'.tables)
    && (s'.log == s.log
        || (|s'.log| == |s.log| + 1 && s'.log[..|s.log|] == s.log && Harmless(s'.log[|s.log|])))
  }

  lemma OtherActEffect(s: State, id: CallId, action: Action)
    requires id in s.calls && !action.Consume?
    ensures Undisturbing(s, ActStep(s, id, action))
  {
    match action
    case Reserve(operation, checkedAt, now) => ReserveEffect(s, id, operation, checkedAt, now);
    case Complete(fault) => CompleteEffect(s, id, fault);
    case Submit =>
    case GiveUp(now) =>
    case MarkSent =>
    case _ =>
  }

  lemma UndisturbingKeepsGuarded(s: State, s': State)
    requires Guarded(s) && Undisturbing(s, s')
    ensures Guarded(s')
  {
    ShrinkKeepsGuarded(s, s');
  }

  lemma ActKeepsGuarded(s: State, id: CallId, action: Action)
    requires Guarded(s) && id in s.calls
    ensures Guarded(ActStep(s, id, action))
  {
    match action
    case Consume(now) => ConsumeKeepsGuarded(s, id, now);
    case _ =>
      OtherActEffect(s, id, action);
      UndisturbingKeepsGuarded(s, ActStep(s, id, action));
  }

  lemma GuardedStep(s: State, step: Step)
    requires Guarded(s)
    ensures Guarded(Do(s, step))
  {
    match step
    case Enter(_, _) =>
    case Write(u, c) =>
      if c.DoPrepare? {
        PrepareShape(s, u, c);
        if WriteStep(s, u, c) != s {
          var s' := WriteStep(s, u, c);
          PrepareKeepsGuarded(s, s', Owned(u, c.c), s'.tables.confirmations[Owned(u, c.c)]);
        }
      } else if c.DoCreateDraft? {
        CreateKeepsGuarded(s, u, c);
      } else if c.DoSetPolicy? {
        PolicyShape(s, u, c);
        if WriteStep(s, u, c) != s {
          PolicyKeepsGuarded(s, WriteStep(s, u, c), u, c.m);
        }
      } else if EditsDraft(c) {
        EditShape(s, u, c);
        if WriteStep(s, u, c) != s {
          EditKeepsGuarded(s, WriteStep(s, u, c), u, c.d);
        }
      }
    case Act(id, action) =>
      if id in s.calls {
        ActKeepsGuarded(s, id, action);
      }
  }

  lemma {:induction false} GuardedAlways(mailboxes: set<Owned<MailboxId>>, steps: seq<Step>)
    ensures Guarded(Run(Start(mailboxes), steps))
  {
    if steps != [] {
      GuardedAlways(mailboxes, steps[..|steps| - 1]);
      GuardedStep(Run(Start(mailboxes), steps[..|steps| - 1]), steps[|steps| - 1]);
    }
  }

  /** Submission i of a draft was confirmed by event j, made by the same call for the very payload it submitted. */
  predicate ConfirmedBy(log: seq<Event>, i: nat, j: nat) {
    && j < i < |log| && log[i].Submitted? && log[j].Consumed? && log[j].call == log[i].call
    && log[i].key == Owned(log[j].user, DraftKey(log[j].draft)) && log[j].hash == HashPayload(log[i].payload)
  }

  lemma DeliveryIsConfirmed(mailboxes: set<Owned<MailboxId>>, steps: seq<Step>)
    ensures var log := Run(Start(mailboxes), steps).log;
            // every submission of a draft redeems a confirmation,
            && (forall i: nat | i < |log| && log[i].Submitted? && log[i].key.id.DraftKey? ::
                  exists j: nat, k: nat :: ConfirmedBy(log, i, j) && Redeems(log, j, k))
            // no two submissions redeem through the same event, and no confirmation is redeemed twice
            && (forall i: nat, i': nat, j: nat | ConfirmedBy(log, i, j) && ConfirmedBy(log, i', j) :: i == i')
            && UsedOnce(log)
  {
    var s := Run(Start(mailboxes), steps);
    var log := s.log;
    SoundAlways(mailboxes, steps);
    GuardedAlways(mailboxes, steps);
    forall i: nat | i < |log| && log[i].Submitted?
      ensures log[i].call in s.calls && s.calls[log[i].call].submission == Some(i)
      ensures log[i].key.id.DraftKey? ==> exists j: nat, k: nat :: ConfirmedBy(log, i, j) && Redeems(log, j, k)
    {
      assert EventAt(i, log, s.calls);
      var c := s.calls[log[i].call];
      assert PhaseOk(c) && PositionsOk(log[i].call, c, log);
      if log[i].key.id.DraftKey? {
        var j := c.consumption.value;
        assert UseOk(j, log, s.prepared, s.tables.confirmations);
        assert ConfirmedBy(log, i, j) && Redeems(log, j, s.prepared[ConfirmationOf(log[j])]);
      }
    }
  }
}
