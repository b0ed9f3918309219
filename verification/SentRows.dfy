/** When the row of a sent draft is what was delivered. Marking a draft sent does not check its version, so an edit
    made in flight gets into the row; its version tells exactly whether one did. */
module SentRows {
  import opened MailTypes
  import opened LedgerInvariants
  import opened SendProtocol
  import opened AtMostOnce
  import opened AuditTrail
  import opened ConfirmedDelivery
  import opened ProtocolLedger
  import opened DraftLifecycle
  import opened Deliveries

  /** How often the log says this draft was edited. */
  function Edits(log: seq<Event>, k: Owned<DraftId>): nat {
    multiset(log)[Edited(k.user, k.id)]
  }

  lemma EditsAppend(log: seq<Event>, e: Event, k: Owned<DraftId>)
    ensures Edits(log + [e], k) == Edits(log, k) + if e == Edited(k.user, k.id) then 1 else 0
  {
  }

  // ----- what a step does to the drafts -----

  function DraftOfEvent(e: Event): Owned<DraftId>
    requires e.Prepared? || e.MarkedSent? || e.Edited?
  {
    Owned(e.user, e.draft)
  }

  /** A confirmation is prepared for the version the draft has. */
  predicate PreparesCurrent(e: Event, drafts: map<Owned<DraftId>, Draft>) {
    e.Prepared? ==>
      && DraftOfEvent(e) in drafts && drafts[DraftOfEvent(e)].status == Editable
      && e.version == drafts[DraftOfEvent(e)].version
  }

  /** The drafts stay as they are, and the log grows by one event at most, which is neither an edit nor a mark. */
  predicate Leaves(s: State, s': State) {
    && s'.tables.drafts == s.tables.drafts
    && (s'.log == s.log
        || (&& |s'.log| == |s.log| + 1 && s'.log == s.log + [s'.log[|s.log|]]
            && !s'.log[|s.log|].Edited? && !s'.log[|s.log|].MarkedSent?
            && PreparesCurrent(s'.log[|s.log|], s.tables.drafts)))
  }

  predicate Creates(s: State, s': State, k: Owned<DraftId>) {
    && s'.log == s.log && k !in s.tables.drafts && k in s'.tables.drafts
    && s'.tables.drafts == s.tables.drafts[k := s'.tables.drafts[k]]
    && s'.tables.drafts[k].version == 1 && s'.tables.drafts[k].status == Editable
  }

  predicate EditsRow(s: State, s': State, k: Owned<DraftId>) {
    && s'.log == s.log + [Edited(k.user, k.id)] && k in s.tables.drafts && k in s'.tables.drafts
    && s'.tables.drafts == s.tables.drafts[k := s'.tables.drafts[k]]
    && s.tables.drafts[k].status == Editable && s'.tables.drafts[k].status == Editable
    && s'.tables.drafts[k].version == s.tables.drafts[k].version + 1
  }

  predicate MarksRow(s: State, s': State, k: Owned<DraftId>, id: CallId) {
    && s'.log == s.log + [MarkedSent(id, k.user, k.id)] && k in s.tables.drafts && k in s'.tables.drafts
    && s'.tables.drafts == s.tables.drafts[k := s'.tables.drafts[k]]
    && s.tables.drafts[k].status == Editable && s'.tables.drafts[k].status == Sent
    && s'.tables.drafts[k].version == s.tables.drafts[k].version + 1
    && s'.tables.drafts[k].payload == s.tables.drafts[k].payload
  }

  predicate Touches(s: State, s': State, k: Owned<DraftId>, id: CallId) {
    Creates(s, s', k) || EditsRow(s, s', k) || MarksRow(s, s', k, id)
  }

  lemma EditTouches(s: State, u: UserKey, c: Command)
    requires EditsDraft(c)
    ensures WriteStep(s, u, c) == s || EditsRow(s, WriteStep(s, u, c), Owned(u, c.d))
  {
    match c
    case DoUpdateDraft(d, expected, payload, now) =>
    case DoAddAttachment(d, expected, a, now) =>
    case DoRemoveAttachment(d, expected, id, now) =>
  }

  lemma CreateTouches(s: State, u: UserKey, c: Command)
    requires c.DoCreateDraft?
    ensures WriteStep(s, u, c) == s || Creates(s, WriteStep(s, u, c), Owned(u, c.d))
  {
  }

  lemma PrepareLeaves(s: State, u: UserKey, c: Command)
    requires c.DoPrepare?
    ensures Leaves(s, WriteStep(s, u, c))
  {
  }

  lemma PolicyLeaves(s: State, u: UserKey, c: Command)
    requires c.DoSetPolicy?
    ensures Leaves(s, WriteStep(s, u, c))
  {
  }

  lemma MarkTouches(s: State, id: CallId)
    requires id in s.calls
    ensures var p, s' := s.calls[id].plan, MarkSentStep(s, id);
            if s'.log == s.log then s'.tables.drafts == s.tables.drafts
            else p.origin.FromDraft? && s.calls[id].phase.Settled? && MarksRow(s, s', Owned(p.user, p.origin.draft), id)
  {
  }

  lemma ActLeaves(s: State, id: CallId, action: Action)
    requires id in s.calls && !action.MarkSent?
    ensures Leaves(s, ActStep(s, id, action))
  {
    match action
    case Consume(now) => ConsumeEffect(s, id, now);
    case Reserve(operation, checkedAt, now) => ReserveEffect(s, id, operation, checkedAt, now);
    case Complete(fault) => CompleteEffect(s, id, fault);
    case Submit =>
    case GiveUp(now) =>
    case _ =>
  }

  /** The draft a step may change, and the call that may mark it. */
  function Target(s: State, step: Step): (Owned<DraftId>, CallId) {
    match step
    case Write(u, c) => (if EditsDraft(c) || c.DoCreateDraft? then Owned(u, c.d) else Owned("", ""), 0)
    case Enter(id, _) => (Owned("", ""), id)
    case Act(id, _) =>
      (if id in s.calls && s.calls[id].plan.origin.FromDraft?
       then Owned(s.calls[id].plan.user, s.calls[id].plan.origin.draft) else Owned("", ""), id)
  }

  lemma StepForms(s: State, step: Step)
    ensures var (k, id) := Target(s, step); Leaves(s, Do(s, step)) || Touches(s, Do(s, step), k, id)
  {
    match step
    case Enter(_, _) =>
    case Write(u, c) =>
      if c.DoPrepare? {
        PrepareLeaves(s, u, c);
      } else if c.DoCreateDraft? {
        CreateTouches(s, u, c);
      } else if c.DoSetPolicy? {
        PolicyLeaves(s, u, c);
      } else if EditsDraft(c) {
        EditTouches(s, u, c);
      }
    case Act(id, action) =>
      if id in s.calls {
        if action.MarkSent? {
          MarkTouches(s, id);
        } else {
          ActLeaves(s, id, action);
        }
      }
  }

  // ----- versions count edits -----

  /** A draft starts at version 1; every edit, and being marked sent, adds one. */
  predicate VersionOk(log: seq<Event>, drafts: map<Owned<DraftId>, Draft>, k: Owned<DraftId>) {
    if k in drafts then drafts[k].version == 1 + Edits(log, k) + if drafts[k].status == Sent then 1 else 0
    else Edits(log, k) == 0
  }

  predicate PreparedAt(log: seq<Event>, n: nat)
    requires n < |log|
  {
    log[n].Prepared? ==> log[n].version == 1 + Edits(log[..n], DraftOfEvent(log[n]))
  }

  ghost predicate VersionsOk(s: State) {
    && (forall k: Owned<DraftId> :: VersionOk(s.log, s.tables.drafts, k))
    && (forall n: nat | n < |s.log| :: PreparedAt(s.log, n))
  }

  lemma PreparationsStay(log: seq<Event>, e: Event, drafts: map<Owned<DraftId>, Draft>)
    requires forall k: Owned<DraftId> :: VersionOk(log, drafts, k)
    requires forall n: nat | n < |log| :: PreparedAt(log, n)
    requires PreparesCurrent(e, drafts)
    ensures forall n: nat | n < |log + [e]| :: PreparedAt(log + [e], n)
  {
    var log' := log + [e];
    forall n: nat | n < |log'| ensures PreparedAt(log', n) {
      if n < |log| {
        assert PreparedAt(log, n) && log'[..n] == log[..n];
      } else {
        assert log'[..n] == log;
        if e.Prepared? {
          assert VersionOk(log, drafts, DraftOfEvent(e));
        }
      }
    }
  }

  lemma LeavingKeepsVersions(s: State, s': State)
    requires VersionsOk(s) && Leaves(s, s')
    ensures VersionsOk(s')
  {
    if s'.log != s.log {
      var e := s'.log[|s.log|];
      PreparationsStay(s.log, e, s.tables.drafts);
      forall k: Owned<DraftId> ensures VersionOk(s'.log, s'.tables.drafts, k) {
        assert VersionOk(s.log, s.tables.drafts, k);
        EditsAppend(s.log, e, k);
      }
    }
  }

  lemma TouchingKeepsVersions(s: State, s': State, k: Owned<DraftId>, id: CallId)
    requires VersionsOk(s) && Touches(s, s', k, id)
    ensures VersionsOk(s')
  {
    if s'.log != s.log {
      PreparationsStay(s.log, s'.log[|s.log|], s.tables.drafts);
    }
    forall l: Owned<DraftId> ensures VersionOk(s'.log, s'.tables.drafts, l) {
      assert VersionOk(s.log, s.tables.drafts, l);
      if s'.log != s.log {
        EditsAppend(s.log, s'.log[|s.log|], l);
      }
    }
  }

  lemma {:induction false} VersionsAlways(mailboxes: set<Owned<MailboxId>>, steps: seq<Step>)
    ensures VersionsOk(Run(Start(mailboxes), steps))
  {
    if steps != [] {
      var s, step := Run(Start(mailboxes), steps[..|steps| - 1]), steps[|steps| - 1];
      var (k, id) := Target(s, step);
      VersionsAlways(mailboxes, steps[..|steps| - 1]);
      StepForms(s, step);
      if Leaves(s, Do(s, step)) {
        LeavingKeepsVersions(s, Do(s, step));
      } else {
        TouchingKeepsVersions(s, Do(s, step), k, id);
      }
    }
  }

  // ----- a marked draft is frozen, and its send was confirmed before -----

  function DraftSendKey(k: Owned<DraftId>): Owned<SendKey> {
    Owned(k.user, DraftKey(k.id))
  }

  /** The key's holder is known and consumed its confirmation before event n. */
  predicate HeldBefore(s: State, key: Owned<SendKey>, n: nat) {
    && key in s.holder && s.holder[key] in s.calls
    && s.calls[s.holder[key]].consumption.Some? && s.calls[s.holder[key]].consumption.value < n
  }

  predicate MarkAt(s: State, n: nat)
    requires n < |s.log|
  {
    s.log[n].MarkedSent? ==>
      var k := DraftOfEvent(s.log[n]);
      && k in s.tables.drafts && s.tables.drafts[k].status == Sent
      && Edits(s.log[n..], k) == 0 && HeldBefore(s, DraftSendKey(k), n)
  }

  predicate IsMark(log: seq<Event>, n: nat, k: Owned<DraftId>) {
    n < |log| && log[n].MarkedSent? && DraftOfEvent(log[n]) == k
  }

  ghost predicate Marked(log: seq<Event>, k: Owned<DraftId>) {
    exists n: nat :: IsMark(log, n, k)
  }

  ghost predicate MarksOk(s: State) {
    && (forall n: nat | n < |s.log| :: MarkAt(s, n))
    && (forall k <- s.tables.drafts | s.tables.drafts[k].status == Sent :: Marked(s.log, k))
  }

  lemma SuffixAppend(log: seq<Event>, e: Event, n: nat, k: Owned<DraftId>)
    requires n <= |log|
    ensures Edits((log + [e])[n..], k) == Edits(log[n..], k) + if e == Edited(k.user, k.id) then 1 else 0
  {
    assert (log + [e])[n..] == log[n..] + [e];
    EditsAppend(log[n..], e, k);
  }

  lemma MarkedStays(log: seq<Event>, e: Event, k: Owned<DraftId>)
    requires Marked(log, k)
    ensures Marked(log + [e], k)
  {
    var n: nat :| IsMark(log, n, k);
    assert IsMark(log + [e], n, k);
  }

  lemma OldMarkStays(s: State, s': State, n: nat, k: Owned<DraftId>, id: CallId)
    requires n < |s.log| && n < |s'.log| && s'.log[n] == s.log[n] && MarkAt(s, n) && Remembers(s, s')
    requires Leaves(s, s') || Touches(s, s', k, id)
    ensures MarkAt(s', n)
  {
    if s.log[n].MarkedSent? && s'.log != s.log {
      SuffixAppend(s.log, s'.log[|s.log|], n, DraftOfEvent(s.log[n]));
    }
  }

  lemma LeavingKeepsMarks(s: State, s': State)
    requires MarksOk(s) && Leaves(s, s') && Remembers(s, s')
    ensures MarksOk(s')
  {
    forall n: nat | n < |s'.log| ensures MarkAt(s', n) {
      if n < |s.log| {
        assert MarkAt(s, n);
        OldMarkStays(s, s', n, Owned("", ""), 0);
      }
    }
    forall k <- s'.tables.drafts | s'.tables.drafts[k].status == Sent ensures Marked(s'.log, k) {
      if s'.log != s.log {
        MarkedStays(s.log, s'.log[|s.log|], k);
      }
    }
  }

  lemma TouchingKeepsMarks(s: State, s': State, k: Owned<DraftId>, id: CallId)
    requires MarksOk(s) && Touches(s, s', k, id) && Remembers(s, s')
    requires MarksRow(s, s', k, id) ==> HeldBefore(s, DraftSendKey(k), |s.log|)
    ensures MarksOk(s')
  {
    forall n: nat | n < |s'.log| ensures MarkAt(s', n) {
      if n < |s.log| {
        assert MarkAt(s, n);
        OldMarkStays(s, s', n, k, id);
      } else {
        assert s'.log[n..] == [s'.log[n]];
      }
    }
    forall l <- s'.tables.drafts | s'.tables.drafts[l].status == Sent ensures Marked(s'.log, l) {
      if l != k || !MarksRow(s, s', k, id) {
        if s'.log != s.log {
          MarkedStays(s.log, s'.log[|s.log|], l);
        }
      } else {
        assert IsMark(s'.log, |s.log|, k);
      }
    }
  }

  /** A call that may mark the draft holds a receipt of the key, so the key's holder has long consumed. */
  lemma MarkingIsHeld(s: State, id: CallId)
    requires Sound(s) && AnswersOk(s) && Backed(s) && id in s.calls
    requires s.calls[id].phase.Settled? && s.calls[id].plan.origin.FromDraft?
    ensures HeldBefore(s, KeyOf(s.calls[id].plan), |s.log|)
  {
    var k := KeyOf(s.calls[id].plan);
    assert ReceiptFor(s.tables, k, s.calls[id].phase.result);
    var h := s.calls[s.holder[k]];
    assert PhaseOk(h) && PositionsOk(s.holder[k], h, s.log);
  }

  lemma MarksStep(s: State, step: Step)
    requires MarksOk(s) && Sound(s) && AnswersOk(s) && Backed(s)
    ensures MarksOk(Do(s, step))
  {
    var (k, id) := Target(s, step);
    StepForms(s, step);
    StepRemembers(s, step);
    if Leaves(s, Do(s, step)) {
      LeavingKeepsMarks(s, Do(s, step));
    } else {
      if MarksRow(s, Do(s, step), k, id) {
        OnlyMarkSentMarks(s, step, k);
        MarkingIsHeld(s, step.id);
      }
      TouchingKeepsMarks(s, Do(s, step), k, id);
    }
  }

  lemma OnlyMarkSentMarks(s: State, step: Step, k: Owned<DraftId>)
    requires MarksRow(s, Do(s, step), k, Target(s, step).1) && k == Target(s, step).0
    ensures step.Act? && step.id in s.calls && s.calls[step.id].phase.Settled?
    ensures s.calls[step.id].plan.origin.FromDraft? && KeyOf(s.calls[step.id].plan) == DraftSendKey(k)
  {
    match step
    case Enter(_, _) =>
    case Write(u, c) =>
      if EditsDraft(c) {
        EditTouches(s, u, c);
      } else if c.DoCreateDraft? {
        CreateTouches(s, u, c);
      } else if c.DoSetPolicy? {
        PolicyLeaves(s, u, c);
      } else if c.DoPrepare? {
        PrepareLeaves(s, u, c);
      }
    case Act(id, action) =>
      if id in s.calls {
        if action.MarkSent? {
          MarkTouches(s, id);
        } else {
          ActLeaves(s, id, action);
        }
      }
  }

  lemma {:induction false} MarksAlways(mailboxes: set<Owned<MailboxId>>, steps: seq<Step>)
    ensures MarksOk(Run(Start(mailboxes), steps))
  {
    if steps != [] {
      MarksAlways(mailboxes, steps[..|steps| - 1]);
      SoundAlways(mailboxes, steps[..|steps| - 1]);
      DeliveriesAlways(mailboxes, steps[..|steps| - 1]);
      SentMeansAccepted(mailboxes, steps[..|steps| - 1]);
      MarksStep(Run(Start(mailboxes), steps[..|steps| - 1]), steps[|steps| - 1]);
    }
  }

  // ----- while nobody edits, the row keeps the payload it was prepared with -----

  /** A prepare carries the hash of the draft's payload at that moment, as the service computes it. */
  predicate OwnHash(s: State, step: Step) {
    step.Write? && step.command.DoPrepare? && Owned(step.u, step.command.d) in s.tables.drafts ==>
      step.command.hash == HashPayload(s.tables.drafts[Owned(step.u, step.command.d)].payload)
  }

  predicate OwnHashes(mailboxes: set<Owned<MailboxId>>, steps: seq<Step>) {
    forall i | 0 <= i < |steps| :: OwnHash(Run(Start(mailboxes), steps[..i]), steps[i])
  }

  predicate StillPrepared(s: State, n: nat)
    requires n < |s.log|
  {
    s.log[n].Prepared? && Edits(s.log[n..], DraftOfEvent(s.log[n])) == 0 ==>
      && DraftOfEvent(s.log[n]) in s.tables.drafts
      && HashPayload(s.tables.drafts[DraftOfEvent(s.log[n])].payload) == s.log[n].hash
  }

  predicate PayloadsOk(s: State) {
    forall n: nat | n < |s.log| :: StillPrepared(s, n)
  }

  predicate PreparesOwn(s: State, s': State) {
    |s'.log| == |s.log| + 1 && s'.log[|s.log|].Prepared? ==>
      && DraftOfEvent(s'.log[|s.log|]) in s.tables.drafts
      && s'.log[|s.log|].hash == HashPayload(s.tables.drafts[DraftOfEvent(s'.log[|s.log|])].payload)
  }

  lemma StepPreparesOwn(s: State, step: Step)
    requires OwnHash(s, step)
    ensures PreparesOwn(s, Do(s, step))
  {
    match step
    case Enter(_, _) =>
    case Write(u, c) =>
    case Act(id, action) =>
      if id in s.calls {
        if action.MarkSent? {
          MarkTouches(s, id);
        } else {
          ActNeverPrepares(s, id, action);
        }
      }
  }

  lemma ActNeverPrepares(s: State, id: CallId, action: Action)
    requires id in s.calls
    ensures var s' := ActStep(s, id, action); |s'.log| > |s.log| ==> !s'.log[|s.log|].Prepared?
  {
    match action
    case Consume(now) => ConsumeEffect(s, id, now);
    case Reserve(operation, checkedAt, now) => ReserveEffect(s, id, operation, checkedAt, now);
    case Complete(fault) => CompleteEffect(s, id, fault);
    case Submit =>
    case GiveUp(now) =>
    case MarkSent =>
    case _ =>
  }

  lemma PayloadStays(s: State, s': State, n: nat, k: Owned<DraftId>, id: CallId)
    requires n < |s.log| && n < |s'.log| && s'.log[n] == s.log[n] && StillPrepared(s, n)
    requires Leaves(s, s') || Touches(s, s', k, id)
    ensures StillPrepared(s', n)
  {
    if s.log[n].Prepared? && s'.log != s.log {
      SuffixAppend(s.log, s'.log[|s.log|], n, DraftOfEvent(s.log[n]));
    }
  }

  lemma PayloadsStep(s: State, step: Step)
    requires PayloadsOk(s) && OwnHash(s, step)
    ensures PayloadsOk(Do(s, step))
  {
    var s' := Do(s, step);
    var (k, id) := Target(s, step);
    StepForms(s, step);
    StepPreparesOwn(s, step);
    forall n: nat | n < |s'.log| ensures StillPrepared(s', n) {
      if n < |s.log| {
        assert StillPrepared(s, n);
        PayloadStays(s, s', n, k, id);
      }
    }
  }

  lemma {:induction false} PayloadsAlways(mailboxes: set<Owned<MailboxId>>, steps: seq<Step>)
    requires OwnHashes(mailboxes, steps)
    ensures PayloadsOk(Run(Start(mailboxes), steps))
  {
    if steps != [] {
      var init := steps[..|steps| - 1];
      forall i | 0 <= i < |init| ensures OwnHash(Run(Start(mailboxes), init[..i]), init[i]) {
        assert init[..i] == steps[..i] && init[i] == steps[i];
        assert OwnHash(Run(Start(mailboxes), steps[..i]), steps[i]);
      }
      PayloadsAlways(mailboxes, init);
      assert OwnHash(Run(Start(mailboxes), steps[..|steps| - 1]), steps[|steps| - 1]);
      PayloadsStep(Run(Start(mailboxes), init), steps[|steps| - 1]);
    }
  }

  // ----- the result -----

  lemma EditsSplit(log: seq<Event>, i: nat, k: Owned<DraftId>)
    requires i <= |log|
    ensures Edits(log, k) == Edits(log[..i], k) + Edits(log[i..], k)
  {
    assert log == log[..i] + log[i..];
  }

  lemma NoEdits(log: seq<Event>, i: nat, j: nat, k: Owned<DraftId>)
    requires i <= j <= |log|
    ensures Edits(log[i..j], k) == 0 <==> forall m | i <= m < j :: log[m] != Edited(k.user, k.id)
  {
    var mid := log[i..j];
    if Edits(mid, k) != 0 {
      assert Edited(k.user, k.id) in mid;
      var m :| 0 <= m < |mid| && mid[m] == Edited(k.user, k.id);
      assert log[i + m] == Edited(k.user, k.id);
    } else {
      forall m | i <= m < j ensures log[m] != Edited(k.user, k.id) {
        assert mid[m - i] == log[m] && mid[m - i] in multiset(mid);
      }
    }
  }

  /** A consumption names the version the draft had when it was prepared, and no edit has changed it since. */
  lemma ConfirmedVersion(s: State, j: nat, p: nat)
    requires VersionsOk(s) && Redeems(s.log, j, p)
    ensures var k := DraftOfEvent(s.log[p]);
            && s.log[j].version == 1 + Edits(s.log[..j], k) && Edits(s.log[p..j], k) == 0
  {
    var k := DraftOfEvent(s.log[p]);
    assert PreparedAt(s.log, p);
    NoEdits(s.log, p, j, k);
    EditsSplit(s.log[..j], p, k);
    assert s.log[..j][..p] == s.log[..p] && s.log[..j][p..] == s.log[p..j];
  }

  /** The call that holds a draft's key, and the event by which it consumed its confirmation. */
  function ConsumptionOf(s: State, k: Owned<DraftId>): nat
    requires DraftSendKey(k) in s.holder && s.holder[DraftSendKey(k)] in s.calls
    requires s.calls[s.holder[DraftSendKey(k)]].consumption.Some?
  {
    s.calls[s.holder[DraftSendKey(k)]].consumption.value
  }

  lemma HolderConfirmed(s: State, k: Owned<DraftId>, n: nat)
    requires Sound(s) && Guarded(s) && HeldBefore(s, DraftSendKey(k), n)
    ensures var j := ConsumptionOf(s, k);
            && j < |s.log| && s.log[j].Consumed? && s.log[j].user == k.user && s.log[j].draft == k.id
            && s.log[j].hash == HashPayload(s.calls[s.holder[DraftSendKey(k)]].plan.payload)
            && exists p: nat :: Redeems(s.log, j, p)
  {
    var id := s.holder[DraftSendKey(k)];
    var j := ConsumptionOf(s, k);
    assert PositionsOk(id, s.calls[id], s.log);
    assert UseOk(j, s.log, s.prepared, s.tables.confirmations);
  }

  /** The version of a sent row is the confirmed version, plus one for being marked, plus one for every edit between
      the holder's consumption and the mark. */
  lemma SentVersion(s: State, k: Owned<DraftId>, n: nat)
    requires Sound(s) && Guarded(s) && VersionsOk(s) && MarksOk(s) && IsMark(s.log, n, k)
    ensures k in s.tables.drafts && HeldBefore(s, DraftSendKey(k), n)
    ensures var j := ConsumptionOf(s, k);
            && s.log[j].Consumed?
            && s.tables.drafts[k].version == s.log[j].version + 1 + Edits(s.log[j..n], k)
  {
    assert MarkAt(s, n);
    HolderConfirmed(s, k, n);
    var j := ConsumptionOf(s, k);
    var p: nat :| Redeems(s.log, j, p);
    ConfirmedVersion(s, j, p);
    assert VersionOk(s.log, s.tables.drafts, k);
    EditsSplit(s.log, n, k);
    EditsSplit(s.log[..n], j, k);
    assert s.log[..n][..j] == s.log[..j] && s.log[..n][j..] == s.log[j..n];
  }

  /** Every sent draft was marked by an event, after its key's holder consumed a confirmation. Its row has the
      confirmed version plus one if and only if nobody edited it between that consumption and the mark. */
  lemma SentVersionIsExact(mailboxes: set<Owned<MailboxId>>, steps: seq<Step>, k: Owned<DraftId>)
    requires var t := Run(Start(mailboxes), steps).tables; k in t.drafts && t.drafts[k].status == Sent
    ensures var s := Run(Start(mailboxes), steps);
            && Marked(s.log, k)
            && forall n: nat | IsMark(s.log, n, k) ::
                 && HeldBefore(s, DraftSendKey(k), n) && s.log[ConsumptionOf(s, k)].Consumed?
                 && (s.tables.drafts[k].version == s.log[ConsumptionOf(s, k)].version + 1
                     <==> forall m | ConsumptionOf(s, k) <= m < n :: s.log[m] != Edited(k.user, k.id))
  {
    var s := Run(Start(mailboxes), steps);
    SoundAlways(mailboxes, steps);
    GuardedAlways(mailboxes, steps);
    VersionsAlways(mailboxes, steps);
    MarksAlways(mailboxes, steps);
    forall n: nat | IsMark(s.log, n, k)
      ensures HeldBefore(s, DraftSendKey(k), n) && s.log[ConsumptionOf(s, k)].Consumed?
      ensures s.tables.drafts[k].version == s.log[ConsumptionOf(s, k)].version + 1
              <==> forall m | ConsumptionOf(s, k) <= m < n :: s.log[m] != Edited(k.user, k.id)
    {
      SentVersion(s, k, n);
      NoEdits(s.log, ConsumptionOf(s, k), n, k);
    }
  }

  lemma EditsJoin(log: seq<Event>, p: nat, j: nat, n: nat, k: Owned<DraftId>)
    requires p <= j <= n <= |log|
    ensures Edits(log[p..], k) == Edits(log[p..j], k) + Edits(log[j..n], k) + Edits(log[n..], k)
  {
    assert log[p..] == log[p..j] + log[j..n] + log[n..];
  }

  lemma UneditedSince(s: State, k: Owned<DraftId>, n: nat, p: nat)
    requires VersionsOk(s) && MarksOk(s) && IsMark(s.log, n, k)
    requires HeldBefore(s, DraftSendKey(k), n) && Redeems(s.log, ConsumptionOf(s, k), p)
    requires DraftOfEvent(s.log[p]) == k && Edits(s.log[ConsumptionOf(s, k)..n], k) == 0
    ensures Edits(s.log[p..], k) == 0
  {
    var j := ConsumptionOf(s, k);
    ConfirmedVersion(s, j, p);
    assert MarkAt(s, n);
    EditsJoin(s.log, p, j, n, k);
  }

  lemma UneditedHash(s: State, k: Owned<DraftId>, n: nat)
    requires Sound(s) && Guarded(s) && VersionsOk(s) && MarksOk(s) && PayloadsOk(s) && IsMark(s.log, n, k)
    requires k in s.tables.drafts && HeldBefore(s, DraftSendKey(k), n)
    requires s.log[ConsumptionOf(s, k)].Consumed?
    requires s.tables.drafts[k].version == s.log[ConsumptionOf(s, k)].version + 1
    ensures HashPayload(s.tables.drafts[k].payload)
         == HashPayload(s.calls[s.holder[DraftSendKey(k)]].plan.payload)
  {
    SentVersion(s, k, n);
    HolderConfirmed(s, k, n);
    var p: nat :| Redeems(s.log, ConsumptionOf(s, k), p);
    UneditedSince(s, k, n, p);
    assert StillPrepared(s, p);
  }

  /** And in that case the row holds what was delivered: its hash is the stored receipt's and that of the one payload
      the transport was given. */
  lemma UneditedRowWasDelivered(mailboxes: set<Owned<MailboxId>>, steps: seq<Step>, k: Owned<DraftId>)
    requires OwnHashes(mailboxes, steps)
    requires var t := Run(Start(mailboxes), steps).tables; k in t.drafts && t.drafts[k].status == Sent
    ensures var s, key := Run(Start(mailboxes), steps), DraftSendKey(k);
            && key in s.tables.receipts && key in s.holder && s.holder[key] in s.calls
            && s.calls[s.holder[key]].consumption.Some? && ConsumptionOf(s, k) < |s.log|
            && s.log[ConsumptionOf(s, k)].Consumed?
            && (s.tables.drafts[k].version == s.log[ConsumptionOf(s, k)].version + 1 ==>
                  && HashPayload(s.tables.drafts[k].payload) == s.tables.receipts[key].payloadHash
                  && exists i: nat :: SubmittedWith(s.log, i, key, HashPayload(s.tables.drafts[k].payload)))
  {
    var s, key := Run(Start(mailboxes), steps), DraftSendKey(k);
    SoundAlways(mailboxes, steps);
    GuardedAlways(mailboxes, steps);
    VersionsAlways(mailboxes, steps);
    MarksAlways(mailboxes, steps);
    PayloadsAlways(mailboxes, steps);
    DeliveriesAlways(mailboxes, steps);
    ConsistentAlways(mailboxes, steps);
    SentMeansAccepted(mailboxes, steps);
    assert DraftBacked(s.tables, k);
    var n: nat :| IsMark(s.log, n, k);
    SentVersion(s, k, n);
    SubmissionOf(s, key);
    if s.tables.drafts[k].version == s.log[ConsumptionOf(s, k)].version + 1 {
      UneditedHash(s, k, n);
    }
  }

  /** Whenever the transport has answered a draft's call, an edit of that draft is accepted and survives into the sent
      row, whatever text it brings, while the receipt keeps the hash of the payload that was submitted. */
  lemma EditAfterAnswerSticks(
    mailboxes: set<Owned<MailboxId>>, steps: seq<Step>, id: CallId, edited: Payload, now: Time)
    requires var s := Run(Start(mailboxes), steps);
             && id in s.calls && s.calls[id].phase.Answered? && s.calls[id].plan.origin.FromDraft?
             && |s.calls[id].phase.receipt.accepted| > 0
             && Owned(s.calls[id].plan.user, s.calls[id].phase.receipt.mailbox) in s.tables.mailboxes
             && DraftOf(s, id) in s.tables.drafts && s.tables.drafts[DraftOf(s, id)].status == Editable
             && s.tables.drafts[DraftOf(s, id)].payload.mailbox == edited.mailbox
    ensures var s := Run(Start(mailboxes), steps);
            var k, key := DraftOf(s, id), KeyOf(s.calls[id].plan);
            var edit := Write(k.user, DoUpdateDraft(k.id, s.tables.drafts[k].version, edited, now));
            var after := Do(Do(Do(s, edit), Act(id, Complete(NoFault))), Act(id, MarkSent)).tables;
            && k in after.drafts && after.drafts[k].status == Sent && after.drafts[k].payload == edited
            && key in after.receipts && after.receipts[key].payloadHash == HashPayload(s.calls[id].plan.payload)
  {
    var s := Run(Start(mailboxes), steps);
    SoundAlways(mailboxes, steps);
    TightAlways(mailboxes, steps);
    DeliveriesAlways(mailboxes, steps);
    ConsistentAlways(mailboxes, steps);
    AnsweredIsInFlight(s, id);
    EditInFlightSticks(s, id, edited, now);
  }

  lemma AnsweredIsInFlight(s: State, id: CallId)
    requires Sound(s) && AllTight(s.tables, s.calls) && ReceiptsAgree(s.tables.operations, s.tables.receipts)
    requires HashesOk(s) && id in s.calls && s.calls[id].phase.Answered? && s.calls[id].plan.origin.FromDraft?
    requires |s.calls[id].phase.receipt.accepted| > 0
    requires Owned(s.calls[id].plan.user, s.calls[id].phase.receipt.mailbox) in s.tables.mailboxes
    ensures DraftLifecycle.InFlight(s, id)
    ensures s.tables.operations[KeyOf(s.calls[id].plan)].payloadHash == HashPayload(s.calls[id].plan.payload)
  {
    AnsweredHolder(s, id);
    assert CallTight(s.tables, s.calls[id]);
    ReceiptsCounts(s.tables.operations, s.tables.receipts, KeyOf(s.calls[id].plan));
  }
}
