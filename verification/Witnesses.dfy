/** Concrete runs that show what the theorems about sending must allow for. */
module Witnesses {
  import opened MailTypes
  import opened SendPolicy
  import opened Ledger
  import opened LedgerInvariants
  import opened SendProtocol
  import opened AuditTrail

  const USER := "user"
  const MAILBOX := "mailbox"
  const DRAFT := "draft"
  const CONFIRMATION := "confirmation"
  const OWN: Domain := "example.org"

  function Message(body: string): Payload {
    Payload(MAILBOX, [Address("someone", Some(OWN))], [], [], "subject", body, None, [], [])
  }

  function Passed(d: DraftId, version: nat): Validation {
    Validation(d, version, MAILBOX, 0, false, [], false, 1, 0, 20, 100)
  }

  const VIEW := PolicyView(DEFAULT_POLICY.(mode := DirectAllowed), 0)

  lemma MessagePasses(d: DraftId, version: nat, body: string, mode: SendMode)
    requires mode != Disabled
    ensures Evaluate(Some(OWN), d, version, Message(body), PolicyView(DEFAULT_POLICY.(mode := mode), 0), Usage(0, 0))
         == Ok(Passed(d, version))
  {
    var policy := DEFAULT_POLICY.(mode := mode);
    var recipients := Recipients(Message(body));
    assert recipients == [Address("someone", Some(OWN))];
    assert recipients[..0] == [];
    assert ExternalCount(recipients[..0], OWN) == 0;
    BrokenInOrder(OWN, recipients, policy, Usage(0, 0));
  }

  function DraftPlan(body: string): Plan {
    Plan(USER, FromDraft(DRAFT, CONFIRMATION, 1), Message(body), Some(OWN),
         PolicyView(DEFAULT_POLICY, 0), Usage(0, 0), Passed(DRAFT, 1))
  }

  function DirectPlan(token: string, body: string): Plan {
    Plan(USER, Direct(token), Message(body), Some(OWN), VIEW, Usage(0, 0), Passed("direct", 0))
  }

  const RECEIPT := Receipt(MAILBOX, "message-id", ["someone"], [], 3)

  function Beginning(): State {
    Start({Owned(USER, MAILBOX)})
  }

  /** The state after the first i steps. */
  function At(steps: seq<Step>, i: nat): State
    requires i <= |steps|
  {
    Run(Beginning(), steps[..i])
  }

  lemma NextStep(steps: seq<Step>, i: nat)
    requires i < |steps|
    ensures At(steps, i + 1) == Do(At(steps, i), steps[i])
    ensures At(steps, 0) == Beginning()
  {
    assert steps[..i + 1][..i] == steps[..i];
  }

  // ----- from the reservation to the answer -----

  const OPERATION := "operation"

  /** One call, which holds its key; nothing has been submitted. */
  predicate AboutToSubmit(s: State, p: Plan) {
    && 0 in s.calls && s.calls[0].plan == p && s.calls[0].phase == Holding
    && KeyOf(p) in s.tables.operations && s.tables.operations[KeyOf(p)].state == Submitting
    && s.tables.operations[KeyOf(p)].payloadHash == HashPayload(p.payload)
    && KeyOf(p) !in s.tables.receipts && Owned(USER, MAILBOX) in s.tables.mailboxes
  }

  predicate Delivered(s: State, p: Plan) {
    && 0 in s.calls && s.calls[0].plan == p && s.calls[0].phase == Answered(RECEIPT)
    && KeyOf(p) in s.tables.operations && s.tables.operations[KeyOf(p)].state == Submitting
    && s.tables.operations[KeyOf(p)].payloadHash == HashPayload(p.payload)
    && KeyOf(p) !in s.tables.receipts && Owned(USER, MAILBOX) in s.tables.mailboxes
  }

  lemma ReservingHolds(s: State, p: Plan)
    requires 0 in s.calls && s.calls[0].plan == p && p.user == USER && p.payload.mailbox == MAILBOX
    requires s.calls[0].phase == Confirmed || (s.calls[0].phase == Planned && p.origin.Direct?)
    requires s.tables.operations == map[] && s.tables.rateEvents == [] && s.tables.receipts == map[]
    requires Owned(USER, MAILBOX) in s.tables.mailboxes
    requires p.view.policy.maxPerHour > 0 && p.view.policy.maxPerDay > 0
    ensures AboutToSubmit(Do(s, Act(0, Reserve(OPERATION, 1, 1))), p)
    ensures Do(s, Act(0, Reserve(OPERATION, 1, 1))).tables.drafts == s.tables.drafts
  {
    assert Do(s, Act(0, Reserve(OPERATION, 1, 1))) == ReserveStep(s, 0, OPERATION, 1, 1);
    assert SendUsage(s.tables, USER, MAILBOX, 1) == Usage(0, 0);
  }

  lemma SubmitLogs(s: State, p: Plan)
    requires AboutToSubmit(s, p)
    ensures var s' := Do(s, Act(0, Submit));
            && s'.tables == s.tables && 0 in s'.calls && s'.calls[0].plan == p && s'.calls[0].phase == Awaiting
            && s'.log == s.log + [Submitted(0, KeyOf(p), p.payload)]
  {
    assert Do(s, Act(0, Submit)) == SubmitStep(s, 0);
  }

  lemma AnswerDelivers(s: State, p: Plan)
    requires 0 in s.calls && s.calls[0].plan == p && s.calls[0].phase == Awaiting
    ensures var s' := Do(s, Act(0, Answer(RECEIPT)));
            && s'.tables == s.tables && s'.log == s.log
            && 0 in s'.calls && s'.calls[0].plan == p && s'.calls[0].phase == Answered(RECEIPT)
  {
  }

  // ----- a committed completion whose read-back throws -----

  lemma LosingLogs(s: State, p: Plan)
    requires Delivered(s, p) && p.user == USER
    ensures var s' := Do(s, Act(0, Complete(CommittedThenThrew(TransportFailed))));
            && 0 in s'.calls && s'.calls[0].plan == p && s'.calls[0].phase.Failing?
            && s'.log == s.log + [AnswerLost(0, KeyOf(p))]
            && KeyOf(p) in s'.tables.operations && s'.tables.operations[KeyOf(p)].state == SmtpAccepted
  {
    assert Do(s, Act(0, Complete(CommittedThenThrew(TransportFailed))))
        == CompleteStep(s, 0, CommittedThenThrew(TransportFailed));
  }

  lemma GivingUpLogs(s: State, p: Plan)
    requires 0 in s.calls && s.calls[0].plan == p && s.calls[0].phase.Failing?
    requires KeyOf(p) in s.tables.operations && s.tables.operations[KeyOf(p)].state == SmtpAccepted
    ensures var s' := Do(s, Act(0, GiveUp(4)));
            && s'.log == s.log + [GaveUp(0, KeyOf(p))]
            && KeyOf(p) in s'.tables.operations && s'.tables.operations[KeyOf(p)].state == SmtpAccepted
  {
    assert Do(s, Act(0, GiveUp(4))) == GiveUpStep(s, 0, 4);
  }

  function LosingRun(token: string, body: string): seq<Step> {
    [Enter(0, DirectPlan(token, body)), Act(0, Reserve(OPERATION, 1, 1)), Act(0, Submit), Act(0, Answer(RECEIPT)),
     Act(0, Complete(CommittedThenThrew(TransportFailed))), Act(0, GiveUp(4))]
  }

  lemma LosingRunLogs(token: string, body: string)
    ensures var s, k := At(LosingRun(token, body), 6), KeyOf(DirectPlan(token, body));
            && k in s.tables.operations && s.tables.operations[k].state == SmtpAccepted
            && AnswerLost(0, k) in s.log && GaveUp(0, k) in s.log
  {
    var p, steps := DirectPlan(token, body), LosingRun(token, body);
    MessagePasses("direct", 0, body, DirectAllowed);
    NextStep(steps, 0);
    assert At(steps, 1).tables == Beginning().tables && At(steps, 1).calls[0] == Entered(p);
    NextStep(steps, 1);
    ReservingHolds(At(steps, 1), p);
    NextStep(steps, 2);
    SubmitLogs(At(steps, 2), p);
    NextStep(steps, 3);
    AnswerDelivers(At(steps, 3), p);
    NextStep(steps, 4);
    LosingLogs(At(steps, 4), p);
    NextStep(steps, 5);
    GivingUpLogs(At(steps, 5), p);
  }

  /** The third audit event is real: for any message sent directly there is a run that ends with the audit trail
      submitting, accepted, unknown. */
  lemma ThirdEventHappens(token: string, body: string)
    ensures var s, k := Run(Beginning(), LosingRun(token, body)), KeyOf(DirectPlan(token, body));
            && k in s.tables.operations && s.tables.operations[k].state == SmtpAccepted
            && TrailOf(s.tables, k) == [Submitting, SmtpAccepted, Unknown]
  {
    LosingRunLogs(token, body);
    assert LosingRun(token, body)[..6] == LosingRun(token, body);
    TrailIsExact({Owned(USER, MAILBOX)}, LosingRun(token, body), KeyOf(DirectPlan(token, body)));
  }

  // ----- an edit while the message is in flight -----

  function EditedRun(body: string, other: string): seq<Step> {
    [Write(USER, DoCreateDraft(DRAFT, Message(body), 0)),
     Write(USER, DoPrepare(DRAFT, HashPayload(Message(body)), Passed(DRAFT, 1), 180, CONFIRMATION, 0)),
     Enter(0, DraftPlan(body)), Act(0, Consume(1)), Act(0, Reserve(OPERATION, 1, 1)), Act(0, Submit),
     Write(USER, DoUpdateDraft(DRAFT, 1, Message(other), 2)),
     Act(0, Answer(RECEIPT)), Act(0, Complete(NoFault)), Act(0, MarkSent)]
  }

  const ROW := Owned(USER, DRAFT)

  /** No operation, receipt or rate event yet, and the draft is at version 1. */
  predicate Drafted(s: State, body: string) {
    && s.tables.operations == map[] && s.tables.receipts == map[] && s.tables.rateEvents == []
    && Owned(USER, MAILBOX) in s.tables.mailboxes
    && ROW in s.tables.drafts && s.tables.drafts[ROW].mailbox == MAILBOX && s.tables.drafts[ROW].version == 1
    && s.tables.drafts[ROW].payload == Message(body) && s.tables.drafts[ROW].status == Editable
  }

  predicate Ready(s: State, body: string) {
    && Drafted(s, body)
    && Owned(USER, CONFIRMATION) in s.tables.confirmations
    && s.tables.confirmations[Owned(USER, CONFIRMATION)]
       == Confirmation(DRAFT, 1, HashPayload(Message(body)), 0, 180_000, None)
  }

  lemma DraftingDrafts(body: string)
    ensures var s' := Do(Beginning(), Write(USER, DoCreateDraft(DRAFT, Message(body), 0)));
            Drafted(s', body) && s'.calls == map[] && s'.prepared == map[] && s'.tables.confirmations == map[]
  {
  }

  lemma PreparingReadies(s: State, body: string)
    requires Drafted(s, body) && s.calls == map[] && s.prepared == map[] && s.tables.confirmations == map[]
    ensures var c := DoPrepare(DRAFT, HashPayload(Message(body)), Passed(DRAFT, 1), 180, CONFIRMATION, 0);
            Ready(Do(s, Write(USER, c)), body) && Do(s, Write(USER, c)).calls == map[]
  {
  }

  lemma ConsumingConfirms(s: State, body: string)
    requires Ready(s, body) && s.calls == map[]
    ensures var s1 := Do(s, Enter(0, DraftPlan(body)));
            var s2 := Do(s1, Act(0, Consume(1)));
            Drafted(s2, body) && 0 in s2.calls && s2.calls[0].plan == DraftPlan(body) && s2.calls[0].phase == Confirmed
  {
    MessagePasses(DRAFT, 1, body, DraftOnly);
    assert DEFAULT_POLICY.(mode := DraftOnly) == DEFAULT_POLICY;
    var s1 := Do(s, Enter(0, DraftPlan(body)));
    assert s1.tables == s.tables && s1.calls[0] == Entered(DraftPlan(body));
    assert Do(s1, Act(0, Consume(1))) == ConsumeStep(s1, 0, 1);
  }

  lemma EditingSticks(s: State, body: string, other: string)
    requires ROW in s.tables.drafts && s.tables.drafts[ROW].status == Editable && s.tables.drafts[ROW].version == 1
    requires s.tables.drafts[ROW].payload == Message(body)
    ensures var s' := Do(s, Write(USER, DoUpdateDraft(DRAFT, 1, Message(other), 2)));
            && s'.calls == s.calls && s'.tables.operations == s.tables.operations
            && s'.tables.receipts == s.tables.receipts && s'.tables.mailboxes == s.tables.mailboxes
            && ROW in s'.tables.drafts && s'.tables.drafts[ROW].status == Editable
            && s'.tables.drafts[ROW].payload == Message(other) && s'.log == s.log + [Edited(USER, DRAFT)]
  {
  }

  lemma CompletingSettles(s: State, p: Plan)
    requires Delivered(s, p) && p.user == USER
    ensures var s' := Do(s, Act(0, Complete(NoFault)));
            && s'.tables.drafts == s.tables.drafts && s'.log == s.log
            && 0 in s'.calls && s'.calls[0].plan == p && s'.calls[0].phase == Settled(RECEIPT)
            && KeyOf(p) in s'.tables.receipts
            && s'.tables.receipts[KeyOf(p)] == StoredReceipt(HashPayload(p.payload), RECEIPT)
  {
    assert Do(s, Act(0, Complete(NoFault))) == CompleteStep(s, 0, NoFault);
  }

  lemma MarkingMarks(s: State, body: string)
    requires 0 in s.calls && s.calls[0].plan == DraftPlan(body) && s.calls[0].phase == Settled(RECEIPT)
    requires ROW in s.tables.drafts && s.tables.drafts[ROW].status == Editable
    ensures var s' := Do(s, Act(0, MarkSent));
            && s'.tables.receipts == s.tables.receipts && ROW in s'.tables.drafts
            && s'.tables.drafts[ROW].status == Sent && s'.tables.drafts[ROW].payload == s.tables.drafts[ROW].payload
            && s.log <= s'.log
  {
    assert Do(s, Act(0, MarkSent)) == MarkSentStep(s, 0);
  }

  lemma RunReadies(body: string, other: string)
    ensures Ready(At(EditedRun(body, other), 2), body) && At(EditedRun(body, other), 2).calls == map[]
  {
    var steps := EditedRun(body, other);
    NextStep(steps, 0);
    DraftingDrafts(body);
    NextStep(steps, 1);
    PreparingReadies(At(steps, 1), body);
  }

  lemma RunConfirms(body: string, other: string)
    ensures var s := At(EditedRun(body, other), 4);
            Drafted(s, body) && 0 in s.calls && s.calls[0].plan == DraftPlan(body) && s.calls[0].phase == Confirmed
  {
    var steps := EditedRun(body, other);
    RunReadies(body, other);
    NextStep(steps, 2);
    NextStep(steps, 3);
    ConsumingConfirms(At(steps, 2), body);
  }

  lemma RunReserves(body: string, other: string)
    ensures var s := At(EditedRun(body, other), 5);
            && AboutToSubmit(s, DraftPlan(body))
            && ROW in s.tables.drafts && s.tables.drafts[ROW].status == Editable && s.tables.drafts[ROW].version == 1
            && s.tables.drafts[ROW].payload == Message(body)
  {
    RunConfirms(body, other);
    NextStep(EditedRun(body, other), 4);
    ReservingHolds(At(EditedRun(body, other), 4), DraftPlan(body));
  }

  /** The message is with the transport, and the draft holds the other text. */
  predicate InFlight(s: State, body: string, other: string) {
    && Submitted(0, KeyOf(DraftPlan(body)), Message(body)) in s.log
    && ROW in s.tables.drafts && s.tables.drafts[ROW].status == Editable
    && s.tables.drafts[ROW].payload == Message(other)
    && 0 in s.calls && s.calls[0].plan == DraftPlan(body) && s.calls[0].phase == Awaiting
    && KeyOf(DraftPlan(body)) in s.tables.operations
    && s.tables.operations[KeyOf(DraftPlan(body))].state == Submitting
    && s.tables.operations[KeyOf(DraftPlan(body))].payloadHash == HashPayload(Message(body))
    && KeyOf(DraftPlan(body)) !in s.tables.receipts && Owned(USER, MAILBOX) in s.tables.mailboxes
  }

  lemma EditingInFlight(s: State, body: string, other: string)
    requires AboutToSubmit(s, DraftPlan(body)) && ROW in s.tables.drafts
    requires s.tables.drafts[ROW].status == Editable && s.tables.drafts[ROW].version == 1
    requires s.tables.drafts[ROW].payload == Message(body)
    ensures InFlight(Do(Do(s, Act(0, Submit)), Write(USER, DoUpdateDraft(DRAFT, 1, Message(other), 2))), body, other)
  {
    var s1 := Do(s, Act(0, Submit));
    SubmitLogs(s, DraftPlan(body));
    EditingSticks(s1, body, other);
    assert Submitted(0, KeyOf(DraftPlan(body)), Message(body)) in s1.log;
  }

  lemma RunEdits(body: string, other: string)
    ensures InFlight(At(EditedRun(body, other), 7), body, other)
  {
    var steps := EditedRun(body, other);
    RunReserves(body, other);
    NextStep(steps, 5);
    NextStep(steps, 6);
    EditingInFlight(At(steps, 5), body, other);
  }

  /** The receipt is of the first text, the sent row holds the other. */
  predicate Diverged(s: State, body: string, other: string) {
    var key := KeyOf(DraftPlan(body));
    && Submitted(0, key, Message(body)) in s.log
    && key in s.tables.receipts && s.tables.receipts[key].payloadHash == HashPayload(Message(body))
    && ROW in s.tables.drafts && s.tables.drafts[ROW].status == Sent
    && s.tables.drafts[ROW].payload == Message(other)
  }

  lemma FinishingDiverges(s: State, body: string, other: string)
    requires InFlight(s, body, other)
    ensures Diverged(Do(Do(Do(s, Act(0, Answer(RECEIPT))), Act(0, Complete(NoFault))), Act(0, MarkSent)), body, other)
  {
    var p := DraftPlan(body);
    var s1 := Do(s, Act(0, Answer(RECEIPT)));
    AnswerDelivers(s, p);
    var s2 := Do(s1, Act(0, Complete(NoFault)));
    CompletingSettles(s1, p);
    MarkingMarks(s2, body);
  }

  lemma LastThreeSteps(body: string, other: string)
    ensures Run(Beginning(), EditedRun(body, other))
         == Do(Do(Do(At(EditedRun(body, other), 7), Act(0, Answer(RECEIPT))), Act(0, Complete(NoFault))), Act(0,
                                                                                                              MarkSent))
  {
    var steps := EditedRun(body, other);
    NextStep(steps, 7);
    NextStep(steps, 8);
    NextStep(steps, 9);
    assert steps[..10] == steps;
  }

  lemma RunDiverges(body: string, other: string)
    ensures Diverged(Run(Beginning(), EditedRun(body, other)), body, other)
  {
    RunEdits(body, other);
    LastThreeSteps(body, other);
    FinishingDiverges(At(EditedRun(body, other), 7), body, other);
  }

  /** For any two texts there is a run that delivers the first, while the draft's sent row ends with the second and
      its hash is not the receipt's. */
  lemma SentRowCanDiffer(body: string, other: string)
    requires body != other
    ensures var s := Run(Beginning(), EditedRun(body, other));
            && Diverged(s, body, other)
            && HashPayload(s.tables.drafts[ROW].payload) != s.tables.receipts[KeyOf(DraftPlan(body))].payloadHash
  {
    RunDiverges(body, other);
    assert HashPayload(Message(body)).body == body && HashPayload(Message(other)).body == other;
  }

  // ----- a crash between the receipt and the mark -----

  function CrashedRun(body: string): seq<Step> {
    EditedRun(body, body)[..9] + [Act(0, Crash)]
  }

  lemma CrashingStrands(s: State, body: string)
    requires InFlight(s, body, body)
    ensures var s' := Do(Do(Do(s, Act(0, Answer(RECEIPT))), Act(0, Complete(NoFault))), Act(0, Crash));
            && KeyOf(DraftPlan(body)) in s'.tables.receipts
            && s'.tables.receipts[KeyOf(DraftPlan(body))].receipt == RECEIPT
            && ROW in s'.tables.drafts && s'.tables.drafts[ROW].status == Editable
            && 0 in s'.calls && s'.calls[0].phase == Closed
  {
    var s1 := Do(s, Act(0, Answer(RECEIPT)));
    AnswerDelivers(s, DraftPlan(body));
    CompletingSettles(s1, DraftPlan(body));
    var s2 := Do(s1, Act(0, Complete(NoFault)));
    assert Do(s2, Act(0, Crash)).tables == s2.tables;
  }

  lemma CrashedSteps(body: string)
    ensures Run(Beginning(), CrashedRun(body))
         == Do(Do(Do(At(EditedRun(body, body), 7), Act(0, Answer(RECEIPT))), Act(0, Complete(NoFault))), Act(0, Crash))
  {
    var steps := EditedRun(body, body);
    NextStep(steps, 7);
    NextStep(steps, 8);
    assert CrashedRun(body)[..9] == steps[..9];
  }

  /** For any text there is a run that delivers it, stores its receipt with an accepted recipient, and leaves the draft
      editable because the call crashed before marking it. */
  lemma AcceptedDraftCanStayEditable(body: string)
    ensures var s := Run(Beginning(), CrashedRun(body));
            && KeyOf(DraftPlan(body)) in s.tables.receipts
            && |s.tables.receipts[KeyOf(DraftPlan(body))].receipt.accepted| > 0
            && ROW in s.tables.drafts && s.tables.drafts[ROW].status == Editable
            && 0 in s.calls && s.calls[0].phase == Closed
  {
    RunEdits(body, body);
    CrashedSteps(body);
    CrashingStrands(At(EditedRun(body, body), 7), body);
  }
}
