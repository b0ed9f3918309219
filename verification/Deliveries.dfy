/** What is stored about a send is what was really delivered: hashes and receipts trace back to the one submission. */
module Deliveries {
  import opened MailTypes
  import opened LedgerInvariants
  import opened SendProtocol
  import opened AtMostOnce
  import opened ProtocolLedger

  /** Each operation row carries the hash of the payload its holder planned to send. */
  predicate HashesOk(s: State) {
    forall k <- s.tables.operations ::
      && k in s.holder && s.holder[k] in s.calls
      && s.tables.operations[k].payloadHash == HashPayload(s.calls[s.holder[k]].plan.payload)
  }

  /** Each receipt is the answer its key's holder got from the transport. */
  predicate AnswersOk(s: State) {
    forall k <- s.tables.receipts ::
      k in s.holder && s.holder[k] in s.calls && s.calls[s.holder[k]].answer == Some(s.tables.receipts[k].receipt)
  }

  // ----- what one write may do to the two tables -----

  lemma OperationsChange(t: Tables, u: UserKey, c: Command, k: Owned<SendKey>)
    requires k in Execute(t, u, c).operations
    ensures if k in t.operations then Execute(t, u, c).operations[k].payloadHash == t.operations[k].payloadHash
            else c.DoReserve? && k == Owned(u, c.key) && Execute(t, u, c).operations[k].payloadHash == c.hash
  {
    match c
    case DoReserve(_, _, _, _, _, _, _, _, _) =>
    case DoComplete(_, _, _, _) =>
    case DoMarkUnknown(_, _, _, _, _) =>
    case _ => OtherWritesKeep(t, u, c);
  }

  lemma ReceiptsChange(t: Tables, u: UserKey, c: Command, k: Owned<SendKey>)
    requires k in Execute(t, u, c).receipts
    ensures (k in t.receipts && Execute(t, u, c).receipts[k] == t.receipts[k])
         || (c.DoComplete? && k == Owned(u, c.key) && Execute(t, u, c).receipts[k].receipt == c.receipt)
  {
    match c
    case DoReserve(_, _, _, _, _, _, _, _, _) =>
    case DoComplete(_, _, _, _) =>
    case DoMarkUnknown(_, _, _, _, _) =>
    case _ => OtherWritesKeep(t, u, c);
  }

  // ----- what one step does to holders and calls -----

  /** Holders keep their keys; calls keep their plans and answers. */
  predicate Remembers(s: State, s': State) {
    && (forall k <- s.holder :: k in s'.holder && s'.holder[k] == s.holder[k])
    && (forall id <- s.calls :: id in s'.calls && Grows(s.calls[id], s'.calls[id]))
  }

  lemma ActRemembers(s: State, id: CallId, action: Action)
    requires HoldersOk(s) && CallOk(s, id)
    ensures Remembers(s, ActStep(s, id, action))
  {
    ActShape(s, id, action);
    MovedRemembers(s, ActStep(s, id, action), id);
  }

  lemma WriteRemembers(s: State, u: UserKey, c: Command)
    ensures Remembers(s, WriteStep(s, u, c))
  {
    WriteShape(s, u, c);
  }

  lemma EnterRemembers(s: State, id: CallId, plan: Plan)
    ensures Remembers(s, Do(s, Enter(id, plan)))
  {
  }

  lemma StepRemembers(s: State, step: Step)
    requires Sound(s)
    ensures Remembers(s, Do(s, step))
  {
    match step
    case Write(u, c) => WriteRemembers(s, u, c);
    case Enter(id, plan) => EnterRemembers(s, id, plan);
    case Act(id, action) =>
      if id in s.calls {
        assert CallOk(s, id);
        ActRemembers(s, id, action);
      }
  }

  lemma MovedRemembers(s: State, s': State, id: CallId)
    requires HoldersOk(s) && id in s.calls && id in s'.calls && s'.calls == s.calls[id := s'.calls[id]]
    requires Grows(s.calls[id], s'.calls[id]) && HolderMoves(s, s', id)
    ensures Remembers(s, s')
  {
  }

  /** A reservation written by a step belongs to the call that took the step. */
  lemma ReservesOwnKey(s: State, step: Step)
    ensures var w := CommandOf(s, step);
            && (w.Some? && w.value.1.DoReserve? ==>
                  && step.Act? && step.id in s.calls && Owned(w.value.0, w.value.1.key) == KeyOf(s.calls[step.id].plan)
                  && w.value.1.hash == HashPayload(s.calls[step.id].plan.payload))
            && (w.Some? && w.value.1.DoComplete? ==>
                  && step.Act? && step.id in s.calls && Owned(w.value.0, w.value.1.key) == KeyOf(s.calls[step.id].plan)
                  && s.calls[step.id].phase == Answered(w.value.1.receipt))
  {
  }

  lemma NewHolder(s: State, id: CallId, action: Action, k: Owned<SendKey>)
    requires Sound(s) && id in s.calls && k !in s.tables.operations && k in ActStep(s, id, action).tables.operations
    ensures var s' := ActStep(s, id, action);
            && k in s'.holder && s'.holder[k] == id && id in s'.calls && s'.calls[id].plan == s.calls[id].plan
  {
    assert CallOk(s, id);
    ActShape(s, id, action);
  }

  lemma HashesStep(s: State, step: Step)
    requires Sound(s) && HashesOk(s)
    ensures HashesOk(Do(s, step))
  {
    var s', w := Do(s, step), CommandOf(s, step);
    StepIsAtMostOneWrite(s, step);
    StepRemembers(s, step);
    forall k <- s'.tables.operations
      ensures k in s'.holder && s'.holder[k] in s'.calls
      ensures s'.tables.operations[k].payloadHash == HashPayload(s'.calls[s'.holder[k]].plan.payload)
    {
      if w.Some? {
        OperationsChange(s.tables, w.value.0, w.value.1, k);
        ReservesOwnKey(s, step);
      }
      if k !in s.tables.operations {
        NewHolder(s, step.id, step.action, k);
      }
    }
  }

  /** The call that stores a receipt holds the key and stores the answer it got. */
  lemma AnsweredHolder(s: State, id: CallId)
    requires Sound(s) && id in s.calls && s.calls[id].phase.Answered?
    ensures var k := KeyOf(s.calls[id].plan);
            k in s.holder && s.holder[k] == id && s.calls[id].answer == Some(s.calls[id].phase.receipt)
  {
    assert PhaseOk(s.calls[id]);
  }

  lemma AnswersStep(s: State, step: Step)
    requires Sound(s) && AnswersOk(s)
    ensures AnswersOk(Do(s, step))
  {
    var s', w := Do(s, step), CommandOf(s, step);
    StepIsAtMostOneWrite(s, step);
    StepRemembers(s, step);
    forall k <- s'.tables.receipts
      ensures k in s'.holder && s'.holder[k] in s'.calls
      ensures s'.calls[s'.holder[k]].answer == Some(s'.tables.receipts[k].receipt)
    {
      if w.Some? {
        ReceiptsChange(s.tables, w.value.0, w.value.1, k);
        ReservesOwnKey(s, step);
      }
      if !(k in s.tables.receipts && s'.tables.receipts[k] == s.tables.receipts[k]) {
        AnsweredHolder(s, step.id);
      }
    }
  }

  lemma {:induction false} DeliveriesAlways(mailboxes: set<Owned<MailboxId>>, steps: seq<Step>)
    ensures HashesOk(Run(Start(mailboxes), steps)) && AnswersOk(Run(Start(mailboxes), steps))
  {
    if steps != [] {
      var s := Run(Start(mailboxes), steps[..|steps| - 1]);
      DeliveriesAlways(mailboxes, steps[..|steps| - 1]);
      SoundAlways(mailboxes, steps[..|steps| - 1]);
      HashesStep(s, steps[|steps| - 1]);
      AnswersStep(s, steps[|steps| - 1]);
    }
  }

  // ----- the result -----

  /** Event i is the submission of this key, and its payload has this hash. */
  predicate SubmittedWith(log: seq<Event>, i: nat, k: Owned<SendKey>, hash: PayloadHash) {
    i < |log| && log[i].Submitted? && log[i].key == k && HashPayload(log[i].payload) == hash
  }

  /** Every stored receipt belongs to exactly one transport call: the receipt is what that call returned to its
      caller, and the stored hash is that of the payload that call was given. */
  lemma ReceiptsAreDeliveries(mailboxes: set<Owned<MailboxId>>, steps: seq<Step>, k: Owned<SendKey>)
    requires k in Run(Start(mailboxes), steps).tables.receipts
    ensures var s := Run(Start(mailboxes), steps);
            && k in s.holder && s.holder[k] in s.calls
            && s.calls[s.holder[k]].answer == Some(s.tables.receipts[k].receipt)
            && (exists i: nat :: SubmittedWith(s.log, i, k, s.tables.receipts[k].payloadHash)
                                 && s.log[i].call == s.holder[k])
            && (forall i, j | 0 <= i < |s.log| && 0 <= j < |s.log| && s.log[i].Submitted? && s.log[j].Submitted?
                              && s.log[i].key == k && s.log[j].key == k :: i == j)
  {
    var s := Run(Start(mailboxes), steps);
    SoundAlways(mailboxes, steps);
    DeliveriesAlways(mailboxes, steps);
    ConsistentAlways(mailboxes, steps);
    SubmittedAtMostOnce(mailboxes, steps);
    SubmissionOf(s, k);
  }

  lemma SubmissionOf(s: State, k: Owned<SendKey>)
    requires Sound(s) && HashesOk(s) && AnswersOk(s) && ReceiptsAgree(s.tables.operations, s.tables.receipts)
    requires k in s.tables.receipts
    ensures k in s.holder && s.holder[k] in s.calls
    ensures exists i: nat ::
              SubmittedWith(s.log, i, k, s.tables.receipts[k].payloadHash) && s.log[i].call == s.holder[k]
              && s.log[i].payload == s.calls[s.holder[k]].plan.payload
  {
    var id := s.holder[k];
    var c := s.calls[id];
    assert k in s.tables.operations;
    assert PhaseOk(c) && PositionsOk(id, c, s.log);
    var i := c.submission.value;
    assert SubmittedWith(s.log, i, k, s.tables.receipts[k].payloadHash);
  }
}
