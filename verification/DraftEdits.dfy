/** Editing a draft with optimistic versions: what one edit does, and that no edit is lost to a stale one. */
module DraftEdits {
  import opened MailTypes
  import opened Ledger
  import opened LedgerInvariants
  import D = DraftLifecycle

  // ----- one edit -----

  predicate IsEdit(c: Command) {
    c.DoUpdateDraft? || c.DoAddAttachment? || c.DoRemoveAttachment?
  }

  /** What the edit answers its caller. */
  function Answer(t: Tables, u: UserKey, c: Command): Result<()>
    requires IsEdit(c)
  {
    match c
    case DoUpdateDraft(d, expected, payload, now) => UpdateDraft(t, u, d, expected, payload, now).result
    case DoAddAttachment(d, expected, a, now) => AddDraftAttachment(t, u, d, expected, a, now).result
    case DoRemoveAttachment(d, expected, id, now) => RemoveDraftAttachment(t, u, d, expected, id, now).result
  }

  /** An edit made with any but the row's current version is refused and leaves every table as it is. */
  lemma StaleEditIsRefused(t: Tables, u: UserKey, c: Command)
    requires IsEdit(c) && Owned(u, c.d) in t.drafts && t.drafts[Owned(u, c.d)].version != c.expected
    ensures Answer(t, u, c).Err? && Execute(t, u, c) == t
  {
  }

  /** An edit either answers an error and changes nothing, or is accepted, and then it was made with the current version
      of an editable row and raises that version. */
  lemma EditIsAllOrNothing(t: Tables, u: UserKey, c: Command)
    requires IsEdit(c)
    ensures var k, t' := Owned(u, c.d), Execute(t, u, c);
            if Answer(t, u, c).Err? then t' == t
            else
              && k in t.drafts && t.drafts[k].status == Editable && t.drafts[k].version == c.expected
              && k in t'.drafts && t'.drafts[k].status == Editable && t'.drafts[k].version == c.expected + 1
  {
  }

  /** What follows an update, error by error; and what an accepted one stores: this text, in this row, for the next
      version, with the draft's confirmations dropped and everything else as it was. */
  lemma UpdateIsExact(t: Tables, u: UserKey, d: DraftId, expected: nat, payload: Payload, now: Time)
    ensures var k, tx := Owned(u, d), UpdateDraft(t, u, d, expected, payload, now);
            && (tx.result == Err(DraftNotFound) <==> k !in t.drafts)
            && (k in t.drafts ==>
                  && (tx.result == Err(DraftAlreadySent) <==> t.drafts[k].status == Sent)
                  && (tx.result == Err(DraftVersionConflict) <==>
                        t.drafts[k].status == Editable && t.drafts[k].version != expected)
                  && (tx.result == Err(MailboxMismatch) <==>
                        t.drafts[k].status == Editable && t.drafts[k].version == expected
                        && t.drafts[k].payload.mailbox != payload.mailbox)
                  && (tx.result.Ok? <==>
                        t.drafts[k].status == Editable && t.drafts[k].version == expected
                        && t.drafts[k].payload.mailbox == payload.mailbox))
            && (tx.result.Err? ==> tx.tables == t)
            && (tx.result.Ok? ==>
                  && k in tx.tables.drafts && Stores(t.drafts[k], tx.tables.drafts[k], payload, now)
                  && OnlyRow(t, tx.tables, k) && OnlyDraftsRows(t, tx.tables, u, d))
  {
  }

  predicate Stores(before: Draft, after: Draft, payload: Payload, now: Time) {
    && after.payload == payload && after.version == before.version + 1 && after.status == Editable
    && after.mailbox == before.mailbox && after.updatedAt == now
    && after.sentAt == before.sentAt && after.messageId == before.messageId
  }

  /** Of the drafts only this row changes; besides drafts and confirmations nothing does. */
  predicate OnlyRow(t: Tables, t': Tables, k: Owned<DraftId>) {
    && t'.drafts.Keys == t.drafts.Keys + {k} && (forall l <- t.drafts | l != k :: t'.drafts[l] == t.drafts[l])
    && t'.mailboxes == t.mailboxes && t'.policies == t.policies && t'.operations == t.operations
    && t'.receipts == t.receipts && t'.rateEvents == t.rateEvents && t'.sendAudit == t.sendAudit
  }

  /** The confirmations of this draft are gone and all others are as they were. */
  predicate OnlyDraftsRows(t: Tables, t': Tables, u: UserKey, d: DraftId) {
    && t'.confirmations.Keys <= t.confirmations.Keys
    && forall c <- t.confirmations ::
         if c.user == u && t.confirmations[c].draft == d then c !in t'.confirmations
         else c in t'.confirmations && t'.confirmations[c] == t.confirmations[c]
  }

  /** A draft is created, at version 1 and unsent, exactly if the mailbox is there and the id is new. */
  lemma CreateIsExact(t: Tables, u: UserKey, d: DraftId, payload: Payload, now: Time)
    ensures var k, tx := Owned(u, d), CreateDraft(t, u, d, payload, now);
            && (tx.result == Err(MailboxNotFound) <==> Owned(u, payload.mailbox) !in t.mailboxes)
            && (tx.result == Err(ConstraintFailed) <==> Owned(u, payload.mailbox) in t.mailboxes && k in t.drafts)
            && (tx.result.Ok? <==> Owned(u, payload.mailbox) in t.mailboxes && k !in t.drafts)
            && (tx.result.Err? ==> tx.tables == t)
            && (tx.result.Ok? ==>
                  && OnlyRow(t, tx.tables, k) && tx.tables.confirmations == t.confirmations && k in tx.tables.drafts
                  && var row := tx.tables.drafts[k];
                     && row.version == 1 && row.status == Editable && row.payload == payload
                     && row.mailbox == payload.mailbox && row.updatedAt == now
                     && row.sentAt.None? && row.messageId.None?)
  {
  }

  /** An edit of an attachment is refused like an update of the text, except that an id in use, or none to remove, is
      reported first; and nothing at all can be done to a draft that is not there. */
  lemma AttachmentRefusals(
    t: Tables, u: UserKey, d: DraftId, expected: nat, a: Attachment, id: string, receipt: Receipt, now: Time)
    ensures var k, added, removed, marked := Owned(u, d), AddDraftAttachment(t, u, d, expected, a, now),
                                             RemoveDraftAttachment(t, u, d, expected, id, now),
                                             MarkDraftSent(t, u, d, receipt);
            if k !in t.drafts then
              && added.result == Err(DraftNotFound) && removed.result == Err(DraftNotFound)
              && marked == Tx(t, Err(DraftNotFound))
            else
              var row, all := t.drafts[k], t.drafts[k].payload.attachments;
              && (added.result == Err(AttachmentConflict) <==> exists b <- all :: b.id == a.id)
              && (added.result == Err(DraftAlreadySent) <==> (forall b <- all :: b.id != a.id) && row.status == Sent)
              && (added.result == Err(DraftVersionConflict) <==>
                    (forall b <- all :: b.id != a.id) && row.status == Editable && row.version != expected)
              && (removed.result == Err(AttachmentNotFound) <==> forall b <- all :: b.id != id)
              && (removed.result == Err(DraftAlreadySent) <==> (exists b <- all :: b.id == id) && row.status == Sent)
              && (removed.result == Err(DraftVersionConflict) <==>
                    (exists b <- all :: b.id == id) && row.status == Editable && row.version != expected)
              && marked.result.Ok?
  {
    if Owned(u, d) in t.drafts {
      WithoutIsShorter(t.drafts[Owned(u, d)].payload.attachments, id);
    }
  }

  lemma {:induction false} WithoutIsShorter(attachments: seq<Attachment>, id: string)
    ensures |Without(attachments, id)| <= |attachments|
    ensures |Without(attachments, id)| == |attachments| <==> forall a <- attachments :: a.id != id
  {
    if attachments != [] {
      var init, last := attachments[..|attachments| - 1], attachments[|attachments| - 1];
      WithoutIsShorter(init, id);
      assert attachments == init + [last];
    }
  }

  /** Marking a draft sent takes no version, changes an editable row only, and records what the receipt says. */
  lemma MarkIsExact(t: Tables, u: UserKey, d: DraftId, receipt: Receipt)
    requires Owned(u, d) in t.drafts
    ensures var k, tx := Owned(u, d), MarkDraftSent(t, u, d, receipt);
            && tx.result.Ok? && OnlyRow(t, tx.tables, k) && tx.tables.confirmations == t.confirmations
            && var before, after := t.drafts[k], tx.tables.drafts[k];
               if before.status == Sent then tx.tables == t
               else
                 && after.status == Sent && after.version == before.version + 1 && after.payload == before.payload
                 && after.mailbox == before.mailbox && after.sentAt == Some(receipt.sentAt)
                 && after.messageId == Some(receipt.messageId) && after.updatedAt == receipt.sentAt
  {
  }

  // ----- no lost update -----

  predicate Changes(t: Tables, u: UserKey, c: Command) {
    Execute(t, u, c) != t
  }

  /** The state in which the i-th command is executed. */
  function Before(t: Tables, commands: seq<(UserKey, Command)>, i: nat): Tables
    requires i < |commands|
  {
    ExecuteAll(t, commands[..i])
  }

  lemma {:induction false} ExecuteMore(t: Tables, commands: seq<(UserKey, Command)>, i: nat, j: nat)
    requires i <= j <= |commands|
    ensures ExecuteAll(t, commands[..j]) == ExecuteAll(ExecuteAll(t, commands[..i]), commands[i..j])
    decreases j - i
  {
    if i < j {
      ExecuteMore(t, commands, i, j - 1);
      assert commands[..j][..j - 1] == commands[..j - 1] && commands[i..j][..j - 1 - i] == commands[i..j - 1];
      assert commands[..j][j - 1] == commands[j - 1] && commands[i..j][j - 1 - i] == commands[j - 1];
    } else {
      assert commands[i..j] == [];
    }
  }

  /** Of any two edits of one draft made with the same version at most one is accepted, whatever is executed before,
      between and after them: nobody overwrites a text that he has not seen. */
  lemma NoLostUpdate(t: Tables, commands: seq<(UserKey, Command)>, i: nat, j: nat)
    requires i < j < |commands| && commands[i].0 == commands[j].0
    requires IsEdit(commands[i].1) && IsEdit(commands[j].1)
    requires commands[i].1.d == commands[j].1.d && commands[i].1.expected == commands[j].1.expected
    requires Answer(Before(t, commands, i), commands[i].0, commands[i].1).Ok?
    ensures Answer(Before(t, commands, j), commands[j].0, commands[j].1).Err?
    ensures !Changes(Before(t, commands, j), commands[j].0, commands[j].1)
  {
    var (u, c) := commands[i];
    var k, edited := Owned(u, c.d), Execute(Before(t, commands, i), u, c);
    EditIsAllOrNothing(Before(t, commands, i), u, c);
    assert commands[..i + 1][..i] == commands[..i] && commands[..i + 1][i] == commands[i];
    assert ExecuteAll(t, commands[..i + 1]) == edited;
    ExecuteMore(t, commands, i + 1, j);
    D.VersionsIdentifyRows(edited, commands[i + 1..j], k);
    StaleEditIsRefused(Before(t, commands, j), u, commands[j].1);
  }

  // ----- attachments -----

  /** The attachment at position i, if its id occurs only there, and no other is removed; the order stays. */
  lemma {:induction false} WithoutOne(attachments: seq<Attachment>, i: nat)
    requires i < |attachments|
    requires forall j | 0 <= j < |attachments| && j != i :: attachments[j].id != attachments[i].id
    ensures Without(attachments, attachments[i].id) == attachments[..i] + attachments[i + 1..]
  {
    var init, last := attachments[..|attachments| - 1], attachments[|attachments| - 1];
    if i < |init| {
      WithoutOne(init, i);
      assert init[..i] + init[i + 1..] + [last] == attachments[..i] + attachments[i + 1..];
    } else {
      WithoutNone(init, attachments[i].id);
      assert attachments[..i] + attachments[i + 1..] == init;
    }
  }

  lemma {:induction false} WithoutNone(attachments: seq<Attachment>, id: string)
    requires forall a <- attachments :: a.id != id
    ensures Without(attachments, id) == attachments
  {
    if attachments != [] {
      WithoutNone(attachments[..|attachments| - 1], id);
    }
  }

  /** Adding appends, keeps the rest of the text, and refuses an id that is in use; removing the added attachment from
      the version that adding made gives the text back that was there before. */
  lemma AddThenRemove(t: Tables, u: UserKey, d: DraftId, a: Attachment, now: Time, later: Time)
    requires Owned(u, d) in t.drafts && t.drafts[Owned(u, d)].status == Editable
    ensures var k := Owned(u, d);
            var version, payload := t.drafts[k].version, t.drafts[k].payload;
            var added := AddDraftAttachment(t, u, d, version, a, now);
            && (added.result == Err(AttachmentConflict) <==> exists b <- payload.attachments :: b.id == a.id)
            && (added.result.Ok? <==> forall b <- payload.attachments :: b.id != a.id)
            && (added.result.Ok? ==>
                  && added.tables.drafts[k].payload == payload.(attachments := payload.attachments + [a])
                  && var removed := RemoveDraftAttachment(added.tables, u, d, version + 1, a.id, later);
                     && removed.result.Ok? && removed.tables.drafts[k].payload == payload
                     && removed.tables.drafts[k].version == version + 2)
  {
    var attachments := t.drafts[Owned(u, d)].payload.attachments;
    if forall b <- attachments :: b.id != a.id {
      WithoutOne(attachments + [a], |attachments|);
      assert (attachments + [a])[..|attachments|] + (attachments + [a])[|attachments| + 1..] == attachments;
    }
  }

  /** Removing takes exactly one attachment out, wherever it stands, and reports one that is not there. */
  lemma RemoveIsExact(t: Tables, u: UserKey, d: DraftId, id: string, now: Time)
    requires Owned(u, d) in t.drafts && t.drafts[Owned(u, d)].status == Editable
    requires var all := t.drafts[Owned(u, d)].payload.attachments;
             forall i, j | 0 <= i < j < |all| :: all[i].id != all[j].id
    ensures var k := Owned(u, d);
            var all := t.drafts[k].payload.attachments;
            var tx := RemoveDraftAttachment(t, u, d, t.drafts[k].version, id, now);
            && (tx.result == Err(AttachmentNotFound) <==> forall a <- all :: a.id != id)
            && (tx.result.Ok? <==> exists a <- all :: a.id == id)
            && (forall i | 0 <= i < |all| && all[i].id == id ::
                  tx.tables.drafts[k].payload == t.drafts[k].payload.(attachments := all[..i] + all[i + 1..]))
  {
    var all := t.drafts[Owned(u, d)].payload.attachments;
    if i :| 0 <= i < |all| && all[i].id == id {
      WithoutOne(all, i);
      assert all[i] in all;
      assert forall j | 0 <= j < |all| && all[j].id == id :: j == i;
    } else {
      WithoutNone(all, id);
    }
  }
}
