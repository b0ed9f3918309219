/** What the drafting calls accept and what they store, field by field and in plain numbers. */
module ServiceDetails {
  import opened MailTypes
  import opened Ledger
  import S = SendServiceSpec
  import V = ServiceInvariants
  import E = DraftEdits

  // ----- composing -----

  /** A text is composed exactly if the mailbox is registered, there are 1 to 50 recipients, and subject and body obey
      the text rules; and each field of the input is the field of that name of the payload. */
  lemma ComposeIsExact(reg: S.Registry, input: S.ComposeInput)
    ensures var r, count := S.Compose(reg, input), |input.to| + |input.cc| + |input.bcc|;
            && (r == Err(MailboxNotFound) <==> input.mailbox !in reg)
            && (r.Ok? <==>
                  && input.mailbox in reg && 1 <= count <= 50 && input.subject.Some? && input.body.Some?)
            && (r.Err? ==> r.error == MailboxNotFound || r.error == InvalidArgument)
            && (r.Ok? ==>
                  && r.value.mailbox == input.mailbox && r.value.to == input.to && r.value.cc == input.cc
                  && r.value.bcc == input.bcc && Some(r.value.subject) == input.subject
                  && Some(r.value.body) == input.body && r.value.inReplyTo.None? && r.value.references == []
                  && r.value.attachments == [])
  {
  }

  /** A created draft holds the composed text; a draft of a reply goes to whom the reply is to and keeps the thread. */
  lemma CreatedDraftsHoldTheirText(
    reg: S.Registry, t: Tables, u: UserKey, input: S.ComposeInput, reply: Result<S.Reply>, d: DraftId, now: Time)
    ensures var tx := S.CreateDraft(reg, t, u, input, d, now);
            tx.result.Ok? ==>
              && Owned(u, d) !in t.drafts && Owned(u, d) in tx.tables.drafts
              && var row := tx.tables.drafts[Owned(u, d)];
                 && row.version == 1 && row.status == Editable && row.payload.to == input.to
                 && row.payload.cc == input.cc && row.payload.bcc == input.bcc
                 && Some(row.payload.body) == input.body && Some(row.payload.subject) == input.subject
    ensures var tx := S.CreateReplyDraft(t, u, reply, d, now);
            tx.result.Ok? ==>
              && reply.Ok? && Owned(u, d) !in t.drafts && Owned(u, d) in tx.tables.drafts
              && var row, r := tx.tables.drafts[Owned(u, d)], reply.value;
                 && row.version == 1 && row.status == Editable && row.payload.mailbox == r.mailbox
                 && row.payload.to == [r.to] && row.payload.cc == [] && row.payload.bcc == []
                 && row.payload.subject == r.subject && row.payload.body == r.body
                 && row.payload.inReplyTo == Some(r.inReplyTo) && row.payload.references == r.references
                 && row.payload.attachments == []
  {
    ComposeIsExact(reg, input);
    if S.Compose(reg, input).Ok? {
      E.CreateIsExact(t, u, d, S.Compose(reg, input).value, now);
    }
  }

  /** Updating a draft replaces text and recipients, and keeps the thread and the attachments. */
  lemma UpdateKeepsThreadAndAttachments(
    reg: S.Registry, t: Tables, u: UserKey, d: DraftId, expected: nat, input: S.ComposeInput, now: Time)
    ensures var tx := S.UpdateDraft(reg, t, u, d, expected, input, now);
            && (tx.result.Ok? <==>
                  && Owned(u, d) in t.drafts && S.Compose(reg, input).Ok?
                  && t.drafts[Owned(u, d)].payload.mailbox == input.mailbox
                  && t.drafts[Owned(u, d)].status == Editable && t.drafts[Owned(u, d)].version == expected)
            && (tx.result == Err(DraftNotFound) <==> Owned(u, d) !in t.drafts)
            && (Owned(u, d) in t.drafts && t.drafts[Owned(u, d)].payload.mailbox != input.mailbox ==>
                  tx.result == Err(MailboxMismatch))
            && (tx.result.Ok? ==>
                  var before, after := t.drafts[Owned(u, d)].payload, tx.tables.drafts[Owned(u, d)].payload;
                  && after.to == input.to && after.cc == input.cc && after.bcc == input.bcc
                  && Some(after.subject) == input.subject && Some(after.body) == input.body
                  && after.inReplyTo == before.inReplyTo && after.references == before.references
                  && after.attachments == before.attachments && after.mailbox == before.mailbox)
  {
    ComposeIsExact(reg, input);
  }

  // ----- attachments -----

  /** An attachment is accepted exactly with a proper name and type, no blocked extension, and 1 byte to 10 MiB of
      well-formed content; its recorded size and digest are those of its bytes. */
  lemma NormalizeIsExact(input: S.AttachmentInput, id: string)
    ensures var r := S.NormalizeAttachment(input, id);
            && (r.Ok? <==>
                  && input.filename.Some? && !input.blocked && input.mimeType.Some? && input.content.Some?
                  && 1 <= |input.content.value| <= 10_485_760)
            && (r == Err(AttachmentTypeBlocked) <==> input.filename.Some? && input.blocked)
            && (r == Err(AttachmentLimitExceeded) <==>
                  && input.filename.Some? && !input.blocked && input.mimeType.Some? && input.content.Some?
                  && 10_485_760 < |input.content.value| <= 10_485_765)
            && (r.Err? ==> r.error in {InvalidAttachment, AttachmentTypeBlocked, AttachmentLimitExceeded})
            && (r.Ok? ==>
                  && r.value.id == id && Some(r.value.filename) == input.filename
                  && Some(r.value.mimeType) == input.mimeType && Some(r.value.content) == input.content
                  && Digested(r.value))
  {
  }

  /** The length of padded base64: the least multiple of four that has six bits for every eight. */
  lemma EncodedLengthIsLeast(bytes: nat)
    ensures S.EncodedLength(bytes) % 4 == 0 && 6 * S.EncodedLength(bytes) >= 8 * bytes
    ensures bytes > 0 ==> 6 * (S.EncodedLength(bytes) - 4) < 8 * bytes
    ensures S.EncodedLength(0) == 0
  {
  }

  /** It is added exactly if the draft is editable and of the given version, has fewer than 10 attachments and none of
      this id, and stays within 18 MiB in all; then it is the last one, and nothing else of the text changes. */
  lemma AttachExactlyWhen(
    t: Tables, u: UserKey, d: DraftId, expected: nat, input: S.AttachmentInput, id: string, now: Time)
    ensures var k, tx := Owned(u, d), S.AddDraftAttachment(t, u, d, expected, input, id, now);
            && (tx.result.Ok? <==>
                  && k in t.drafts && t.drafts[k].status == Editable && t.drafts[k].version == expected
                  && |t.drafts[k].payload.attachments| < 10 && S.NormalizeAttachment(input, id).Ok?
                  && S.TotalSize(t.drafts[k].payload.attachments) + |input.content.value| <= 18_874_368
                  && forall a <- t.drafts[k].payload.attachments :: a.id != id)
            && (tx.result == Err(DraftNotFound) <==> k !in t.drafts)
            && (k in t.drafts ==>
                  && (tx.result == Err(DraftAlreadySent) <==> t.drafts[k].status == Sent)
                  && (tx.result == Err(DraftVersionConflict) <==>
                        t.drafts[k].status == Editable && t.drafts[k].version != expected)
                  && (t.drafts[k].status == Editable && t.drafts[k].version == expected
                      && S.NormalizeAttachment(input, id).Ok? ==>
                        (tx.result == Err(AttachmentLimitExceeded) <==>
                           |t.drafts[k].payload.attachments| >= 10
                           || S.TotalSize(t.drafts[k].payload.attachments) + |input.content.value| > 18_874_368)))
            && (tx.result.Err? ==> tx.tables == t)
            && (tx.result.Ok? ==>
                  var before, after := t.drafts[k].payload, tx.tables.drafts[k].payload;
                  && |after.attachments| == |before.attachments| + 1
                  && after == before.(attachments := after.attachments)
                  && (forall i | 0 <= i < |before.attachments| :: after.attachments[i] == before.attachments[i])
                  && Some(after.attachments[|before.attachments|].content) == input.content
                  && after.attachments[|before.attachments|].id == id)
  {
    NormalizeIsExact(input, id);
  }

  function SumOfSizes(attachments: seq<Attachment>): nat {
    if attachments == [] then 0 else attachments[0].size + SumOfSizes(attachments[1..])
  }

  lemma {:induction false} TotalIsSum(attachments: seq<Attachment>)
    ensures S.TotalSize(attachments) == SumOfSizes(attachments)
  {
    if attachments != [] {
      TotalIsSum(attachments[1..]);
      FirstCounts(attachments);
    }
  }

  lemma {:induction false} FirstCounts(attachments: seq<Attachment>)
    requires attachments != []
    ensures S.TotalSize(attachments) == attachments[0].size + S.TotalSize(attachments[1..])
  {
    if |attachments| > 1 {
      var init := attachments[..|attachments| - 1];
      FirstCounts(init);
      assert init[1..] == attachments[1..][..|attachments| - 2];
    }
  }

  // ----- policies -----

  /** A policy is replaced exactly if the mailbox is registered and known and the policy is within the schema; then it
      is read back, its version is one more, every confirmation of the mailbox's drafts is gone, and nothing of other
      mailboxes changes. */
  lemma PolicyIsReadBack(reg: S.Registry, t: Tables, u: UserKey, m: MailboxId, policy: Policy)
    ensures var tx := S.UpdateSendPolicy(reg, t, u, m, policy);
            && (tx.result.Ok? <==>
                  && m in reg && Owned(u, m) in t.mailboxes && 1 <= policy.maxRecipients <= 50
                  && 1 <= policy.maxPerHour <= 500 && 1 <= policy.maxPerDay <= 5000
                  && 30 <= policy.ttlSeconds <= 600 && |policy.allowed| <= 128 && |policy.denied| <= 128)
            && (tx.result == Err(MailboxNotFound) <==> m !in reg || Owned(u, m) !in t.mailboxes)
            && (tx.result.Err? ==> tx.tables == t && tx.result.error in {MailboxNotFound, InvalidArgument})
            && (GetSendPolicy(t, u, m) == Err(MailboxNotFound) <==> Owned(u, m) !in t.mailboxes)
            && (tx.result.Ok? ==>
                  && GetSendPolicy(tx.tables, u, m).Ok? && GetSendPolicy(tx.tables, u, m).value.policy == policy
                  && GetSendPolicy(tx.tables, u, m).value.version == CurrentPolicy(t, u, m).version + 1
                  && (forall v, n | Owned(v, n) != Owned(u, m) ::
                        GetSendPolicy(tx.tables, v, n) == GetSendPolicy(t, v, n))
                  && (forall c <- t.confirmations ::
                        c in tx.tables.confirmations <==>
                        !(c.user == u && DraftInMailbox(t, u, t.confirmations[c].draft, m)))
                  && (forall c <- tx.tables.confirmations ::
                        c in t.confirmations && tx.tables.confirmations[c] == t.confirmations[c])
                  && tx.tables == t.(policies := tx.tables.policies, confirmations := tx.tables.confirmations))
  {
    if CurrentPolicy(t, u, m).version == 0 && Owned(u, m) in t.policies {
      assert t.policies[Owned(u, m)].version == 0;
    }
  }

  /** Without a row a mailbox has the default: drafts only, ten recipients, twenty an hour and a hundred a day, external
      recipients allowed with a warning, three minutes to confirm. */
  lemma DefaultPolicy(t: Tables, u: UserKey, m: MailboxId)
    requires Owned(u, m) in t.mailboxes && Owned(u, m) !in t.policies
    ensures GetSendPolicy(t, u, m).Ok?
    ensures var p := GetSendPolicy(t, u, m).value.policy;
            && p.mode == DraftOnly && p.allowed == [] && p.denied == [] && p.maxRecipients == 10 && p.maxPerHour == 20
            && p.maxPerDay == 100 && p.external == Warn && p.ttlSeconds == 180
  {
  }
}
