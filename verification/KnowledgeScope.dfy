/** Removing copies of one message found in several folders, in one pass. */
module KnowledgeScope {
  import opened MailTypes

  /** `rank` is the folder's preference, smaller is better; `sender` and `subject` are already normalised. */
  datatype Summary = Summary(
    mailbox: MailboxId, folder: string, rank: nat, uid: nat, receivedAt: Time, sender: string, subject: string,
    attachments: nat)

  datatype DedupeKey = DedupeKey(mailbox: MailboxId, receivedAt: Time, sender: string, subject: string,
                                 attachments: nat)

  function KeyOf(m: Summary): DedupeKey {
    DedupeKey(m.mailbox, m.receivedAt, m.sender, m.subject, m.attachments)
  }

  // ----- the specification: look at every other message -----

  /** ms[i] is the first among those of its key that lie in the most preferred folder. */
  predicate Chosen(ms: seq<Summary>, i: nat) {
    && i < |ms|
    && forall j | 0 <= j < |ms| && KeyOf(ms[j]) == KeyOf(ms[i]) ::
         ms[i].rank < ms[j].rank || (ms[i].rank == ms[j].rank && i <= j)
  }

  /** Keys in the order of their first occurrence. */
  function FirstKeys(ms: seq<Summary>): seq<DedupeKey> {
    if ms == [] then []
    else
      var before, k := FirstKeys(ms[..|ms| - 1]), KeyOf(ms[|ms| - 1]);
      if k in before then before else before + [k]
  }

  predicate HasKey(ms: seq<Summary>, k: DedupeKey) {
    exists m <- ms :: KeyOf(m) == k
  }

  lemma {:induction false} FirstKeysAreKeys(ms: seq<Summary>)
    ensures forall k :: k in FirstKeys(ms) <==> HasKey(ms, k)
    ensures forall i, j | 0 <= i < j < |FirstKeys(ms)| :: FirstKeys(ms)[i] != FirstKeys(ms)[j]
  {
    if ms != [] {
      var init, last := ms[..|ms| - 1], ms[|ms| - 1];
      FirstKeysAreKeys(init);
      assert ms == init + [last];
      assert forall k :: HasKey(ms, k) <==> HasKey(init, k) || k == KeyOf(last);
    }
  }

  /** Where the code's running choice for a key stands after all of ms. */
  function Choose(ms: seq<Summary>, k: DedupeKey): (c: Option<nat>)
    ensures c.Some? ==> c.value < |ms| && KeyOf(ms[c.value]) == k
  {
    if ms == [] then None
    else
      var last := |ms| - 1;
      var c := Choose(ms[..last], k);
      if KeyOf(ms[last]) != k then c
      else if c.None? || ms[last].rank < ms[c.value].rank then Some(last)
      else c
  }

  /** The running choice is the specified one: it exists exactly for the keys that occur, and it is the first
      message of minimal rank among all messages of its key. */
  lemma {:induction false} ChooseIsChosen(ms: seq<Summary>, k: DedupeKey)
    ensures Choose(ms, k).Some? <==> HasKey(ms, k)
    ensures Choose(ms, k).Some? ==> Chosen(ms, Choose(ms, k).value)
  {
    if ms != [] {
      var init, last := ms[..|ms| - 1], ms[|ms| - 1];
      ChooseIsChosen(init, k);
      assert ms == init + [last];
      assert HasKey(ms, k) <==> HasKey(init, k) || k == KeyOf(last);
      if Choose(ms, k).Some? {
        var c := Choose(ms, k).value;
        forall j | 0 <= j < |ms| && KeyOf(ms[j]) == k
          ensures ms[c].rank < ms[j].rank || (ms[c].rank == ms[j].rank && c <= j)
        {
          if j < |init| {
            assert init[j] == ms[j] && init[j] in init;
          }
        }
      }
    }
  }

  /** One chosen message per key, keys in first-occurrence order. */
  function Dedupe(ms: seq<Summary>): seq<Summary> {
    var keys := FirstKeys(ms);
    seq(|keys|, n requires 0 <= n < |keys| =>
          var c := Choose(ms, keys[n]); if c.Some? then ms[c.value] else ms[0])
  }

  /** The map holds the running choice of every key met so far. */
  predicate Tracks(seen: seq<Summary>, best: map<DedupeKey, Summary>) {
    && (forall k <- best :: Choose(seen, k).Some? && best[k] == seen[Choose(seen, k).value])
    && (forall m <- seen :: KeyOf(m) in best)
  }

  lemma TrackNext(seen: seq<Summary>, best: map<DedupeKey, Summary>, m: Summary)
    requires Tracks(seen, best)
    ensures KeyOf(m) !in best ==> Tracks(seen + [m], best[KeyOf(m) := m])
    ensures KeyOf(m) in best && m.rank < best[KeyOf(m)].rank ==> Tracks(seen + [m], best[KeyOf(m) := m])
    ensures KeyOf(m) in best && m.rank >= best[KeyOf(m)].rank ==> Tracks(seen + [m], best)
  {
    var after, key := seen + [m], KeyOf(m);
    assert after[..|seen|] == seen;
    ChooseIsChosen(seen, key);
    forall k <- best ensures k != key ==> Choose(after, k) == Choose(seen, k) {
    }
  }

  method DedupeSummaries(ms: seq<Summary>) returns (r: seq<Summary>)
    ensures r == Dedupe(ms)
  {
    var best: map<DedupeKey, Summary> := map[];
    var order: seq<DedupeKey> := [];
    var i := 0;
    while i < |ms|
      invariant 0 <= i <= |ms|
      invariant order == FirstKeys(ms[..i]) && Tracks(ms[..i], best)
    {
      var message := ms[i];
      var key := KeyOf(message);
      TrackNext(ms[..i], best, message);
      assert ms[..i + 1] == ms[..i] + [message];
      NextFirstKeys(ms[..i], message);
      TracksExactlyKeys(ms[..i], best, key);
      if key !in best {
        best := best[key := message];
        order := order + [key];
      } else if message.rank < best[key].rank {
        best := best[key := message];
      }
      i := i + 1;
    }
    assert ms[..i] == ms;
    forall n | 0 <= n < |order| ensures order[n] in best {
      FirstKeysAreKeys(ms);
      assert order[n] in order;
    }
    r := seq(|order|, n requires 0 <= n < |order| && order[n] in best => best[order[n]]);
  }

  lemma NextFirstKeys(seen: seq<Summary>, m: Summary)
    ensures FirstKeys(seen + [m])
         == if KeyOf(m) in FirstKeys(seen) then FirstKeys(seen) else FirstKeys(seen) + [KeyOf(m)]
  {
    assert (seen + [m])[..|seen|] == seen;
  }

  lemma TracksExactlyKeys(seen: seq<Summary>, best: map<DedupeKey, Summary>, k: DedupeKey)
    requires Tracks(seen, best)
    ensures k in best <==> k in FirstKeys(seen)
  {
    FirstKeysAreKeys(seen);
    ChooseIsChosen(seen, k);
  }

  // ----- what the result is -----

  lemma DedupeIsSpecified(ms: seq<Summary>)
    ensures var r := Dedupe(ms);
            && |r| == |FirstKeys(ms)|
            && forall n | 0 <= n < |r| ::
                 exists i :: 0 <= i < |ms| && Chosen(ms, i) && r[n] == ms[i] && KeyOf(r[n]) == FirstKeys(ms)[n]
  {
    FirstKeysAreKeys(ms);
    forall n | 0 <= n < |Dedupe(ms)|
      ensures exists i ::
                && 0 <= i < |ms| && Chosen(ms, i) && Dedupe(ms)[n] == ms[i]
                && KeyOf(Dedupe(ms)[n]) == FirstKeys(ms)[n]
    {
      var k := FirstKeys(ms)[n];
      assert k in FirstKeys(ms);
      ChooseIsChosen(ms, k);
      assert Chosen(ms, Choose(ms, k).value) && Dedupe(ms)[n] == ms[Choose(ms, k).value];
    }
  }

  /** Every input message is represented by one of equal key in a folder at least as preferred. */
  lemma EveryMessageIsRepresented(ms: seq<Summary>, m: Summary)
    requires m in ms
    ensures exists r :: r in Dedupe(ms) && KeyOf(r) == KeyOf(m) && r.rank <= m.rank && r in ms
  {
    FirstKeysAreKeys(ms);
    ChooseIsChosen(ms, KeyOf(m));
    var n :| 0 <= n < |FirstKeys(ms)| && FirstKeys(ms)[n] == KeyOf(m);
    var r := Dedupe(ms)[n];
    assert r == ms[Choose(ms, KeyOf(m)).value];
    assert r in Dedupe(ms) && r in ms;
  }

  predicate NewestFirst(ms: seq<Summary>) {
    forall i, j | 0 <= i < j < |ms| :: ms[i].receivedAt >= ms[j].receivedAt
  }

  lemma {:induction false} FirstKeysNewestFirst(ms: seq<Summary>)
    requires NewestFirst(ms)
    ensures forall i, j | 0 <= i < j < |FirstKeys(ms)| :: FirstKeys(ms)[i].receivedAt >= FirstKeys(ms)[j].receivedAt
  {
    if ms != [] {
      var init, last := ms[..|ms| - 1], ms[|ms| - 1];
      FirstKeysNewestFirst(init);
      FirstKeysAreKeys(init);
      forall n | 0 <= n < |FirstKeys(init)| ensures FirstKeys(init)[n].receivedAt >= last.receivedAt {
        assert FirstKeys(init)[n] in FirstKeys(init);
        var m :| m in init && KeyOf(m) == FirstKeys(init)[n];
      }
    }
  }

  /** Although messages are replaced by others of their key, the newest-first order of the input survives. */
  lemma DedupeKeepsOrder(ms: seq<Summary>)
    requires NewestFirst(ms)
    ensures NewestFirst(Dedupe(ms))
  {
    FirstKeysNewestFirst(ms);
    DedupeIsSpecified(ms);
    forall n | 0 <= n < |Dedupe(ms)| ensures Dedupe(ms)[n].receivedAt == FirstKeys(ms)[n].receivedAt {
      assert KeyOf(Dedupe(ms)[n]) == FirstKeys(ms)[n];
    }
  }

  predicate KeysDiffer(ms: seq<Summary>) {
    forall i, j | 0 <= i < j < |ms| :: KeyOf(ms[i]) != KeyOf(ms[j])
  }

  lemma {:induction false} DistinctKeysAreUntouched(ms: seq<Summary>)
    requires KeysDiffer(ms)
    ensures Dedupe(ms) == ms
  {
    DistinctFirstKeys(ms);
    forall n | 0 <= n < |ms| ensures Dedupe(ms)[n] == ms[n] {
      assert ms[n] in ms;
      ChooseIsChosen(ms, KeyOf(ms[n]));
    }
  }

  lemma {:induction false} DistinctFirstKeys(ms: seq<Summary>)
    requires KeysDiffer(ms)
    ensures |FirstKeys(ms)| == |ms| && forall n | 0 <= n < |ms| :: FirstKeys(ms)[n] == KeyOf(ms[n])
  {
    if ms != [] {
      DistinctFirstKeys(ms[..|ms| - 1]);
    }
  }

  lemma DedupeIsIdempotent(ms: seq<Summary>)
    ensures Dedupe(Dedupe(ms)) == Dedupe(ms)
  {
    FirstKeysAreKeys(ms);
    DedupeIsSpecified(ms);
    var r := Dedupe(ms);
    forall i, j | 0 <= i < j < |r| ensures KeyOf(r[i]) != KeyOf(r[j]) {
      assert KeyOf(r[i]) == FirstKeys(ms)[i] && KeyOf(r[j]) == FirstKeys(ms)[j];
    }
    DistinctKeysAreUntouched(r);
  }

  /** The same mail in two folders, as far as can be told. */
  predicate Alike(a: Summary, b: Summary) {
    && a.mailbox == b.mailbox && a.receivedAt == b.receivedAt && a.sender == b.sender && a.subject == b.subject
    && a.attachments == b.attachments
  }

  /** In plain words: of all messages that are alike exactly one is kept, one that was there, from the most preferred of
      their folders; and no two that are kept are alike. */
  lemma DedupeMergesExactlyAlike(ms: seq<Summary>)
    ensures var r := Dedupe(ms);
            && (forall i, j | 0 <= i < j < |r| :: !Alike(r[i], r[j]))
            && (forall m <- r :: m in ms)
            && forall m <- ms :: exists n :: n in r && Alike(n, m) && forall o <- ms | Alike(o, m) :: n.rank <= o.rank
  {
    FirstKeysAreKeys(ms);
    DedupeIsSpecified(ms);
    var r := Dedupe(ms);
    forall i, j | 0 <= i < j < |r| ensures !Alike(r[i], r[j]) {
      assert KeyOf(r[i]) == FirstKeys(ms)[i] && KeyOf(r[j]) == FirstKeys(ms)[j];
    }
    forall m <- ms
      ensures exists n :: n in r && Alike(n, m) && forall o <- ms | Alike(o, m) :: n.rank <= o.rank
    {
      var n := Preferred(ms, m);
    }
  }

  lemma Preferred(ms: seq<Summary>, m: Summary) returns (n: Summary)
    requires m in ms
    ensures n in Dedupe(ms) && Alike(n, m) && forall o <- ms | Alike(o, m) :: n.rank <= o.rank
  {
    FirstKeysAreKeys(ms);
    ChooseIsChosen(ms, KeyOf(m));
    assert HasKey(ms, KeyOf(m));
    var c := Choose(ms, KeyOf(m)).value;
    var i :| 0 <= i < |FirstKeys(ms)| && FirstKeys(ms)[i] == KeyOf(m);
    n := Dedupe(ms)[i];
    assert n == ms[c] && n in Dedupe(ms);
    forall o <- ms | Alike(o, m) ensures n.rank <= o.rank {
      var j :| 0 <= j < |ms| && ms[j] == o;
      assert KeyOf(ms[j]) == KeyOf(ms[c]);
    }
  }
}
