/** Searching many folders with bounded results: when nothing is reported cut off, nothing is missing. */
module SearchFanout {
  import opened Lists
  import opened MailTypes
  import opened KnowledgeScope

  function Uid(m: Summary): int {
    m.uid
  }

  function Age(m: Summary): int {
    -m.receivedAt
  }

  // ----- one folder -----

  /** The matches a folder really holds, whether its SEARCH was answered with a list, and the UIDs the FETCH that
      follows does not return, expunged in between. */
  datatype Folder = Folder(matches: seq<Summary>, answered: bool, gone: set<nat>)

  /** A search that is not answered with a list counts as one that found nothing. */
  function Listed(f: Folder): seq<Summary> {
    if f.answered then f.matches else []
  }

  /** How many of the newest UIDs are fetched at all. */
  function CandidateLimit(limit: nat): nat {
    var wanted := if limit * 5 < 50 then 50 else limit * 5;
    if wanted > 500 then 500 else wanted
  }

  function Dropped(matches: seq<Summary>, limit: nat): seq<Summary> {
    var sorted, cut := SortBy(Uid, matches), CandidateLimit(limit);
    if |sorted| <= cut then [] else sorted[..|sorted| - cut]
  }

  function Candidates(matches: seq<Summary>, limit: nat): seq<Summary> {
    var sorted, cut := SortBy(Uid, matches), CandidateLimit(limit);
    Reverse(Last(sorted, cut))
  }

  predicate Passes(m: Summary, hasAttachment: Option<bool>) {
    hasAttachment.None? || (m.attachments > 0) == hasAttachment.value
  }

  predicate Wanted(m: Summary, gone: set<nat>, hasAttachment: Option<bool>) {
    m.uid !in gone && Passes(m, hasAttachment)
  }

  /** What is still there to be fetched and passes the attachment filter. */
  function Filter(xs: seq<Summary>, gone: set<nat>, hasAttachment: Option<bool>): seq<Summary> {
    if xs == [] then []
    else
      var rest := Filter(xs[..|xs| - 1], gone, hasAttachment);
      if Wanted(xs[|xs| - 1], gone, hasAttachment) then rest + [xs[|xs| - 1]] else rest
  }

  /** The adapter: cut by UID first, fetch, filter by attachment afterwards, newest first, at most `limit`. */
  function SearchFolder(f: Folder, limit: nat, hasAttachment: Option<bool>): seq<Summary> {
    First(SortBy(Age, Filter(Candidates(Listed(f), limit), f.gone, hasAttachment)), limit)
  }

  /** The answer has every match that is there and passes, exactly as often as the folder. */
  predicate Complete(f: Folder, limit: nat, hasAttachment: Option<bool>) {
    multiset(SearchFolder(f, limit, hasAttachment)) == multiset(Filter(f.matches, f.gone, hasAttachment))
  }

  lemma {:induction false} FilterCount(xs: seq<Summary>, gone: set<nat>, hasAttachment: Option<bool>, m: Summary)
    ensures multiset(Filter(xs, gone, hasAttachment))[m]
         == if Wanted(m, gone, hasAttachment) then multiset(xs)[m] else 0
  {
    if xs != [] {
      FilterCount(xs[..|xs| - 1], gone, hasAttachment, m);
      assert xs == xs[..|xs| - 1] + [xs[|xs| - 1]];
    }
  }

  lemma {:induction false} FilterShortens(xs: seq<Summary>, gone: set<nat>, hasAttachment: Option<bool>)
    ensures |Filter(xs, gone, hasAttachment)| <= |xs|
  {
    if xs != [] {
      FilterShortens(xs[..|xs| - 1], gone, hasAttachment);
    }
  }

  lemma FilterCounts(xs: seq<Summary>, gone: set<nat>, hasAttachment: Option<bool>)
    ensures |Filter(xs, gone, hasAttachment)| <= |xs|
    ensures forall m :: multiset(Filter(xs, gone, hasAttachment))[m]
                     == if Wanted(m, gone, hasAttachment) then multiset(xs)[m] else 0
  {
    FilterShortens(xs, gone, hasAttachment);
    forall m ensures multiset(Filter(xs, gone, hasAttachment))[m]
                  == if Wanted(m, gone, hasAttachment) then multiset(xs)[m] else 0
    {
      FilterCount(xs, gone, hasAttachment, m);
    }
  }

  lemma CandidatesAndDropped(matches: seq<Summary>, limit: nat)
    ensures multiset(matches) == multiset(Candidates(matches, limit)) + multiset(Dropped(matches, limit))
    ensures |Candidates(matches, limit)|
         == if |matches| <= CandidateLimit(limit) then |matches| else CandidateLimit(limit)
    ensures |Dropped(matches, limit)| == |matches| - |Candidates(matches, limit)|
  {
    var sorted, cut := SortBy(Uid, matches), CandidateLimit(limit);
    SortSorts(Uid, matches);
    assert |multiset(sorted)| == |sorted| && |multiset(matches)| == |matches|;
    var kept := Last(sorted, cut);
    assert sorted == Dropped(matches, limit) + kept;
    ReversePermutes(kept);
    assert |multiset(Reverse(kept))| == |Reverse(kept)| && |multiset(kept)| == |kept|;
  }

  lemma BelowLimitKeepsCandidates(f: Folder, limit: nat, hasAttachment: Option<bool>)
    requires |SearchFolder(f, limit, hasAttachment)| < limit
    ensures var kept := Filter(Candidates(Listed(f), limit), f.gone, hasAttachment);
            && multiset(SearchFolder(f, limit, hasAttachment)) == multiset(kept)
            && |SearchFolder(f, limit, hasAttachment)| == |kept|
  {
    var kept := Filter(Candidates(Listed(f), limit), f.gone, hasAttachment);
    SortSorts(Age, kept);
    assert |multiset(kept)| == |kept| && |multiset(SortBy(Age, kept))| == |SortBy(Age, kept)|;
  }

  lemma NoneOccurs(xs: seq<Summary>, gone: set<nat>, hasAttachment: Option<bool>)
    ensures (forall m <- xs :: !Wanted(m, gone, hasAttachment))
       <==> forall m :: Wanted(m, gone, hasAttachment) ==> multiset(xs)[m] == 0
  {
    if forall m :: Wanted(m, gone, hasAttachment) ==> multiset(xs)[m] == 0 {
      forall m <- xs ensures !Wanted(m, gone, hasAttachment) {
        assert m in multiset(xs);
      }
    } else {
      var m :| Wanted(m, gone, hasAttachment) && multiset(xs)[m] != 0;
      assert m in xs;
    }
  }

  /** What an answer below its limit lacks is what the candidate cut dropped. */
  lemma FolderIsComplete(f: Folder, limit: nat, hasAttachment: Option<bool>)
    requires f.answered && |SearchFolder(f, limit, hasAttachment)| < limit
    ensures Complete(f, limit, hasAttachment)
       <==> forall m <- Dropped(f.matches, limit) :: !Wanted(m, f.gone, hasAttachment)
  {
    var candidates, dropped := Candidates(f.matches, limit), Dropped(f.matches, limit);
    BelowLimitKeepsCandidates(f, limit, hasAttachment);
    CandidatesAndDropped(f.matches, limit);
    FilterCounts(candidates, f.gone, hasAttachment);
    FilterCounts(f.matches, f.gone, hasAttachment);
    NoneOccurs(dropped, f.gone, hasAttachment);
    CountsDecide(multiset(Filter(candidates, f.gone, hasAttachment)),
                 multiset(Filter(f.matches, f.gone, hasAttachment)), multiset(candidates), multiset(dropped), f.gone,
                 hasAttachment);
  }

  lemma CountsDecide(
    found: multiset<Summary>, wanted: multiset<Summary>, candidates: multiset<Summary>, dropped: multiset<Summary>,
    gone: set<nat>, hasAttachment: Option<bool>)
    requires forall m :: found[m] == if Wanted(m, gone, hasAttachment) then candidates[m] else 0
    requires forall m :: wanted[m] == if Wanted(m, gone, hasAttachment) then (candidates + dropped)[m] else 0
    ensures found == wanted <==> forall m :: Wanted(m, gone, hasAttachment) ==> dropped[m] == 0
  {
    if found == wanted {
      forall m | Wanted(m, gone, hasAttachment) ensures dropped[m] == 0 {
        assert found[m] == wanted[m];
      }
    }
  }

  lemma WithinCutIsComplete(f: Folder, limit: nat, hasAttachment: Option<bool>)
    requires f.matches == [] || (f.answered && |f.matches| <= CandidateLimit(limit))
    requires |SearchFolder(f, limit, hasAttachment)| < limit
    ensures Complete(f, limit, hasAttachment)
  {
    if f.answered {
      CandidatesAndDropped(f.matches, limit);
      FolderIsComplete(f, limit, hasAttachment);
    }
  }

  lemma {:induction false} NothingPasses(xs: seq<Summary>, gone: set<nat>, hasAttachment: Option<bool>)
    requires forall m <- xs :: !Wanted(m, gone, hasAttachment)
    ensures Filter(xs, gone, hasAttachment) == []
  {
    if xs != [] {
      NothingPasses(xs[..|xs| - 1], gone, hasAttachment);
    }
  }

  /** `count` messages in the order of their UIDs and dates, of which the oldest passes the filter if `first`, and no
      other does. */
  function Hidden(count: nat, attached: bool, first: bool): seq<Summary> {
    seq(count, i requires 0 <= i < count =>
          Summary("m", "INBOX", 0, i + 1, i + 1, "", "", if (i == 0 && first) == attached then 1 else 0))
  }

  lemma HiddenIsSorted(count: nat, attached: bool, first: bool)
    ensures SortBy(Uid, Hidden(count, attached, first)) == Hidden(count, attached, first)
  {
    SortedIsFixed(Uid, Hidden(count, attached, first));
  }

  // ----- one folder, without the attachment filter -----

  /** How many of the listed candidates are lost before they can be fetched. */
  function Losses(f: Folder, limit: nat): int {
    |Candidates(Listed(f), limit)| - |Filter(Candidates(Listed(f), limit), f.gone, None)|
  }

  /** The slack between what is fetched and what is returned makes up for this many losses. */
  predicate Affords(limit: nat, losses: nat) {
    limit + losses <= CandidateLimit(limit)
  }

  lemma UnfilteredFolderIsComplete(f: Folder, limit: nat, losses: nat)
    requires f.answered && Losses(f, limit) <= losses && Affords(limit, losses)
    requires |SearchFolder(f, limit, None)| < limit
    ensures Complete(f, limit, None)
  {
    BelowLimitKeepsCandidates(f, limit, None);
    CandidatesAndDropped(f.matches, limit);
    WithinCutIsComplete(f, limit, None);
  }

  /** Whatever the folder holds: if the search is answered or not as given, and at most so many candidates are lost, an
      answer below the limit is complete. */
  ghost predicate UnfilteredAlwaysComplete(answered: bool, losses: nat, limit: nat) {
    forall f: Folder | f.answered == answered && Losses(f, limit) <= losses && |SearchFolder(f, limit, None)| < limit ::
      Complete(f, limit, None)
  }

  lemma {:induction false} FilterPrefix(xs: seq<Summary>, gone: set<nat>, k: nat)
    requires k <= |xs| && forall i | 0 <= i < |xs| :: xs[i].uid in gone <==> i >= k
    ensures Filter(xs, gone, None) == xs[..k]
  {
    if xs != [] {
      var init := xs[..|xs| - 1];
      if k == |xs| {
        FilterPrefix(init, gone, k - 1);
      } else {
        FilterPrefix(init, gone, k);
        assert init[..k] == xs[..k];
      }
    }
  }

  lemma FilterSameCount(xs: seq<Summary>, ys: seq<Summary>, gone: set<nat>)
    requires multiset(xs) == multiset(ys)
    ensures multiset(Filter(xs, gone, None)) == multiset(Filter(ys, gone, None))
    ensures |Filter(xs, gone, None)| == |Filter(ys, gone, None)|
  {
    FilterCounts(xs, gone, None);
    FilterCounts(ys, gone, None);
    assert |multiset(Filter(xs, gone, None))| == |Filter(xs, gone, None)|;
    assert |multiset(Filter(ys, gone, None))| == |Filter(ys, gone, None)|;
  }

  /** One message more than are fetched, of which the newest are lost, so that fewer than `limit` come back. */
  function Depleted(limit: nat): Folder
    requires limit >= 1
  {
    var cut := CandidateLimit(limit);
    var back := if limit - 1 < cut then limit - 1 else cut;
    Folder(Hidden(cut + 1, true, false), true, set m <- Hidden(cut + 1, true, false) | m.uid > back + 1 :: m.uid)
  }

  lemma AllButFirst(count: nat, limit: nat)
    requires count == CandidateLimit(limit) + 1
    ensures var matches := Hidden(count, true, false);
            multiset(Candidates(matches, limit)) == multiset(matches[1..])
            && |Candidates(matches, limit)| == CandidateLimit(limit)
  {
    HiddenIsSorted(count, true, false);
    ReversePermutes(Hidden(count, true, false)[1..]);
  }

  lemma KeptOfHidden(count: nat, back: nat, gone: set<nat>)
    requires count > 0 && back < count && gone == (set m <- Hidden(count, true, false) | m.uid > back + 1 :: m.uid)
    ensures |Filter(Hidden(count, true, false)[1..], gone, None)| == back
  {
    var matches := Hidden(count, true, false);
    var rest := matches[1..];
    forall i | 0 <= i < |rest| ensures rest[i].uid in gone <==> i >= back {
      assert rest[i] == matches[i + 1] && rest[i] in matches;
    }
    FilterPrefix(rest, gone, back);
  }

  lemma DepletedCandidates(limit: nat)
    requires limit >= 1
    ensures var f, cut := Depleted(limit), CandidateLimit(limit);
            && multiset(Candidates(f.matches, limit)) == multiset(f.matches[1..])
            && |Candidates(f.matches, limit)| == cut
            && |Filter(f.matches[1..], f.gone, None)| == if limit - 1 < cut then limit - 1 else cut
  {
    var cut := CandidateLimit(limit);
    AllButFirst(cut + 1, limit);
    KeptOfHidden(cut + 1, if limit - 1 < cut then limit - 1 else cut, Depleted(limit).gone);
  }

  /** The oldest message of a depleted folder is there, and not found. */
  lemma DepletedMisses(limit: nat, losses: nat)
    requires limit >= 1 && !Affords(limit, losses)
    ensures var f := Depleted(limit);
            && Losses(f, limit) <= losses && |SearchFolder(f, limit, None)| < limit
            && f.matches[0].uid !in f.gone
            && forall m <- SearchFolder(f, limit, None) :: m.receivedAt > f.matches[0].receivedAt
  {
    var f, cut := Depleted(limit), CandidateLimit(limit);
    var candidates := Candidates(f.matches, limit);
    DepletedCandidates(limit);
    FilterSameCount(candidates, f.matches[1..], f.gone);
    SortSorts(Age, Filter(candidates, f.gone, None));
    assert |multiset(Filter(candidates, f.gone, None))| == |multiset(SortBy(Age, Filter(candidates, f.gone, None)))|;
    forall m <- SearchFolder(f, limit, None) ensures m.receivedAt > f.matches[0].receivedAt {
      FoundIsCandidate(f, limit, None, m);
      assert m in multiset(candidates);
      assert m in f.matches[1..];
    }
  }

  lemma IncompleteBy(f: Folder, limit: nat, hasAttachment: Option<bool>, m: Summary)
    requires m in f.matches && Wanted(m, f.gone, hasAttachment) && m !in SearchFolder(f, limit, hasAttachment)
    ensures !Complete(f, limit, hasAttachment)
  {
    FilterCount(f.matches, f.gone, hasAttachment, m);
    assert m in multiset(f.matches);
    assert m !in multiset(SearchFolder(f, limit, hasAttachment));
  }

  lemma UnansweredIsEmpty(f: Folder, limit: nat, hasAttachment: Option<bool>)
    requires !f.answered
    ensures SearchFolder(f, limit, hasAttachment) == [] && Losses(f, limit) == 0
  {
  }

  /** Without the filter an answer below its limit can be trusted exactly when the search is answered and no more is
      lost between listing and fetching than the slack makes up for; the answer itself does not tell. */
  lemma UnfilteredFolderExactlyWhen(answered: bool, losses: nat, limit: nat)
    requires limit >= 1
    ensures UnfilteredAlwaysComplete(answered, losses, limit) <==> answered && Affords(limit, losses)
  {
    if answered && Affords(limit, losses) {
      forall f: Folder | f.answered && Losses(f, limit) <= losses && |SearchFolder(f, limit, None)| < limit
        ensures Complete(f, limit, None)
      {
        UnfilteredFolderIsComplete(f, limit, losses);
      }
    } else {
      var f := if answered then Depleted(limit) else Folder(Hidden(1, true, false), false, {});
      if answered {
        DepletedMisses(limit, losses);
      } else {
        UnansweredIsEmpty(f, limit, None);
      }
      IncompleteBy(f, limit, None, f.matches[0]);
    }
  }

  // ----- one folder, with the attachment filter -----

  /** With the filter set it is the number of matches that decides, whatever they are: every folder content of that
      size that is answered below the limit is answered completely. */
  ghost predicate FolderAlwaysComplete(count: nat, answered: bool, limit: nat, attached: bool) {
    forall f: Folder
      | |f.matches| == count && f.answered == answered && |SearchFolder(f, limit, Some(attached))| < limit ::
      Complete(f, limit, Some(attached))
  }

  lemma NothingIsFound(f: Folder, limit: nat, hasAttachment: Option<bool>)
    requires f.answered ==>
               forall m <- Last(SortBy(Uid, f.matches), CandidateLimit(limit)) :: !Wanted(m, f.gone, hasAttachment)
    ensures SearchFolder(f, limit, hasAttachment) == []
  {
    if f.answered {
      var kept := Last(SortBy(Uid, f.matches), CandidateLimit(limit));
      ReversePermutes(kept);
      forall m <- Reverse(kept) ensures !Wanted(m, f.gone, hasAttachment) {
        assert m in multiset(Reverse(kept));
        assert m in kept;
      }
      NothingPasses(Reverse(kept), f.gone, hasAttachment);
    }
  }

  /** Beyond the cut, or with the search unanswered, the one match is not even fetched. */
  lemma HiddenIsMissed(count: nat, answered: bool, limit: nat, attached: bool, first: bool)
    requires first ==> count > 0 && (!answered || count > CandidateLimit(limit))
    ensures var f := Folder(Hidden(count, attached, first), answered, {});
            && SearchFolder(f, limit, Some(attached)) == []
            && (first ==> f.matches[0] in f.matches && Wanted(f.matches[0], {}, Some(attached)))
  {
    HiddenIsSorted(count, attached, first);
    NothingIsFound(Folder(Hidden(count, attached, first), answered, {}), limit, Some(attached));
  }

  /** A filtered folder search below its limit can be trusted exactly when its search was answered, with no more matches
      than are fetched at all. */
  lemma FilteredFolderExactlyWhen(count: nat, answered: bool, limit: nat, attached: bool)
    requires limit >= 1
    ensures FolderAlwaysComplete(count, answered, limit, attached)
       <==> count == 0 || (answered && count <= CandidateLimit(limit))
  {
    if count == 0 || (answered && count <= CandidateLimit(limit)) {
      forall f: Folder
        | |f.matches| == count && f.answered == answered && |SearchFolder(f, limit, Some(attached))| < limit
        ensures Complete(f, limit, Some(attached))
      {
        WithinCutIsComplete(f, limit, Some(attached));
      }
    } else {
      var f := Folder(Hidden(count, attached, true), answered, {});
      HiddenIsMissed(count, answered, limit, attached, true);
      assert |f.matches| == count && |SearchFolder(f, limit, Some(attached))| < limit;
      IncompleteBy(f, limit, Some(attached), f.matches[0]);
    }
  }

  // ----- one folder, whatever its answer -----

  /** The candidates are as many as there are matches, up to five times the limit but at least 50 and at most 500, and
      nothing that is passed over has a larger UID than any of them. */
  lemma CandidatesAreNewest(matches: seq<Summary>, limit: nat)
    ensures var candidates, dropped := Candidates(matches, limit), Dropped(matches, limit);
            && multiset(candidates) + multiset(dropped) == multiset(matches)
            && (dropped != [] ==>
                  |candidates| == if limit <= 10 then 50 else if limit <= 100 then 5 * limit else 500)
            && forall c <- candidates, d <- dropped :: d.uid <= c.uid
  {
    var sorted, cut := SortBy(Uid, matches), CandidateLimit(limit);
    CandidatesAndDropped(matches, limit);
    SortSorts(Uid, matches);
    LastIsLargest(sorted, cut);
    ReversePermutes(Last(sorted, cut));
    forall c <- Candidates(matches, limit) ensures c in Last(sorted, cut) {
      assert c in multiset(Reverse(Last(sorted, cut)));
    }
  }

  lemma LastIsLargest(sorted: seq<Summary>, cut: nat)
    requires SortedBy(Uid, sorted)
    ensures |sorted| > cut ==> forall c <- Last(sorted, cut), d <- sorted[..|sorted| - cut] :: d.uid <= c.uid
  {
    if |sorted| > cut {
      forall c <- Last(sorted, cut), d <- sorted[..|sorted| - cut] ensures d.uid <= c.uid {
        var i :| 0 <= i < cut && Last(sorted, cut)[i] == c;
        var j :| 0 <= j < |sorted| - cut && sorted[j] == d;
        assert Uid(sorted[j]) <= Uid(sorted[|sorted| - cut + i]);
      }
    }
  }

  /** A folder's answer is newest first, as long as what was fetched and passes allows, up to the limit; and if anything
      of that is left out, the answer has exactly the limit and nothing older than what is left out. */
  lemma FolderAnswerIsNewest(f: Folder, limit: nat, hasAttachment: Option<bool>)
    ensures var answer := SearchFolder(f, limit, hasAttachment);
            var fetched := Candidates(Listed(f), limit);
            && NewestFirst(answer) && |answer| <= limit
            && (forall m <- answer :: m in fetched && Wanted(m, f.gone, hasAttachment))
            && forall m <- fetched | Wanted(m, f.gone, hasAttachment) && m !in answer ::
                 |answer| == limit && forall x <- answer :: x.receivedAt >= m.receivedAt
  {
    var fetched := Candidates(Listed(f), limit);
    var passing := Filter(fetched, f.gone, hasAttachment);
    var answer := SearchFolder(f, limit, hasAttachment);
    FirstOfSorted(Age, passing, limit);
    forall m: Summary ensures m in passing <==> m in fetched && Wanted(m, f.gone, hasAttachment) {
      FilterKeepsOnly(fetched, f.gone, hasAttachment, m);
    }
    forall i, j | 0 <= i < j < |answer| ensures answer[i].receivedAt >= answer[j].receivedAt {
      assert Age(answer[i]) <= Age(answer[j]);
    }
    forall m <- fetched | Wanted(m, f.gone, hasAttachment) && m !in answer
      ensures |answer| == limit && forall x <- answer :: x.receivedAt >= m.receivedAt
    {
      assert m in passing;
      forall x <- answer ensures x.receivedAt >= m.receivedAt {
        assert Age(x) <= Age(m);
      }
    }
  }

  // ----- all folders -----

  datatype Outcome = Matched(content: Folder) | TaskFailed(code: string)

  /** One folder of one mailbox, and what its search meets. */
  datatype Task = Task(mailbox: MailboxId, folder: string, resultLimit: nat, outcome: Outcome)

  datatype Failure = Failure(mailbox: MailboxId, folder: Option<string>, code: string)

  datatype SearchResult = SearchResult(messages: seq<Summary>, failures: seq<Failure>, truncated: bool)

  const RESULT_LIMIT := 200

  function FolderLimit(limit: nat, t: Task): nat {
    if limit < t.resultLimit then limit else t.resultLimit
  }

  function Found(t: Task, limit: nat, hasAttachment: Option<bool>): seq<Summary> {
    if t.outcome.Matched? then SearchFolder(t.outcome.content, FolderLimit(limit, t), hasAttachment) else []
  }

  predicate AtLimit(t: Task, limit: nat, hasAttachment: Option<bool>) {
    t.outcome.Matched? && |Found(t, limit, hasAttachment)| >= FolderLimit(limit, t)
  }

  predicate SomeAtLimit(done: seq<Task>, limit: nat, hasAttachment: Option<bool>) {
    exists t <- done :: AtLimit(t, limit, hasAttachment)
  }

  function Gather(done: seq<Task>, limit: nat, hasAttachment: Option<bool>): seq<Summary> {
    if done == [] then []
    else Gather(done[..|done| - 1], limit, hasAttachment) + Found(done[|done| - 1], limit, hasAttachment)
  }

  function FailuresOf(done: seq<Task>): seq<Failure> {
    if done == [] then []
    else
      var t := done[|done| - 1];
      FailuresOf(done[..|done| - 1])
      + if t.outcome.TaskFailed? then [Failure(t.mailbox, Some(t.folder), t.outcome.code)] else []
  }

  /** `unresolved` are the mailboxes whose folders could not be listed; `done` the folder searches in the order of
      their completion. */
  function Fanout(
    unresolved: seq<Failure>, done: seq<Task>, wanted: int, hasAttachment: Option<bool>, dedupe: bool): SearchResult
  {
    var limit := Clamp(wanted, RESULT_LIMIT);
    var ordered := SortBy(Age, Gather(done, limit, hasAttachment));
    var selected := if dedupe then Dedupe(ordered) else ordered;
    SearchResult(First(selected, limit), unresolved + FailuresOf(done),
                 SomeAtLimit(done, limit, hasAttachment) || |selected| > limit)
  }

  lemma NextTask(done: seq<Task>, t: Task, limit: nat, hasAttachment: Option<bool>)
    ensures SomeAtLimit(done + [t], limit, hasAttachment)
       <==> SomeAtLimit(done, limit, hasAttachment) || AtLimit(t, limit, hasAttachment)
    ensures Gather(done + [t], limit, hasAttachment)
         == Gather(done, limit, hasAttachment) + Found(t, limit, hasAttachment)
    ensures FailuresOf(done + [t])
         == FailuresOf(done)
            + if t.outcome.TaskFailed? then [Failure(t.mailbox, Some(t.folder), t.outcome.code)] else []
  {
    assert (done + [t])[..|done|] == done;
    assert t in done + [t] && forall x <- done :: x in done + [t];
  }

  /** The shared lists and flag after these tasks have completed. */
  predicate Collected(
    done: seq<Task>, limit: nat, hasAttachment: Option<bool>, messages: seq<Summary>, failures: seq<Failure>,
    folderAtLimit: bool)
  {
    && messages == Gather(done, limit, hasAttachment) && failures == FailuresOf(done)
    && (folderAtLimit <==> SomeAtLimit(done, limit, hasAttachment))
  }

  lemma NothingCollected(limit: nat, hasAttachment: Option<bool>)
    ensures Collected([], limit, hasAttachment, [], [], false)
  {
  }

  lemma CollectedMore(
    done: seq<Task>, i: nat, limit: nat, hasAttachment: Option<bool>, messages: seq<Summary>, failures: seq<Failure>,
    folderAtLimit: bool)
    requires i < |done|
    requires Collected(done[..i] + [done[i]], limit, hasAttachment, messages, failures, folderAtLimit)
    ensures Collected(done[..i + 1], limit, hasAttachment, messages, failures, folderAtLimit)
  {
    assert done[..i + 1] == done[..i] + [done[i]];
  }

  method CompleteTask(
    ghost done: seq<Task>, messages: seq<Summary>, failures: seq<Failure>, folderAtLimit: bool, t: Task, limit: nat,
    hasAttachment: Option<bool>)
    returns (messages': seq<Summary>, failures': seq<Failure>, folderAtLimit': bool)
    requires Collected(done, limit, hasAttachment, messages, failures, folderAtLimit)
    ensures Collected(done + [t], limit, hasAttachment, messages', failures', folderAtLimit')
  {
    messages', failures', folderAtLimit' := messages, failures, folderAtLimit;
    if t.outcome.Matched? {
      var raw := SearchFolder(t.outcome.content, FolderLimit(limit, t), hasAttachment);
      if |raw| >= FolderLimit(limit, t) { folderAtLimit' := true; }
      messages' := messages' + raw;
    } else {
      failures' := failures' + [Failure(t.mailbox, Some(t.folder), t.outcome.code)];
    }
    NextTask(done, t, limit, hasAttachment);
  }

  /** The folder searches complete one after the other, pushing onto the shared lists and raising the shared flag. */
  method RunTasks(done: seq<Task>, limit: nat, hasAttachment: Option<bool>)
    returns (messages: seq<Summary>, failures: seq<Failure>, folderAtLimit: bool)
    ensures Collected(done, limit, hasAttachment, messages, failures, folderAtLimit)
  {
    messages, failures, folderAtLimit := [], [], false;
    NothingCollected(limit, hasAttachment);
    assert done[..0] == [];
    for i := 0 to |done|
      invariant Collected(done[..i], limit, hasAttachment, messages, failures, folderAtLimit)
    {
      messages, failures, folderAtLimit :=
        CompleteTask(done[..i], messages, failures, folderAtLimit, done[i], limit, hasAttachment);
      CollectedMore(done, i, limit, hasAttachment, messages, failures, folderAtLimit);
    }
    assert done[..|done|] == done;
  }

  method SearchAll(unresolved: seq<Failure>, done: seq<Task>, wanted: int, hasAttachment: Option<bool>, dedupe: bool)
    returns (r: SearchResult)
    ensures r == Fanout(unresolved, done, wanted, hasAttachment, dedupe)
  {
    var limit := Clamp(wanted, RESULT_LIMIT);
    var messages, failures, folderAtLimit := RunTasks(done, limit, hasAttachment);
    var selected := SortBy(Age, messages);
    if dedupe { selected := DedupeSummaries(selected); }
    return SearchResult(First(selected, limit), unresolved + failures, folderAtLimit || |selected| > limit);
  }

  lemma {:induction false} GatherHoldsEach(done: seq<Task>, limit: nat, hasAttachment: Option<bool>)
    ensures forall m ::
              m in Gather(done, limit, hasAttachment) <==> exists t <- done :: m in Found(t, limit, hasAttachment)
  {
    if done != [] {
      GatherHoldsEach(done[..|done| - 1], limit, hasAttachment);
      assert done == done[..|done| - 1] + [done[|done| - 1]];
    }
  }

  lemma {:induction false} FailuresAreFailures(done: seq<Task>)
    ensures FailuresOf(done) == [] <==> forall t <- done :: t.outcome.Matched?
  {
    if done != [] {
      FailuresAreFailures(done[..|done| - 1]);
      assert done == done[..|done| - 1] + [done[|done| - 1]];
    }
  }

  /** The result holds this match, or with deduplication one of equal key in a folder at least as preferred. */
  ghost predicate Holds(r: SearchResult, m: Summary, dedupe: bool) {
    if dedupe then exists x :: x in r.messages && KeyOf(x) == KeyOf(m) && x.rank <= m.rank else m in r.messages
  }

  /** An untruncated result holds everything its folders found. */
  lemma UntruncatedHolds(
    done: seq<Task>, wanted: int, hasAttachment: Option<bool>, dedupe: bool, t: Task, m: Summary)
    requires !Fanout([], done, wanted, hasAttachment, dedupe).truncated
    requires t in done && m in Found(t, Clamp(wanted, RESULT_LIMIT), hasAttachment)
    ensures Holds(Fanout([], done, wanted, hasAttachment, dedupe), m, dedupe)
  {
    var gathered := Gather(done, Clamp(wanted, RESULT_LIMIT), hasAttachment);
    GatherHoldsEach(done, Clamp(wanted, RESULT_LIMIT), hasAttachment);
    SortKeepsMembers(Age, gathered, m);
    if dedupe {
      EveryMessageIsRepresented(SortBy(Age, gathered), m);
    }
  }

  /** The folder holds this match, and it is not expunged under the search. */
  predicate Has(t: Task, m: Summary) {
    t.outcome.Matched? && m in t.outcome.content.matches && m.uid !in t.outcome.content.gone
  }

  lemma CompleteHolds(t: Task, limit: nat, hasAttachment: Option<bool>, m: Summary)
    requires Has(t, m) && Passes(m, hasAttachment)
    requires Complete(t.outcome.content, FolderLimit(limit, t), hasAttachment)
    ensures m in Found(t, limit, hasAttachment)
  {
    var f := t.outcome.content;
    FilterCount(f.matches, f.gone, hasAttachment, m);
    assert m in multiset(f.matches);
    assert m in multiset(Found(t, limit, hasAttachment));
  }

  // ----- what is left out -----

  /** The limit of a whole search. */
  function Limit(wanted: int): nat {
    if wanted < 1 then 1 else if wanted > 200 then 200 else wanted
  }

  lemma CutIsNewest(selected: seq<Summary>, limit: nat, m: Summary)
    requires NewestFirst(selected) && m in selected
    ensures var r := First(selected, limit);
            m in r || (|r| == limit && forall x <- r :: x.receivedAt >= m.receivedAt)
  {
    var r := First(selected, limit);
    var j :| 0 <= j < |selected| && selected[j] == m;
    assert j < |r| ==> r[j] == m;
    if j >= |r| {
      forall x <- r ensures x.receivedAt >= m.receivedAt {
        var i :| 0 <= i < |r| && r[i] == x;
        assert selected[i].receivedAt >= selected[j].receivedAt;
      }
    }
  }

  /** What the result is cut from, before it is cut. */
  function Selected(gathered: seq<Summary>, dedupe: bool): seq<Summary> {
    var ordered := SortBy(Age, gathered);
    if dedupe then Dedupe(ordered) else ordered
  }

  /** It has every message itself, or with deduplication a representative. */
  lemma Represented(gathered: seq<Summary>, dedupe: bool, m: Summary) returns (rep: Summary)
    requires m in gathered
    ensures rep in Selected(gathered, dedupe) && rep.receivedAt == m.receivedAt
    ensures if dedupe then KeyOf(rep) == KeyOf(m) && rep.rank <= m.rank else rep == m
  {
    SortKeepsMembers(Age, gathered, m);
    rep := m;
    if dedupe {
      EveryMessageIsRepresented(SortBy(Age, gathered), m);
      rep :| rep in Dedupe(SortBy(Age, gathered)) && KeyOf(rep) == KeyOf(m) && rep.rank <= m.rank;
    }
  }

  /** If the result lacks something that a folder search found, and with deduplication every representative of it, then
      the result has exactly the limit, nothing in it is older, and it says that it was cut. */
  lemma ResultIsNewest(
    unresolved: seq<Failure>, done: seq<Task>, wanted: int, hasAttachment: Option<bool>, dedupe: bool, t: Task,
    m: Summary)
    requires t in done && m in Found(t, Limit(wanted), hasAttachment)
    ensures var r := Fanout(unresolved, done, wanted, hasAttachment, dedupe);
            !Holds(r, m, dedupe) ==>
              r.truncated && |r.messages| == Limit(wanted) && forall x <- r.messages :: x.receivedAt >= m.receivedAt
  {
    var gathered := Gather(done, Limit(wanted), hasAttachment);
    GatherHoldsEach(done, Limit(wanted), hasAttachment);
    OrderedNewestFirst(gathered);
    CutResult(unresolved, done, wanted, hasAttachment, dedupe);
    var rep := Represented(gathered, dedupe, m);
    CutIsNewest(Selected(gathered, dedupe), Limit(wanted), rep);
    if rep in Fanout(unresolved, done, wanted, hasAttachment, dedupe).messages {
      assert Holds(Fanout(unresolved, done, wanted, hasAttachment, dedupe), m, dedupe);
    }
  }

  lemma CutResult(
    unresolved: seq<Failure>, done: seq<Task>, wanted: int, hasAttachment: Option<bool>, dedupe: bool)
    ensures var r := Fanout(unresolved, done, wanted, hasAttachment, dedupe);
            var selected := Selected(Gather(done, Limit(wanted), hasAttachment), dedupe);
            && r.messages == First(selected, Limit(wanted))
            && (r.truncated || r.messages == selected)
  {
    ClampIsExact(wanted, 200);
  }

  /** The folder's answer has as many messages as it was asked for. */
  predicate ReachesLimit(t: Task, limit: nat, hasAttachment: Option<bool>) {
    && t.outcome.Matched?
    && var asked := if limit < t.resultLimit then limit else t.resultLimit;
       |SearchFolder(t.outcome.content, asked, hasAttachment)| >= asked
  }

  lemma SomeReachesLimit(done: seq<Task>, limit: nat, hasAttachment: Option<bool>)
    ensures SomeAtLimit(done, limit, hasAttachment) <==> exists t <- done :: ReachesLimit(t, limit, hasAttachment)
  {
    forall t: Task ensures AtLimit(t, limit, hasAttachment) <==> ReachesLimit(t, limit, hasAttachment) {
    }
  }

  /** A result says that it was cut exactly if some folder's answer reached the limit it was asked with, or there was
      more to return than the limit of 1 to 200. */
  lemma TruncatedExactlyWhen(
    unresolved: seq<Failure>, done: seq<Task>, wanted: int, hasAttachment: Option<bool>, dedupe: bool)
    ensures var r, limit := Fanout(unresolved, done, wanted, hasAttachment, dedupe), Limit(wanted);
            r.truncated <==> (exists t <- done :: ReachesLimit(t, limit, hasAttachment))
                             || |Selected(Gather(done, limit, hasAttachment), dedupe)| > limit
  {
    ClampIsExact(wanted, 200);
    SomeReachesLimit(done, Limit(wanted), hasAttachment);
  }

  /** Of everything that the folders list, fetch and let pass, for every order of completion: what the result lacks is
      no newer than all of the result, which then has exactly the limit; or no newer than all of its own folder's
      answer, which then has exactly that folder's limit. Either way the result says that it was cut. */
  lemma NothingNewerIsLeftOut(
    unresolved: seq<Failure>, done: seq<Task>, wanted: int, hasAttachment: Option<bool>, dedupe: bool, t: Task,
    m: Summary)
    requires t in done && t.outcome.Matched? && Passes(m, hasAttachment) && m.uid !in t.outcome.content.gone
    requires m in Candidates(Listed(t.outcome.content), if Limit(wanted) < t.resultLimit then Limit(wanted)
                                                        else t.resultLimit)
    ensures var r := Fanout(unresolved, done, wanted, hasAttachment, dedupe);
            var limit := if Limit(wanted) < t.resultLimit then Limit(wanted) else t.resultLimit;
            var answer := SearchFolder(t.outcome.content, limit, hasAttachment);
            !Holds(r, m, dedupe) ==>
              && r.truncated
              && ((|r.messages| == Limit(wanted) && forall x <- r.messages :: x.receivedAt >= m.receivedAt)
                  || (|answer| == limit && forall x <- answer :: x.receivedAt >= m.receivedAt))
  {
    ClampIsExact(wanted, 200);
    FolderAnswerIsNewest(t.outcome.content, FolderLimit(Limit(wanted), t), hasAttachment);
    if m in Found(t, Limit(wanted), hasAttachment) {
      ResultIsNewest(unresolved, done, wanted, hasAttachment, dedupe, t, m);
    } else {
      assert AtLimit(t, Limit(wanted), hasAttachment);
    }
  }

  // ----- all folders, without the attachment filter -----

  /** How the server serves one folder: its mailbox's result limit, whether the search is answered, and how many
      candidates are lost at most. */
  datatype Service = Service(resultLimit: nat, answers: bool, losses: nat)

  predicate ServedAs(t: Task, service: Service, limit: nat) {
    && t.resultLimit == service.resultLimit
    && (t.outcome.Matched? ==>
          && t.outcome.content.answered == service.answers
          && Losses(t.outcome.content, FolderLimit(limit, t)) <= service.losses)
  }

  predicate AllServedAs(tasks: seq<Task>, services: seq<Service>, limit: nat) {
    |tasks| == |services| && forall i | 0 <= i < |tasks| :: ServedAs(tasks[i], services[i], limit)
  }

  /** Neither cut nor failed, as far as the result tells. */
  predicate Clean(r: SearchResult) {
    !r.truncated && r.failures == []
  }

  /** Every folder was searched, and the result holds all its matches that pass the filter. */
  ghost predicate HoldsAll(tasks: seq<Task>, r: SearchResult, hasAttachment: Option<bool>, dedupe: bool) {
    forall t <- tasks ::
      t.outcome.Matched? && forall m | Has(t, m) && Passes(m, hasAttachment) :: Holds(r, m, dedupe)
  }

  /** For all folder contents and every order of completion a clean result holds every match. */
  ghost predicate AlwaysComplete(services: seq<Service>, wanted: int, dedupe: bool) {
    forall tasks: seq<Task>, done: seq<Task>
      | AllServedAs(tasks, services, Clamp(wanted, RESULT_LIMIT)) && multiset(done) == multiset(tasks)
        && Clean(Fanout([], done, wanted, None, dedupe)) ::
      HoldsAll(tasks, Fanout([], done, wanted, None, dedupe), None, dedupe)
  }

  /** The limit a folder of this mailbox is asked with. */
  function Asked(wanted: int, resultLimit: nat): nat {
    var limit := Clamp(wanted, RESULT_LIMIT);
    if limit < resultLimit then limit else resultLimit
  }

  predicate ServedWell(services: seq<Service>, wanted: int) {
    forall i | 0 <= i < |services| ::
      services[i].answers && Affords(Asked(wanted, services[i].resultLimit), services[i].losses)
  }

  lemma SameTasks(
    tasks: seq<Task>, done: seq<Task>, wanted: int, hasAttachment: Option<bool>, dedupe: bool, t: Task)
    requires multiset(done) == multiset(tasks) && t in tasks
    requires Fanout([], done, wanted, hasAttachment, dedupe).failures == []
    ensures t in done && t.outcome.Matched?
  {
    assert t in multiset(done);
    FailuresAreFailures(done);
  }

  /** One well-served folder is enough for its own matches, whatever happens to the others. */
  lemma UntruncatedIsComplete(
    done: seq<Task>, wanted: int, dedupe: bool, t: Task, service: Service, m: Summary)
    requires t in done && Has(t, m) && ServedAs(t, service, Clamp(wanted, RESULT_LIMIT))
    requires service.answers && Affords(Asked(wanted, service.resultLimit), service.losses)
    requires !Fanout([], done, wanted, None, dedupe).truncated
    ensures Holds(Fanout([], done, wanted, None, dedupe), m, dedupe)
  {
    var limit := Clamp(wanted, RESULT_LIMIT);
    assert !AtLimit(t, limit, None);
    UnfilteredFolderIsComplete(t.outcome.content, FolderLimit(limit, t), service.losses);
    CompleteHolds(t, limit, None, m);
    UntruncatedHolds(done, wanted, None, dedupe, t, m);
  }

  lemma WellServedHoldsAll(services: seq<Service>, tasks: seq<Task>, done: seq<Task>, wanted: int, dedupe: bool)
    requires ServedWell(services, wanted) && AllServedAs(tasks, services, Clamp(wanted, RESULT_LIMIT))
    requires multiset(done) == multiset(tasks) && Clean(Fanout([], done, wanted, None, dedupe))
    ensures HoldsAll(tasks, Fanout([], done, wanted, None, dedupe), None, dedupe)
  {
    forall t <- tasks
      ensures t.outcome.Matched?
      ensures forall m | Has(t, m) && Passes(m, None) :: Holds(Fanout([], done, wanted, None, dedupe), m, dedupe)
    {
      SameTasks(tasks, done, wanted, None, dedupe, t);
      var i :| 0 <= i < |tasks| && tasks[i] == t;
      forall m | Has(t, m) && Passes(m, None) ensures Holds(Fanout([], done, wanted, None, dedupe), m, dedupe) {
        UntruncatedIsComplete(done, wanted, dedupe, t, services[i], m);
      }
    }
  }

  /** The folder that shows the trouble with this service. */
  function Trouble(service: Service, wanted: int): Folder
    requires service.resultLimit >= 1
  {
    if service.answers then Depleted(Asked(wanted, service.resultLimit)) else Folder(Hidden(1, true, false), false, {})
  }

  /** All folders empty, but for the one at j. */
  function Lone(services: seq<Service>, wanted: int, j: nat): seq<Task>
    requires j < |services| && services[j].resultLimit >= 1
  {
    seq(|services|, i requires 0 <= i < |services| =>
          Task("m", "INBOX", services[i].resultLimit,
               Matched(if i == j then Trouble(services[j], wanted) else Folder([], services[i].answers, {}))))
  }

  lemma TroubleMisses(service: Service, wanted: int)
    requires service.resultLimit >= 1
    requires !(service.answers && Affords(Asked(wanted, service.resultLimit), service.losses))
    ensures var f, limit := Trouble(service, wanted), Asked(wanted, service.resultLimit);
            && f.answered == service.answers && Losses(f, limit) <= service.losses
            && |SearchFolder(f, limit, None)| < limit && f.matches[0].uid !in f.gone
            && forall m <- SearchFolder(f, limit, None) :: m.receivedAt > f.matches[0].receivedAt
  {
    if service.answers {
      DepletedMisses(Asked(wanted, service.resultLimit), service.losses);
    }
  }

  lemma {:induction false} GatherOne(done: seq<Task>, j: nat, limit: nat, hasAttachment: Option<bool>)
    requires forall i | 0 <= i < |done| && i != j :: Found(done[i], limit, hasAttachment) == []
    ensures Gather(done, limit, hasAttachment) == if j < |done| then Found(done[j], limit, hasAttachment) else []
  {
    if done != [] {
      GatherOne(done[..|done| - 1], j, limit, hasAttachment);
    }
  }

  lemma EmptyFindsNothing(t: Task, limit: nat)
    requires t.outcome.Matched? && t.outcome.content.matches == []
    ensures Found(t, limit, None) == [] && Losses(t.outcome.content, FolderLimit(limit, t)) == 0
  {
  }

  lemma LoneIsServed(services: seq<Service>, wanted: int, j: nat)
    requires (forall s <- services :: s.resultLimit >= 1) && j < |services|
    requires !(services[j].answers && Affords(Asked(wanted, services[j].resultLimit), services[j].losses))
    ensures AllServedAs(Lone(services, wanted, j), services, Clamp(wanted, RESULT_LIMIT))
    ensures Gather(Lone(services, wanted, j), Clamp(wanted, RESULT_LIMIT), None)
         == SearchFolder(Trouble(services[j], wanted), Asked(wanted, services[j].resultLimit), None)
    ensures !SomeAtLimit(Lone(services, wanted, j), Clamp(wanted, RESULT_LIMIT), None)
  {
    var tasks, limit := Lone(services, wanted, j), Clamp(wanted, RESULT_LIMIT);
    TroubleMisses(services[j], wanted);
    forall i | 0 <= i < |tasks|
      ensures ServedAs(tasks[i], services[i], limit) && !AtLimit(tasks[i], limit, None)
      ensures i != j ==> Found(tasks[i], limit, None) == []
    {
      assert services[i] in services;
      if i != j {
        EmptyFindsNothing(tasks[i], limit);
      }
    }
    GatherOne(tasks, j, limit, None);
  }

  lemma FewAreNotCut(done: seq<Task>, wanted: int, hasAttachment: Option<bool>, dedupe: bool)
    requires |Gather(done, Clamp(wanted, RESULT_LIMIT), hasAttachment)| <= Clamp(wanted, RESULT_LIMIT)
    requires !SomeAtLimit(done, Clamp(wanted, RESULT_LIMIT), hasAttachment)
    ensures !Fanout([], done, wanted, hasAttachment, dedupe).truncated
  {
    var gathered := Gather(done, Clamp(wanted, RESULT_LIMIT), hasAttachment);
    SortSorts(Age, gathered);
    assert |multiset(gathered)| == |gathered| && |multiset(SortBy(Age, gathered))| == |SortBy(Age, gathered)|;
    FirstKeysShorten(SortBy(Age, gathered));
  }

  /** What the folders find is all there is in the result, and nothing is reported. */
  lemma FewAreClean(done: seq<Task>, wanted: int, dedupe: bool)
    requires |Gather(done, Clamp(wanted, RESULT_LIMIT), None)| <= Clamp(wanted, RESULT_LIMIT)
    requires !SomeAtLimit(done, Clamp(wanted, RESULT_LIMIT), None) && forall t <- done :: t.outcome.Matched?
    ensures Clean(Fanout([], done, wanted, None, dedupe))
    ensures forall x <- Fanout([], done, wanted, None, dedupe).messages ::
              x in Gather(done, Clamp(wanted, RESULT_LIMIT), None)
  {
    FewAreNotCut(done, wanted, None, dedupe);
    FailuresAreFailures(done);
    forall x <- Fanout([], done, wanted, None, dedupe).messages
      ensures x in Gather(done, Clamp(wanted, RESULT_LIMIT), None)
    {
      SelectedIsGathered(Gather(done, Clamp(wanted, RESULT_LIMIT), None), Clamp(wanted, RESULT_LIMIT), dedupe, x);
    }
  }

  lemma LoneIsMatched(services: seq<Service>, wanted: int, j: nat)
    requires j < |services| && services[j].resultLimit >= 1
    ensures forall t <- Lone(services, wanted, j) :: t.outcome.Matched?
  {
  }

  /** The result is clean, and all it holds is newer than one message that is there. */
  lemma LoneIsClean(services: seq<Service>, wanted: int, dedupe: bool, j: nat)
    requires (forall s <- services :: s.resultLimit >= 1) && j < |services|
    requires !(services[j].answers && Affords(Asked(wanted, services[j].resultLimit), services[j].losses))
    ensures var r := Fanout([], Lone(services, wanted, j), wanted, None, dedupe);
            Clean(r) && forall x <- r.messages :: x.receivedAt > Trouble(services[j], wanted).matches[0].receivedAt
  {
    LoneIsServed(services, wanted, j);
    TroubleMisses(services[j], wanted);
    LoneIsMatched(services, wanted, j);
    FewAreClean(Lone(services, wanted, j), wanted, dedupe);
  }

  lemma NewerAreOthers(
    tasks: seq<Task>, r: SearchResult, hasAttachment: Option<bool>, dedupe: bool, t: Task, m: Summary)
    requires t in tasks && Has(t, m) && Passes(m, hasAttachment)
    requires forall x <- r.messages :: x.receivedAt > m.receivedAt
    ensures !HoldsAll(tasks, r, hasAttachment, dedupe)
  {
    assert !Holds(r, m, dedupe);
  }

  lemma LoneMisses(services: seq<Service>, wanted: int, dedupe: bool, j: nat)
    requires (forall s <- services :: s.resultLimit >= 1) && j < |services|
    requires !(services[j].answers && Affords(Asked(wanted, services[j].resultLimit), services[j].losses))
    ensures !AlwaysComplete(services, wanted, dedupe)
  {
    var tasks := Lone(services, wanted, j);
    LoneIsServed(services, wanted, j);
    LoneIsClean(services, wanted, dedupe, j);
    TroubleMisses(services[j], wanted);
    NewerAreOthers(tasks, Fanout([], tasks, wanted, None, dedupe), None, dedupe, tasks[j],
                   Trouble(services[j], wanted).matches[0]);
  }

  lemma {:induction false} FirstKeysShorten(ms: seq<Summary>)
    ensures |Dedupe(ms)| == |FirstKeys(ms)| <= |ms|
  {
    if ms != [] {
      FirstKeysShorten(ms[..|ms| - 1]);
    }
  }

  /** Without the attachment filter an untruncated, failure-free result holds every match of every folder, in whatever
      order the searches completed and whatever the folders hold, exactly when every folder's search is answered and
      loses no more than the slack makes up for; the result itself does not tell. */
  lemma FanoutExactlyWhen(services: seq<Service>, wanted: int, dedupe: bool)
    requires forall s <- services :: s.resultLimit >= 1
    ensures AlwaysComplete(services, wanted, dedupe) <==> ServedWell(services, wanted)
  {
    if ServedWell(services, wanted) {
      forall tasks: seq<Task>, done: seq<Task>
        | AllServedAs(tasks, services, Clamp(wanted, RESULT_LIMIT)) && multiset(done) == multiset(tasks)
          && Clean(Fanout([], done, wanted, None, dedupe))
        ensures HoldsAll(tasks, Fanout([], done, wanted, None, dedupe), None, dedupe)
      {
        WellServedHoldsAll(services, tasks, done, wanted, dedupe);
      }
    } else {
      var j :| 0 <= j < |services|
               && !(services[j].answers && Affords(Asked(wanted, services[j].resultLimit), services[j].losses));
      LoneMisses(services, wanted, dedupe, j);
    }
  }

  /** For every limit that can be asked for, the slack is at least 40. */
  lemma SlackIsEnough(limit: nat)
    requires 1 <= limit <= 200
    ensures Affords(limit, 40)
  {
  }

  /** So with the configured limits, and no more than 40 messages of a folder expunged while it is searched, it is the
      answers alone that decide. */
  lemma AnswersDecide(services: seq<Service>, wanted: int, dedupe: bool)
    requires forall s <- services :: 1 <= s.resultLimit <= 100 && s.losses <= 40
    ensures AlwaysComplete(services, wanted, dedupe) <==> forall s <- services :: s.answers
  {
    FanoutExactlyWhen(services, wanted, dedupe);
    forall i | 0 <= i < |services| ensures Affords(Asked(wanted, services[i].resultLimit), services[i].losses) {
      assert services[i] in services;
      SlackIsEnough(Asked(wanted, services[i].resultLimit));
    }
    if ServedWell(services, wanted) {
      forall s <- services ensures s.answers {
        var i :| 0 <= i < |services| && services[i] == s;
      }
    }
  }

  // ----- all folders, with the attachment filter -----

  /** How many matches a folder holds, its mailbox's result limit, and whether its search is answered. */
  datatype Size = Size(count: nat, resultLimit: nat, answers: bool)

  predicate Sized(t: Task, size: Size) {
    && t.resultLimit == size.resultLimit
    && (t.outcome.Matched? ==>
          |t.outcome.content.matches| == size.count && t.outcome.content.answered == size.answers)
  }

  predicate AllSized(tasks: seq<Task>, sizes: seq<Size>) {
    |tasks| == |sizes| && forall i | 0 <= i < |tasks| :: Sized(tasks[i], sizes[i])
  }

  /** For all folder contents of these sizes and every order of completion a clean result holds every match that passes
      the filter. */
  ghost predicate FilteredAlwaysComplete(sizes: seq<Size>, wanted: int, attached: bool, dedupe: bool) {
    forall tasks: seq<Task>, done: seq<Task>
      | AllSized(tasks, sizes) && multiset(done) == multiset(tasks)
        && Clean(Fanout([], done, wanted, Some(attached), dedupe)) ::
      HoldsAll(tasks, Fanout([], done, wanted, Some(attached), dedupe), Some(attached), dedupe)
  }

  /** The folder is empty, or its search is answered with no more matches than are fetched. */
  predicate WithinFetch(size: Size, wanted: int) {
    size.count == 0 || (size.answers && size.count <= CandidateLimit(Asked(wanted, size.resultLimit)))
  }

  predicate AllWithinFetch(sizes: seq<Size>, wanted: int) {
    forall i | 0 <= i < |sizes| :: WithinFetch(sizes[i], wanted)
  }

  lemma FilteredTaskIsComplete(t: Task, size: Size, wanted: int, attached: bool, m: Summary)
    requires Sized(t, size) && WithinFetch(size, wanted)
    requires !AtLimit(t, Clamp(wanted, RESULT_LIMIT), Some(attached))
    requires Has(t, m) && Passes(m, Some(attached))
    ensures m in Found(t, Clamp(wanted, RESULT_LIMIT), Some(attached))
  {
    var limit := Clamp(wanted, RESULT_LIMIT);
    WithinCutIsComplete(t.outcome.content, FolderLimit(limit, t), Some(attached));
    CompleteHolds(t, limit, Some(attached), m);
  }

  lemma WithinFetchHoldsAll(
    sizes: seq<Size>, tasks: seq<Task>, done: seq<Task>, wanted: int, attached: bool, dedupe: bool)
    requires AllWithinFetch(sizes, wanted) && AllSized(tasks, sizes) && multiset(done) == multiset(tasks)
    requires Clean(Fanout([], done, wanted, Some(attached), dedupe))
    ensures HoldsAll(tasks, Fanout([], done, wanted, Some(attached), dedupe), Some(attached), dedupe)
  {
    forall t <- tasks
      ensures t.outcome.Matched?
      ensures forall m | Has(t, m) && Passes(m, Some(attached)) ::
                Holds(Fanout([], done, wanted, Some(attached), dedupe), m, dedupe)
    {
      SameTasks(tasks, done, wanted, Some(attached), dedupe, t);
      var i :| 0 <= i < |tasks| && tasks[i] == t;
      assert !AtLimit(t, Clamp(wanted, RESULT_LIMIT), Some(attached));
      forall m | Has(t, m) && Passes(m, Some(attached))
        ensures Holds(Fanout([], done, wanted, Some(attached), dedupe), m, dedupe)
      {
        FilteredTaskIsComplete(t, sizes[i], wanted, attached, m);
        UntruncatedHolds(done, wanted, Some(attached), dedupe, t, m);
      }
    }
  }

  function BlindTask(size: Size, attached: bool, first: bool): Task {
    Task("m", "INBOX", size.resultLimit, Matched(Folder(Hidden(size.count, attached, first), size.answers, {})))
  }

  /** Folders of these sizes in which the filter finds nothing, although folder j has a match. */
  function Blind(sizes: seq<Size>, attached: bool, j: nat): seq<Task> {
    seq(|sizes|, i requires 0 <= i < |sizes| => BlindTask(sizes[i], attached, i == j))
  }

  lemma BlindTaskFindsNothing(size: Size, wanted: int, attached: bool, first: bool)
    requires size.resultLimit >= 1 && (first ==> !WithinFetch(size, wanted))
    ensures var limit, t := Clamp(wanted, RESULT_LIMIT), BlindTask(size, attached, first);
            Found(t, limit, Some(attached)) == [] && !AtLimit(t, limit, Some(attached))
  {
    HiddenIsMissed(size.count, size.answers, Asked(wanted, size.resultLimit), attached, first);
  }

  lemma {:induction false} NothingGathered(done: seq<Task>, limit: nat, hasAttachment: Option<bool>)
    requires forall t <- done :: Found(t, limit, hasAttachment) == []
    ensures Gather(done, limit, hasAttachment) == []
  {
    if done != [] {
      NothingGathered(done[..|done| - 1], limit, hasAttachment);
    }
  }

  lemma SilentFanout(done: seq<Task>, wanted: int, hasAttachment: Option<bool>, dedupe: bool)
    requires forall t <- done ::
               && t.outcome.Matched? && Found(t, Clamp(wanted, RESULT_LIMIT), hasAttachment) == []
               && !AtLimit(t, Clamp(wanted, RESULT_LIMIT), hasAttachment)
    ensures Fanout([], done, wanted, hasAttachment, dedupe) == SearchResult([], [], false)
  {
    NothingGathered(done, Clamp(wanted, RESULT_LIMIT), hasAttachment);
    FailuresAreFailures(done);
  }

  lemma BlindFindsNothing(sizes: seq<Size>, wanted: int, attached: bool, dedupe: bool, j: nat)
    requires (forall s <- sizes :: s.resultLimit >= 1) && j < |sizes| && !WithinFetch(sizes[j], wanted)
    ensures Fanout([], Blind(sizes, attached, j), wanted, Some(attached), dedupe) == SearchResult([], [], false)
  {
    var limit, done := Clamp(wanted, RESULT_LIMIT), Blind(sizes, attached, j);
    forall t <- done ensures Found(t, limit, Some(attached)) == [] && !AtLimit(t, limit, Some(attached)) {
      var i :| 0 <= i < |sizes| && t == done[i];
      assert sizes[i] in sizes;
      BlindTaskFindsNothing(sizes[i], wanted, attached, i == j);
    }
    assert forall t <- done :: t.outcome.Matched?;
    SilentFanout(done, wanted, Some(attached), dedupe);
  }

  lemma BlindIsSized(sizes: seq<Size>, attached: bool, j: nat)
    requires j < |sizes|
    ensures AllSized(Blind(sizes, attached, j), sizes)
    ensures sizes[j].count > 0 ==>
              var t := Blind(sizes, attached, j)[j];
              && t in Blind(sizes, attached, j) && Has(t, t.outcome.content.matches[0])
              && Passes(t.outcome.content.matches[0], Some(attached))
  {
  }

  lemma BlindIsIncomplete(sizes: seq<Size>, wanted: int, attached: bool, dedupe: bool, j: nat)
    requires (forall s <- sizes :: s.resultLimit >= 1) && j < |sizes| && !WithinFetch(sizes[j], wanted)
    ensures var tasks := Blind(sizes, attached, j);
            var r := Fanout([], tasks, wanted, Some(attached), dedupe);
            AllSized(tasks, sizes) && Clean(r) && !HoldsAll(tasks, r, Some(attached), dedupe)
  {
    var tasks := Blind(sizes, attached, j);
    BlindFindsNothing(sizes, wanted, attached, dedupe, j);
    BlindIsSized(sizes, attached, j);
    NewerAreOthers(tasks, SearchResult([], [], false), Some(attached), dedupe, tasks[j],
                   tasks[j].outcome.content.matches[0]);
  }

  lemma BlindMisses(sizes: seq<Size>, wanted: int, attached: bool, dedupe: bool, j: nat)
    requires (forall s <- sizes :: s.resultLimit >= 1) && j < |sizes| && !WithinFetch(sizes[j], wanted)
    ensures !FilteredAlwaysComplete(sizes, wanted, attached, dedupe)
  {
    BlindIsIncomplete(sizes, wanted, attached, dedupe, j);
  }

  /** With the filter set, an untruncated, failure-free result can be trusted exactly when every folder that has matches
      answered its search, with no more matches than are fetched from it at all; the result itself does not tell. */
  lemma FilteredFanoutExactlyWhen(sizes: seq<Size>, wanted: int, attached: bool, dedupe: bool)
    requires forall s <- sizes :: s.resultLimit >= 1
    ensures FilteredAlwaysComplete(sizes, wanted, attached, dedupe) <==> AllWithinFetch(sizes, wanted)
  {
    if AllWithinFetch(sizes, wanted) {
      forall tasks: seq<Task>, done: seq<Task>
        | AllSized(tasks, sizes) && multiset(done) == multiset(tasks)
          && Clean(Fanout([], done, wanted, Some(attached), dedupe))
        ensures HoldsAll(tasks, Fanout([], done, wanted, Some(attached), dedupe), Some(attached), dedupe)
      {
        WithinFetchHoldsAll(sizes, tasks, done, wanted, attached, dedupe);
      }
    } else {
      var j :| 0 <= j < |sizes| && !WithinFetch(sizes[j], wanted);
      BlindMisses(sizes, wanted, attached, dedupe, j);
    }
  }

  /** The smallest instances, in which the search as a whole reports neither a cut nor a failure: for every requested
      and configured limit, one folder whose only match is not found for being old, */
  lemma FilteredFolderCanMiss(wanted: int, resultLimit: nat, attached: bool, dedupe: bool)
    requires resultLimit >= 1
    ensures var size := Size(CandidateLimit(Asked(wanted, resultLimit)) + 1, resultLimit, true);
            var t := BlindTask(size, attached, true);
            && Fanout([], [t], wanted, Some(attached), dedupe) == SearchResult([], [], false)
            && Has(t, t.outcome.content.matches[0]) && Passes(t.outcome.content.matches[0], Some(attached))
  {
    var sizes := [Size(CandidateLimit(Asked(wanted, resultLimit)) + 1, resultLimit, true)];
    BlindFindsNothing(sizes, wanted, attached, dedupe, 0);
    assert Blind(sizes, attached, 0) == [BlindTask(sizes[0], attached, true)];
  }

  /** and any one folder at all, if its search is not answered. */
  lemma UnansweredFolderIsSilent(
    matches: seq<Summary>, wanted: int, resultLimit: nat, hasAttachment: Option<bool>, dedupe: bool)
    requires resultLimit >= 1
    ensures var t := Task("m", "INBOX", resultLimit, Matched(Folder(matches, false, {})));
            Fanout([], [t], wanted, hasAttachment, dedupe) == SearchResult([], [], false)
  {
    var t := Task("m", "INBOX", resultLimit, Matched(Folder(matches, false, {})));
    var limit := Clamp(wanted, RESULT_LIMIT);
    assert Found(t, limit, hasAttachment) == [] && !AtLimit(t, limit, hasAttachment);
    SilentFanout([t], wanted, hasAttachment, dedupe);
  }

  lemma {:induction false} FilterKeepsOnly(xs: seq<Summary>, gone: set<nat>, hasAttachment: Option<bool>, m: Summary)
    ensures m in Filter(xs, gone, hasAttachment) <==> m in xs && Wanted(m, gone, hasAttachment)
  {
    FilterCount(xs, gone, hasAttachment, m);
    assert m in Filter(xs, gone, hasAttachment) <==> m in multiset(Filter(xs, gone, hasAttachment));
    assert m in xs <==> m in multiset(xs);
  }

  lemma FoundIsCandidate(f: Folder, limit: nat, hasAttachment: Option<bool>, m: Summary)
    requires m in SearchFolder(f, limit, hasAttachment)
    ensures m in Candidates(Listed(f), limit) && Wanted(m, f.gone, hasAttachment)
  {
    var kept := Filter(Candidates(Listed(f), limit), f.gone, hasAttachment);
    assert m in SortBy(Age, kept);
    SortKeepsMembers(Age, kept, m);
    FilterKeepsOnly(Candidates(Listed(f), limit), f.gone, hasAttachment, m);
  }

  /** A folder's answer holds only its own matches that are there and pass the filter. */
  lemma FoundIsReal(f: Folder, limit: nat, hasAttachment: Option<bool>, m: Summary)
    requires m in SearchFolder(f, limit, hasAttachment)
    ensures m in f.matches && Wanted(m, f.gone, hasAttachment)
  {
    FoundIsCandidate(f, limit, hasAttachment, m);
    CandidatesAndDropped(Listed(f), limit);
    assert m in multiset(Candidates(Listed(f), limit));
    assert m in multiset(Listed(f));
  }

  predicate IsFailureOf(done: seq<Task>, f: Failure) {
    exists t <- done :: t.outcome.TaskFailed? && f == Failure(t.mailbox, Some(t.folder), t.outcome.code)
  }

  lemma {:induction false} FailuresAreExact(done: seq<Task>, f: Failure)
    ensures f in FailuresOf(done) <==> IsFailureOf(done, f)
  {
    if done != [] {
      FailuresAreExact(done[..|done| - 1], f);
      assert done == done[..|done| - 1] + [done[|done| - 1]];
    }
  }

  lemma SelectedIsGathered(gathered: seq<Summary>, limit: nat, dedupe: bool, m: Summary)
    requires var ordered := SortBy(Age, gathered); m in First(if dedupe then Dedupe(ordered) else ordered, limit)
    ensures m in gathered
  {
    var ordered := SortBy(Age, gathered);
    if dedupe {
      DedupeIsSpecified(ordered);
      var n :| 0 <= n < |Dedupe(ordered)| && Dedupe(ordered)[n] == m;
      var i :| 0 <= i < |ordered| && m == ordered[i];
    }
    assert m in ordered;
    SortKeepsMembers(Age, gathered, m);
  }

  lemma OrderedNewestFirst(gathered: seq<Summary>)
    ensures NewestFirst(SortBy(Age, gathered)) && NewestFirst(Dedupe(SortBy(Age, gathered)))
  {
    var ordered := SortBy(Age, gathered);
    SortSorts(Age, gathered);
    forall i, j | 0 <= i < j < |ordered| ensures ordered[i].receivedAt >= ordered[j].receivedAt {
      assert Age(ordered[i]) <= Age(ordered[j]);
    }
    DedupeKeepsOrder(ordered);
  }

  /** And whatever was cut off or filtered, the result holds only real matches that pass the filter, newest first and
      within the limit, and its failures are those of the unlisted mailboxes and the failed folder searches. */
  lemma ResultIsSound(
    unresolved: seq<Failure>, done: seq<Task>, wanted: int, hasAttachment: Option<bool>, dedupe: bool)
    ensures var r := Fanout(unresolved, done, wanted, hasAttachment, dedupe);
            && |r.messages| <= Clamp(wanted, RESULT_LIMIT) && NewestFirst(r.messages)
            && (forall m <- r.messages ::
                  exists t <- done :: Has(t, m) && Passes(m, hasAttachment))
            && (forall f :: f in r.failures <==> f in unresolved || IsFailureOf(done, f))
  {
    var limit := Clamp(wanted, RESULT_LIMIT);
    var gathered := Gather(done, limit, hasAttachment);
    var r := Fanout(unresolved, done, wanted, hasAttachment, dedupe);
    OrderedNewestFirst(gathered);
    GatherHoldsEach(done, limit, hasAttachment);
    forall m <- r.messages
      ensures exists t <- done :: Has(t, m) && Passes(m, hasAttachment)
    {
      SelectedIsGathered(gathered, limit, dedupe, m);
      var t :| t in done && m in Found(t, limit, hasAttachment);
      FoundIsReal(t.outcome.content, FolderLimit(limit, t), hasAttachment, m);
    }
    forall f ensures f in r.failures <==> f in unresolved || IsFailureOf(done, f) {
      FailuresAreExact(done, f);
    }
  }
}
