/** Putting a copy of an accepted message into the Sent folder, against a server whose APPEND may store the
    message and still report an error. The server's behaviour is an arbitrary script. */
module SentCopy {
  import opened MailTypes

  datatype CopyError = Failed | TooLarge | FolderNotFound | ReadCheckFailed | AppendRejected | Imap(text: string)

  /** Copies of this Message-ID in the Sent folder, how many of them `save` itself stored, and whether it ever
      stored one on top of an existing copy. */
  datatype Folder = Folder(copies: nat, own: nat, doubled: bool)

  /** Other clients or the provider may save copies just before any search. `Unanswered` is a search that
      returns false instead of a list; the code reads it as "none found". */
  datatype Search = Search(arrivals: nat, reply: Reply)
  datatype Reply = Listed | Unanswered | SearchThrew(error: CopyError)

  datatype Setup = SetupThrew(error: CopyError) | NoSentFolder | Ready

  /** `Threw(true)` stored the message before the error reached the client. */
  datatype Append = Stored | NotStored | Threw(stored: bool, error: CopyError)

  /** One connection: set up, open read-only, search, close the folder, append. `between` counts copies that
      others save after the last search and before the append. */
  datatype Attempt = Attempt(
    setup: Setup, openThrew: Option<CopyError>, readOnly: bool, searches: seq<Search>, closeThrew: Option<CopyError>,
    between: nat, append: Append)

  datatype Status = ProviderSaved | ImapAppended | SaveFailed

  datatype CopyResult = CopyResult(status: Status, folder: Option<string>, attempts: nat, error: Option<CopyError>)

  // ----- observing -----

  datatype Observation = Seen | Absent | ObserveThrew(error: CopyError)

  /** The searches from index i on; the first hit or error ends them. */
  function SearchFrom(f: Folder, searches: seq<Search>, i: nat): (Folder, Observation)
    requires i <= |searches|
    decreases |searches| - i
  {
    if i == |searches| then (f, Absent)
    else
      var g := f.(copies := f.copies + searches[i].arrivals);
      match searches[i].reply
      case SearchThrew(e) => (g, ObserveThrew(e))
      case Unanswered => SearchFrom(g, searches, i + 1)
      case Listed => if g.copies > 0 then (g, Seen) else SearchFrom(g, searches, i + 1)
  }

  /** An error while closing the folder replaces whatever was observed. */
  function ObserveExisting(f: Folder, a: Attempt): (Folder, Observation) {
    if a.openThrew.Some? then (f, ObserveThrew(a.openThrew.value))
    else if !a.readOnly then (f, ObserveThrew(ReadCheckFailed))
    else
      var (g, seen) := SearchFrom(f, a.searches, 0);
      if a.closeThrew.Some? then (g, ObserveThrew(a.closeThrew.value)) else (g, seen)
  }

  method ObserveLoop(f: Folder, a: Attempt) returns (g: Folder, seen: Observation)
    ensures (g, seen) == ObserveExisting(f, a)
  {
    if a.openThrew.Some? { return f, ObserveThrew(a.openThrew.value); }
    if !a.readOnly { return f, ObserveThrew(ReadCheckFailed); }
    g, seen := f, Absent;
    var i := 0;
    while i < |a.searches| && seen == Absent
      invariant 0 <= i <= |a.searches|
      invariant SearchFrom(f, a.searches, 0) == if seen == Absent then SearchFrom(g, a.searches, i) else (g, seen)
    {
      g := g.(copies := g.copies + a.searches[i].arrivals);
      match a.searches[i].reply {
        case SearchThrew(e) => seen := ObserveThrew(e);
        case Unanswered =>
        case Listed => if g.copies > 0 { seen := Seen; }
      }
      i := i + 1;
    }
    if a.closeThrew.Some? { seen := ObserveThrew(a.closeThrew.value); }
  }

  // ----- one attempt, then all of them -----

  function StoreOwn(f: Folder): Folder {
    Folder(f.copies + 1, f.own + 1, f.doubled || f.copies > 0)
  }

  datatype End = Return(status: Status) | GiveUp | Retry(error: CopyError)

  function TryOnce(f: Folder, a: Attempt): (Folder, End) {
    match a.setup
    case SetupThrew(e) => (f, Retry(e))
    case NoSentFolder => (f, GiveUp)
    case Ready =>
      var (g, seen) := ObserveExisting(f, a);
      match seen
      case ObserveThrew(e) => (g, Retry(e))
      case Seen => (g, Return(ProviderSaved))
      case Absent =>
        var h := g.(copies := g.copies + a.between);
        match a.append
        case Stored => (StoreOwn(h), Return(ImapAppended))
        case NotStored => (h, Retry(AppendRejected))
        case Threw(stored, e) => (if stored then StoreOwn(h) else h, Retry(e))
  }

  /** Attempts k, k+1, ... of the script, where k counts from 1. */
  function SaveFrom(f: Folder, script: seq<Attempt>, k: nat, path: string, last: Option<string>, error: CopyError)
    : (Folder, CopyResult)
    requires 1 <= k <= |script| + 1
    decreases |script| + 1 - k
  {
    if k == |script| + 1 then (f, CopyResult(SaveFailed, last, |script|, Some(error)))
    else
      var (g, end) := TryOnce(f, script[k - 1]);
      match end
      case Return(status) => (g, CopyResult(status, Some(path), k, None))
      case GiveUp => (g, CopyResult(SaveFailed, None, k, Some(FolderNotFound)))
      case Retry(e) => SaveFrom(g, script, k + 1, path, if script[k - 1].setup == Ready then Some(path) else last, e)
  }

  function SaveCopy(f: Folder, script: seq<Attempt>, path: string, size: nat, maxSize: nat): (Folder, CopyResult) {
    if size > maxSize then (f, CopyResult(SaveFailed, None, 0, Some(TooLarge)))
    else SaveFrom(f, script, 1, path, None, Failed)
  }

  method Save(f: Folder, script: seq<Attempt>, path: string, size: nat, maxSize: nat) returns (g: Folder, r: CopyResult)
    ensures (g, r) == SaveCopy(f, script, path, size, maxSize)
  {
    g := f;
    if size > maxSize { return g, CopyResult(SaveFailed, None, 0, Some(TooLarge)); }
    var lastError := Failed;
    var lastFolder: Option<string> := None;
    var attempt := 1;
    while attempt <= |script|
      invariant 1 <= attempt <= |script| + 1
      invariant SaveFrom(f, script, 1, path, None, Failed) == SaveFrom(g, script, attempt, path, lastFolder, lastError)
    {
      var a := script[attempt - 1];
      match a.setup {
        case SetupThrew(e) => lastError := e;
        case NoSentFolder => return g, CopyResult(SaveFailed, None, attempt, Some(FolderNotFound));
        case Ready =>
          lastFolder := Some(path);
          var seen;
          g, seen := ObserveLoop(g, a);
          match seen {
            case ObserveThrew(e) => lastError := e;
            case Seen => return g, CopyResult(ProviderSaved, Some(path), attempt, None);
            case Absent =>
              g := g.(copies := g.copies + a.between);
              match a.append {
                case Stored => return StoreOwn(g), CopyResult(ImapAppended, Some(path), attempt, None);
                case NotStored => lastError := AppendRejected;
                case Threw(stored, e) =>
                  if stored { g := StoreOwn(g); }
                  lastError := e;
              }
          }
      }
      attempt := attempt + 1;
    }
    return g, CopyResult(SaveFailed, lastFolder, |script|, Some(lastError));
  }

  // ----- searching -----

  predicate Answers(s: Search) {
    s.reply != Unanswered
  }

  /** At least one search of the attempt is answered, with a list or an error. */
  predicate SomeAnswers(a: Attempt) {
    exists s <- a.searches :: Answers(s)
  }

  predicate LastAnswers(a: Attempt) {
    a.searches != [] && Answers(a.searches[|a.searches| - 1])
  }

  lemma {:induction false} SearchKeeps(f: Folder, searches: seq<Search>, i: nat)
    requires i <= |searches|
    ensures var (g, seen) := SearchFrom(f, searches, i);
            g.own == f.own && g.doubled == f.doubled && g.copies >= f.copies && (seen == Seen ==> g.copies > 0)
    decreases |searches| - i
  {
    if i < |searches| && !searches[i].reply.SearchThrew? {
      SearchKeeps(f.(copies := f.copies + searches[i].arrivals), searches, i + 1);
    }
  }

  /** With a copy there, an answered search finds it or fails. */
  lemma {:induction false} SearchFinds(f: Folder, searches: seq<Search>, i: nat, n: nat)
    requires i <= n < |searches| && Answers(searches[n]) && f.copies > 0
    ensures SearchFrom(f, searches, i).1 != Absent
    decreases |searches| - i
  {
    if i < n && searches[i].reply == Unanswered {
      SearchFinds(f.(copies := f.copies + searches[i].arrivals), searches, i + 1, n);
    }
  }

  /** If even an answered last search finds nothing, nothing is there. */
  lemma {:induction false} SearchSees(f: Folder, searches: seq<Search>, i: nat)
    requires i < |searches| && Answers(searches[|searches| - 1])
    ensures var (g, seen) := SearchFrom(f, searches, i); seen == Absent ==> g.copies == 0
    decreases |searches| - i
  {
    if i < |searches| - 1 && !searches[i].reply.SearchThrew? {
      SearchSees(f.(copies := f.copies + searches[i].arrivals), searches, i + 1);
    }
  }

  // ----- one attempt -----

  lemma TryKeeps(f: Folder, a: Attempt)
    ensures var (g, end) := TryOnce(f, a);
            && g.copies >= f.copies && (g.own == f.own || (g.own == f.own + 1 && g.copies > 0))
            && (end.Return? ==> g.copies > 0)
            && (end == Return(ImapAppended) ==> g.own == f.own + 1) && (end == Return(ProviderSaved) ==> g.own == f.own)
  {
    SearchKeeps(f, a.searches, 0);
  }

  lemma TryLeavesAlone(f: Folder, a: Attempt)
    requires f.copies > 0 && SomeAnswers(a)
    ensures TryOnce(f, a).0.own == f.own && TryOnce(f, a).0.doubled == f.doubled
  {
    SearchKeeps(f, a.searches, 0);
    var n :| 0 <= n < |a.searches| && Answers(a.searches[n]);
    SearchFinds(f, a.searches, 0, n);
  }

  lemma TryNeverDoubles(f: Folder, a: Attempt)
    requires LastAnswers(a) && a.between == 0
    ensures TryOnce(f, a).0.doubled == f.doubled
  {
    SearchKeeps(f, a.searches, 0);
    SearchSees(f, a.searches, 0);
  }

  // ----- all attempts -----

  lemma {:induction false} SaveKeeps(
    f: Folder, script: seq<Attempt>, k: nat, path: string, last: Option<string>, error: CopyError)
    requires 1 <= k <= |script| + 1
    ensures var (g, r) := SaveFrom(f, script, k, path, last, error);
            && g.own >= f.own && r.attempts <= |script|
            && (r.status == ProviderSaved || r.status == ImapAppended ==> g.copies > 0)
            && (r.status == ImapAppended ==> g.own > f.own)
    decreases |script| + 1 - k
  {
    if k <= |script| {
      var (g, end) := TryOnce(f, script[k - 1]);
      TryKeeps(f, script[k - 1]);
      if end.Retry? {
        SaveKeeps(g, script, k + 1, path, if script[k - 1].setup == Ready then Some(path) else last, end.error);
      }
    }
  }

  predicate SomeAnswersFrom(script: seq<Attempt>, k: nat) {
    forall i | k <= i < |script| :: SomeAnswers(script[i])
  }

  /** Once a copy is there, attempts with an answered search store nothing more. */
  lemma {:induction false} RestLeavesAlone(
    f: Folder, script: seq<Attempt>, k: nat, path: string, last: Option<string>, error: CopyError)
    requires 1 <= k <= |script| + 1 && SomeAnswersFrom(script, k - 1) && f.copies > 0
    ensures SaveFrom(f, script, k, path, last, error).0.own == f.own
    decreases |script| + 1 - k
  {
    if k <= |script| {
      var (g, end) := TryOnce(f, script[k - 1]);
      TryKeeps(f, script[k - 1]);
      TryLeavesAlone(f, script[k - 1]);
      if end.Retry? {
        RestLeavesAlone(g, script, k + 1, path, if script[k - 1].setup == Ready then Some(path) else last, end.error);
      }
    }
  }

  lemma {:induction false} RestStoresOnce(
    f: Folder, script: seq<Attempt>, k: nat, path: string, last: Option<string>, error: CopyError)
    requires 1 <= k <= |script| + 1 && SomeAnswersFrom(script, k) && f.own == 0
    ensures SaveFrom(f, script, k, path, last, error).0.own <= 1
    decreases |script| + 1 - k
  {
    if k <= |script| {
      var (g, end) := TryOnce(f, script[k - 1]);
      var next := if script[k - 1].setup == Ready then Some(path) else last;
      TryKeeps(f, script[k - 1]);
      if end.Retry? && g.own == 0 {
        RestStoresOnce(g, script, k + 1, path, next, end.error);
      } else if end.Retry? {
        RestLeavesAlone(g, script, k + 1, path, next, end.error);
      }
    }
  }

  predicate LastAnswersFrom(script: seq<Attempt>, k: nat) {
    forall i | k <= i < |script| :: LastAnswers(script[i]) && script[i].between == 0
  }

  lemma {:induction false} RestNeverDoubles(
    f: Folder, script: seq<Attempt>, k: nat, path: string, last: Option<string>, error: CopyError)
    requires 1 <= k <= |script| + 1 && LastAnswersFrom(script, k - 1)
    ensures SaveFrom(f, script, k, path, last, error).0.doubled == f.doubled
    decreases |script| + 1 - k
  {
    if k <= |script| {
      var (g, end) := TryOnce(f, script[k - 1]);
      TryNeverDoubles(f, script[k - 1]);
      if end.Retry? {
        RestNeverDoubles(g, script, k + 1, path, if script[k - 1].setup == Ready then Some(path) else last, end.error);
      }
    }
  }

  function Saved(copies: nat, script: seq<Attempt>, path: string, size: nat, maxSize: nat): (Folder, CopyResult) {
    SaveCopy(Folder(copies, 0, false), script, path, size, maxSize)
  }

  /** Whatever fails and however often it is retried: the attempts are bounded and a claimed copy is really there.
      Each further promise needs only what it says of the searches: one answered in every retry for at most one
      copy; one in every attempt for leaving an existing copy alone; the last one of every attempt, and no other
      client saving after it, for never storing on top of a copy. */
  lemma SaveIsSafe(copies: nat, script: seq<Attempt>, path: string, size: nat, maxSize: nat)
    ensures var (g, r) := Saved(copies, script, path, size, maxSize);
            && r.attempts <= |script|
            && (r.status == ProviderSaved || r.status == ImapAppended ==> g.copies > 0)
            && (r.status == ImapAppended ==> g.own > 0)
            && (SomeAnswersFrom(script, 1) ==> g.own <= 1)
            && (SomeAnswersFrom(script, 0) && copies > 0 ==> g.own == 0)
            && (LastAnswersFrom(script, 0) ==> !g.doubled)
  {
    if size <= maxSize {
      var f := Folder(copies, 0, false);
      SaveKeeps(f, script, 1, path, None, Failed);
      if SomeAnswersFrom(script, 1) {
        RestStoresOnce(f, script, 1, path, None, Failed);
      }
      if SomeAnswersFrom(script, 0) && copies > 0 {
        RestLeavesAlone(f, script, 1, path, None, Failed);
      }
      if LastAnswersFrom(script, 0) {
        RestNeverDoubles(f, script, 1, path, None, Failed);
      }
    }
  }

  // ----- what is reported -----

  /** How many copies there are when search n is answered, the searches having begun at i. */
  function CopiesAt(f: Folder, searches: seq<Search>, i: nat, n: nat): nat
    requires i <= n < |searches|
    decreases n - i
  {
    if i == n then f.copies + searches[n].arrivals
    else CopiesAt(f.(copies := f.copies + searches[i].arrivals), searches, i + 1, n)
  }

  /** Search n is answered with a list that has a copy in it. */
  predicate Hits(f: Folder, searches: seq<Search>, i: nat, n: nat)
    requires i <= n < |searches|
  {
    searches[n].reply == Listed && CopiesAt(f, searches, i, n) > 0
  }

  /** From i on, every search before n goes by without a hit or an error. */
  predicate Uneventful(f: Folder, searches: seq<Search>, i: nat, n: nat)
    requires i <= n <= |searches|
  {
    forall m | i <= m < n :: !searches[m].reply.SearchThrew? && !Hits(f, searches, i, m)
  }

  lemma UneventfulStep(f: Folder, searches: seq<Search>, i: nat, n: nat)
    requires i < n <= |searches|
    ensures var g := f.(copies := f.copies + searches[i].arrivals);
            Uneventful(f, searches, i, n) <==>
            && !searches[i].reply.SearchThrew? && !Hits(f, searches, i, i) && Uneventful(g, searches, i + 1, n)
  {
    var g := f.(copies := f.copies + searches[i].arrivals);
    forall m | i + 1 <= m < n ensures Hits(f, searches, i, m) <==> Hits(g, searches, i + 1, m) {
    }
  }

  /** The searches end at n: with a hit, or with this error. */
  predicate EndsSearching(f: Folder, searches: seq<Search>, i: nat, n: nat, seen: Observation)
    requires i <= n < |searches|
  {
    && Uneventful(f, searches, i, n)
    && ((seen == Seen && Hits(f, searches, i, n))
        || (seen.ObserveThrew? && searches[n].reply == SearchThrew(seen.error)))
  }

  lemma EndsLater(f: Folder, searches: seq<Search>, i: nat, n: nat, seen: Observation)
    requires i < n < |searches| && Uneventful(f, searches, i, i + 1)
    requires EndsSearching(f.(copies := f.copies + searches[i].arrivals), searches, i + 1, n, seen)
    ensures EndsSearching(f, searches, i, n, seen)
  {
    UneventfulStep(f, searches, i, n);
  }

  /** The searches end with the first hit, with the first error, or with neither. */
  lemma {:induction false} SearchesEnd(f: Folder, searches: seq<Search>, i: nat)
    requires i <= |searches|
    ensures var seen := SearchFrom(f, searches, i).1;
            if seen == Absent then Uneventful(f, searches, i, |searches|)
            else exists n | i <= n < |searches| :: EndsSearching(f, searches, i, n, seen)
    decreases |searches| - i
  {
    if i < |searches| {
      var g, seen := f.(copies := f.copies + searches[i].arrivals), SearchFrom(f, searches, i).1;
      if searches[i].reply.SearchThrew? || Hits(f, searches, i, i) {
        assert EndsSearching(f, searches, i, i, seen);
      } else {
        SearchesEnd(g, searches, i + 1);
        if seen == Absent {
          UneventfulStep(f, searches, i, |searches|);
        } else {
          var n :| i + 1 <= n < |searches| && EndsSearching(g, searches, i + 1, n, seen);
          EndsLater(f, searches, i, n, seen);
        }
      }
    }
  }

  /** The folder opens read-only and closes without an error. */
  predicate Opens(a: Attempt) {
    a.setup == Ready && a.openThrew.None? && a.readOnly && a.closeThrew.None?
  }

  predicate FindsNothing(f: Folder, a: Attempt) {
    Uneventful(f, a.searches, 0, |a.searches|)
  }

  /** A search is answered with a copy in the list before any search throws. */
  predicate FindsCopy(f: Folder, a: Attempt) {
    exists n | 0 <= n < |a.searches| :: EndsSearching(f, a.searches, 0, n, Seen)
  }

  predicate SearchFails(f: Folder, a: Attempt, e: CopyError) {
    exists n | 0 <= n < |a.searches| :: EndsSearching(f, a.searches, 0, n, ObserveThrew(e))
  }

  /** The attempt comes to nothing with this error: that of setting up, of opening, or of a folder that is not
      read-only; else that of closing; else that of the first search that throws before a copy is seen; else, nothing
      having been seen, that of the append, or the append is refused. */
  predicate FailsWith(f: Folder, a: Attempt, e: CopyError) {
    || a.setup == SetupThrew(e)
    || (a.setup == Ready
        && (|| a.openThrew == Some(e)
            || (a.openThrew.None? && !a.readOnly && e == ReadCheckFailed)
            || (a.openThrew.None? && a.readOnly && a.closeThrew == Some(e))
            || (Opens(a) && SearchFails(f, a, e))
            || (Opens(a) && FindsNothing(f, a)
                && (a.append == Threw(true, e) || a.append == Threw(false, e)
                    || (a.append == NotStored && e == AppendRejected)))))
  }

  ghost predicate Fails(f: Folder, a: Attempt) {
    exists e :: FailsWith(f, a, e)
  }

  lemma OneEnd(f: Folder, a: Attempt)
    ensures !(FindsNothing(f, a) && FindsCopy(f, a))
    ensures forall e | SearchFails(f, a, e) :: !FindsNothing(f, a) && !FindsCopy(f, a)
  {
  }

  /** What one attempt comes to: a copy is seen, or one is appended, or there is no folder for it, or it fails. */
  lemma TryReports(f: Folder, a: Attempt)
    ensures var end := TryOnce(f, a).1;
            && (end == Return(ProviderSaved) <==> Opens(a) && FindsCopy(f, a))
            && (end == Return(ImapAppended) <==> Opens(a) && FindsNothing(f, a) && a.append == Stored)
            && (end == GiveUp <==> a.setup == NoSentFolder)
            && (end.Retry? ==> FailsWith(f, a, end.error))
            && (end.Return? ==> end.status != SaveFailed)
  {
    SearchesEnd(f, a.searches, 0);
    OneEnd(f, a);
  }

  /** The folder after the first k attempts, if none of them ended the saving. */
  function After(f: Folder, script: seq<Attempt>, k: nat): Folder
    requires k <= |script|
  {
    if k == 0 then f else TryOnce(After(f, script, k - 1), script[k - 1]).0
  }

  /** The first k attempts all failed. */
  ghost predicate AllFail(f: Folder, script: seq<Attempt>, k: nat)
    requires k <= |script|
  {
    forall i | 0 <= i < k :: Fails(After(f, script, i), script[i])
  }

  predicate SomeReady(script: seq<Attempt>, k: nat)
    requires k <= |script|
  {
    exists i | 0 <= i < k :: script[i].setup == Ready
  }

  lemma FailingGoesOn(f: Folder, a: Attempt)
    ensures Fails(f, a) <==> TryOnce(f, a).1.Retry?
    ensures TryOnce(f, a).1.Retry? ==> FailsWith(f, a, TryOnce(f, a).1.error)
  {
    TryReports(f, a);
    OneEnd(f, a);
  }

  /** As long as all attempts fail, saving goes on with the next, remembering the folder and the last error. */
  lemma {:induction false} SaveGoesOn(f: Folder, script: seq<Attempt>, k: nat, path: string) returns (e: CopyError)
    requires k <= |script| && AllFail(f, script, k)
    ensures SaveFrom(f, script, 1, path, None, Failed)
         == SaveFrom(After(f, script, k), script, k + 1, path, if SomeReady(script, k) then Some(path) else None, e)
    ensures if k == 0 then e == Failed else FailsWith(After(f, script, k - 1), script[k - 1], e)
  {
    e := Failed;
    if k > 0 {
      var before := SaveGoesOn(f, script, k - 1, path);
      var g := After(f, script, k - 1);
      assert Fails(g, script[k - 1]);
      FailingGoesOn(g, script[k - 1]);
      assert SomeReady(script, k) <==> SomeReady(script, k - 1) || script[k - 1].setup == Ready;
      e := TryOnce(g, script[k - 1]).1.error;
    }
  }

  /** Attempt k, the first k having failed, ends the saving in this way. */
  ghost predicate EndsAt(f: Folder, script: seq<Attempt>, k: nat, path: string, r: CopyResult)
    requires k < |script|
  {
    && AllFail(f, script, k)
    && var g, a := After(f, script, k), script[k];
       || (r == CopyResult(ProviderSaved, Some(path), k + 1, None) && Opens(a) && FindsCopy(g, a))
       || (r == CopyResult(ImapAppended, Some(path), k + 1, None) && Opens(a) && FindsNothing(g, a)
           && a.append == Stored)
       || (r == CopyResult(SaveFailed, None, k + 1, Some(FolderNotFound)) && a.setup == NoSentFolder)
  }

  /** The attempts are used up, all having failed, and the last error is reported. */
  ghost predicate RunsOut(f: Folder, script: seq<Attempt>, path: string, r: CopyResult) {
    && AllFail(f, script, |script|) && r.status == SaveFailed && r.attempts == |script|
    && r.folder == (if SomeReady(script, |script|) then Some(path) else None) && r.error.Some?
    && (if script == [] then r.error == Some(Failed)
        else FailsWith(After(f, script, |script| - 1), script[|script| - 1], r.error.value))
  }

  /** Some attempt is the first that does not fail, unless all fail. */
  lemma {:induction false} FirstEnd(f: Folder, script: seq<Attempt>, n: nat) returns (k: nat)
    requires n <= |script|
    ensures k <= n && AllFail(f, script, k) && (k < n ==> !Fails(After(f, script, k), script[k]))
  {
    if n == 0 {
      k := 0;
    } else {
      k := FirstEnd(f, script, n - 1);
      if k == n - 1 && Fails(After(f, script, k), script[k]) {
        k := n;
      }
    }
  }

  /** What `save` reports says exactly what happened: too large; or seen by the first attempt that did not fail; or
      appended by it; or it found no Sent folder; or all failed. */
  lemma ReportIsExact(copies: nat, script: seq<Attempt>, path: string, size: nat, maxSize: nat)
    ensures var f, r := Folder(copies, 0, false), Saved(copies, script, path, size, maxSize).1;
            if size > maxSize then r == CopyResult(SaveFailed, None, 0, Some(TooLarge))
            else RunsOut(f, script, path, r) || exists k | 0 <= k < |script| :: EndsAt(f, script, k, path, r)
  {
    if size <= maxSize {
      var f, r := Folder(copies, 0, false), Saved(copies, script, path, size, maxSize).1;
      var k := FirstEnd(f, script, |script|);
      var e := SaveGoesOn(f, script, k, path);
      if k < |script| {
        TryReports(After(f, script, k), script[k]);
        FailingGoesOn(After(f, script, k), script[k]);
        assert EndsAt(f, script, k, path, r);
      } else {
        assert RunsOut(f, script, path, r);
      }
    }
  }

  /** And whatever happened that would be reported so, is: for one script no other report fits. */
  lemma ReportIsUnique(copies: nat, script: seq<Attempt>, path: string, size: nat, maxSize: nat, k: nat, r: CopyResult)
    requires size <= maxSize && k < |script| && EndsAt(Folder(copies, 0, false), script, k, path, r)
    ensures r == Saved(copies, script, path, size, maxSize).1
  {
    var f := Folder(copies, 0, false);
    var e := SaveGoesOn(f, script, k, path);
    TryReports(After(f, script, k), script[k]);
  }

  /** In short: saved by the provider is reported for attempt k + 1 exactly if all attempts before it failed and it sees
      a copy in a folder that opens and closes; appended, exactly if it sees none and its append is answered. */
  lemma StatusExactlyWhen(copies: nat, script: seq<Attempt>, path: string, size: nat, maxSize: nat, k: nat)
    requires size <= maxSize && k < |script|
    ensures var f, r := Folder(copies, 0, false), Saved(copies, script, path, size, maxSize).1;
            && (r.status == ProviderSaved && r.attempts == k + 1 <==>
                  AllFail(f, script, k) && Opens(script[k]) && FindsCopy(After(f, script, k), script[k]))
            && (r.status == ImapAppended && r.attempts == k + 1 <==>
                  AllFail(f, script, k) && Opens(script[k]) && FindsNothing(After(f, script, k), script[k])
                  && script[k].append == Stored)
            && (r.error == Some(FolderNotFound) && r.attempts == k + 1 && !AllFail(f, script, k + 1) ==>
                  AllFail(f, script, k) && script[k].setup == NoSentFolder)
  {
    var f, r := Folder(copies, 0, false), Saved(copies, script, path, size, maxSize).1;
    ReportIsExact(copies, script, path, size, maxSize);
    if AllFail(f, script, k) && Opens(script[k]) && FindsCopy(After(f, script, k), script[k]) {
      ReportIsUnique(copies, script, path, size, maxSize, k, CopyResult(ProviderSaved, Some(path), k + 1, None));
    }
    if AllFail(f, script, k) && Opens(script[k]) && FindsNothing(After(f, script, k), script[k])
       && script[k].append == Stored {
      ReportIsUnique(copies, script, path, size, maxSize, k, CopyResult(ImapAppended, Some(path), k + 1, None));
    }
  }

  // ----- exactly when: over which searches get an answer -----

  /** For every attempt, which of its searches are answered. */
  type Pattern = seq<seq<bool>>

  predicate FitsAt(a: Attempt, answered: seq<bool>) {
    |a.searches| == |answered| && forall i | 0 <= i < |answered| :: Answers(a.searches[i]) == answered[i]
  }

  predicate Fits(script: seq<Attempt>, pattern: Pattern) {
    |script| == |pattern| && forall k | 0 <= k < |pattern| :: FitsAt(script[k], pattern[k])
  }

  predicate SomeTrueFrom(pattern: Pattern, k: nat) {
    forall i | k <= i < |pattern| :: true in pattern[i]
  }

  predicate LastTrue(pattern: Pattern) {
    forall i | 0 <= i < |pattern| :: pattern[i] != [] && pattern[i][|pattern[i]| - 1]
  }

  lemma FitsAnswers(script: seq<Attempt>, pattern: Pattern, k: nat)
    requires Fits(script, pattern)
    ensures SomeTrueFrom(pattern, k) ==> SomeAnswersFrom(script, k)
    ensures LastTrue(pattern) && (forall a <- script :: a.between == 0) ==> LastAnswersFrom(script, 0)
  {
    forall i | k <= i < |pattern| && true in pattern[i] ensures SomeAnswers(script[i]) {
      var n :| 0 <= n < |pattern[i]| && pattern[i][n];
      assert FitsAt(script[i], pattern[i]) && Answers(script[i].searches[n]);
    }
    forall i | 0 <= i < |pattern| ensures FitsAt(script[i], pattern[i]) && script[i] in script {
    }
  }

  /** Searches that find what is there where they are answered; `late` copies arrive with the last one. */
  function SearchesOf(answered: seq<bool>, late: nat): seq<Search> {
    seq(|answered|, i requires 0 <= i < |answered| =>
          Search(if i == |answered| - 1 then late else 0, if answered[i] then Listed else Unanswered))
  }

  function Attempting(setup: Setup, answered: seq<bool>, late: nat, append: Append): Attempt {
    Attempt(setup, None, true, SearchesOf(answered, late), None, 0, append)
  }

  /** Only attempt k gets as far as the folder. */
  function OnlyAt(pattern: Pattern, k: nat, late: nat): seq<Attempt> {
    seq(|pattern|, i requires 0 <= i < |pattern| =>
          Attempting(if i == k then Ready else SetupThrew(Failed), pattern[i], late, Stored))
  }

  /** Attempt k - 1 stores its copy and reports an error; attempt k stores another. */
  function StoredTwice(pattern: Pattern, k: nat): seq<Attempt> {
    seq(|pattern|, i requires 0 <= i < |pattern| =>
          if i == k - 1 then Attempting(Ready, pattern[i], 0, Threw(true, Failed))
          else if i == k then Attempting(Ready, pattern[i], 0, Stored)
          else Attempting(SetupThrew(Failed), pattern[i], 0, Stored))
  }

  lemma BuiltFits(pattern: Pattern, k: nat, late: nat)
    ensures Fits(OnlyAt(pattern, k, late), pattern) && Fits(StoredTwice(pattern, k), pattern)
  {
  }

  /** Nothing is found in an empty folder, nor by searches of which none is answered. */
  lemma {:induction false} SearchesFindNothing(f: Folder, answered: seq<bool>, i: nat)
    requires i <= |answered| && (f.copies == 0 || true !in answered)
    ensures SearchFrom(f, SearchesOf(answered, 0), i) == (f, Absent)
    decreases |answered| - i
  {
    if i < |answered| {
      assert answered[i] ==> true in answered;
      SearchesFindNothing(f, answered, i + 1);
    }
  }

  /** Nor is a copy that arrives with a last search that is not answered. */
  lemma {:induction false} LateCopyIsMissed(f: Folder, answered: seq<bool>, i: nat)
    requires i < |answered| && !answered[|answered| - 1] && f.copies == 0
    ensures SearchFrom(f, SearchesOf(answered, 1), i) == (f.(copies := 1), Absent)
    decreases |answered| - i
  {
    if i < |answered| - 1 {
      LateCopyIsMissed(f, answered, i + 1);
    }
  }

  /** Attempts that fail while setting up change nothing. */
  lemma {:induction false} SkipsTo(
    f: Folder, script: seq<Attempt>, k: nat, n: nat, path: string, last: Option<string>, error: CopyError)
    requires 1 <= k <= n <= |script|
    requires forall i | k - 1 <= i < n - 1 :: script[i].setup == SetupThrew(Failed)
    ensures SaveFrom(f, script, k, path, last, error)
         == SaveFrom(f, script, n, path, last, if k == n then error else Failed)
    decreases n - k
  {
    if k < n {
      SkipsTo(f, script, k + 1, n, path, last, Failed);
    }
  }

  lemma OnlyAtStores(pattern: Pattern, k: nat, copies: nat, late: nat, path: string)
    requires k < |pattern|
    requires SearchFrom(Folder(copies, 0, false), SearchesOf(pattern[k], late), 0)
          == (Folder(copies + if late > 0 then 1 else 0, 0, false), Absent)
    ensures Saved(copies, OnlyAt(pattern, k, late), path, 0, 0).0
         == StoreOwn(Folder(copies + if late > 0 then 1 else 0, 0, false))
  {
    var f, script := Folder(copies, 0, false), OnlyAt(pattern, k, late);
    SkipsTo(f, script, 1, k + 1, path, None, Failed);
    assert script[k] == Attempting(Ready, pattern[k], late, Stored);
    assert ObserveExisting(f, script[k]) == SearchFrom(f, SearchesOf(pattern[k], late), 0);
  }

  lemma StoredTwiceStores(pattern: Pattern, k: nat, path: string)
    requires 1 <= k < |pattern| && true !in pattern[k]
    ensures Saved(0, StoredTwice(pattern, k), path, 0, 0)
         == (Folder(2, 2, true), CopyResult(ImapAppended, Some(path), k + 1, None))
  {
    var f0, f1, script := Folder(0, 0, false), Folder(1, 1, false), StoredTwice(pattern, k);
    SkipsTo(f0, script, 1, k, path, None, Failed);
    SearchesFindNothing(f0, pattern[k - 1], 0);
    SearchesFindNothing(f1, pattern[k], 0);
    assert TryOnce(f0, script[k - 1]) == (f1, Retry(Failed));
    assert TryOnce(f1, script[k]) == (Folder(2, 2, true), Return(ImapAppended));
    assert SaveFrom(f0, script, k, path, None, Failed) == SaveFrom(f1, script, k + 1, path, Some(path), Failed);
  }

  /** At most one copy is stored, by every server that answers in this pattern. */
  ghost predicate StoresOnce(pattern: Pattern) {
    forall copies: nat, script: seq<Attempt>, path: string | Fits(script, pattern) ::
      Saved(copies, script, path, 0, 0).0.own <= 1
  }

  ghost predicate LeavesExistingAlone(pattern: Pattern) {
    forall copies: nat, script: seq<Attempt>, path: string | Fits(script, pattern) && copies > 0 ::
      Saved(copies, script, path, 0, 0).0.own == 0
  }

  ghost predicate NeverDoubles(pattern: Pattern) {
    forall copies: nat, script: seq<Attempt>, path: string
      | Fits(script, pattern) && (forall a <- script :: a.between == 0) ::
      !Saved(copies, script, path, 0, 0).0.doubled
  }

  /** At most one copy whatever else happens, if and only if no retry goes without an answered search. The first
      attempt does not matter. */
  lemma StoresOnceExactlyWhen(pattern: Pattern)
    ensures StoresOnce(pattern) <==> SomeTrueFrom(pattern, 1)
  {
    if SomeTrueFrom(pattern, 1) {
      forall copies: nat, script: seq<Attempt>, path: string | Fits(script, pattern)
        ensures Saved(copies, script, path, 0, 0).0.own <= 1
      {
        FitsAnswers(script, pattern, 1);
        SaveIsSafe(copies, script, path, 0, 0);
      }
    } else {
      var k :| 1 <= k < |pattern| && true !in pattern[k];
      BuiltFits(pattern, k, 0);
      StoredTwiceStores(pattern, k, "");
      assert Saved(0, StoredTwice(pattern, k), "", 0, 0).0.own == 2;
    }
  }

  /** An existing copy is left alone whatever else happens, if and only if every attempt has an answered search. */
  lemma LeavesAloneExactlyWhen(pattern: Pattern)
    ensures LeavesExistingAlone(pattern) <==> SomeTrueFrom(pattern, 0)
  {
    if SomeTrueFrom(pattern, 0) {
      forall copies: nat, script: seq<Attempt>, path: string | Fits(script, pattern) && copies > 0
        ensures Saved(copies, script, path, 0, 0).0.own == 0
      {
        FitsAnswers(script, pattern, 0);
        SaveIsSafe(copies, script, path, 0, 0);
      }
    } else {
      var k :| 0 <= k < |pattern| && true !in pattern[k];
      BuiltFits(pattern, k, 0);
      SearchesFindNothing(Folder(1, 0, false), pattern[k], 0);
      OnlyAtStores(pattern, k, 1, 0, "");
      assert Saved(1, OnlyAt(pattern, k, 0), "", 0, 0).0.own == 1;
    }
  }

  /** As long as no other client saves between an attempt's last search and its append, no copy is stored on top of
      another, if and only if every attempt searches and its last search is answered. */
  lemma NeverDoublesExactlyWhen(pattern: Pattern)
    ensures NeverDoubles(pattern) <==> LastTrue(pattern)
  {
    if LastTrue(pattern) {
      forall copies: nat, script: seq<Attempt>, path: string
        | Fits(script, pattern) && (forall a <- script :: a.between == 0)
        ensures !Saved(copies, script, path, 0, 0).0.doubled
      {
        FitsAnswers(script, pattern, 0);
        SaveIsSafe(copies, script, path, 0, 0);
      }
    } else {
      var k :| 0 <= k < |pattern| && !(pattern[k] != [] && pattern[k][|pattern[k]| - 1]);
      var copies, late := if pattern[k] == [] then 1 else 0, if pattern[k] == [] then 0 else 1;
      BuiltFits(pattern, k, late);
      if pattern[k] == [] {
        SearchesFindNothing(Folder(1, 0, false), pattern[k], 0);
      } else {
        LateCopyIsMissed(Folder(0, 0, false), pattern[k], 0);
      }
      OnlyAtStores(pattern, k, copies, late, "");
      assert Saved(copies, OnlyAt(pattern, k, late), "", 0, 0).0.doubled;
    }
  }

  /** The delays after which attempt k searches: the configured ones first, then a single immediate one. */
  predicate Shaped(script: seq<Attempt>, delays: nat) {
    forall k | 0 <= k < |script| ::
      |script[k].searches| == (if k == 0 then delays else 1) && forall s <- script[k].searches :: Answers(s)
  }

  /** With every search answered it is the configured delays that decide: an existing copy is left alone by every
      server behaviour if and only if the first attempt searches at least once. */
  lemma DelayIsExactlyNeeded(delays: nat, copies: nat)
    requires copies > 0
    ensures delays > 0 <==>
            forall script: seq<Attempt>, path: string | Shaped(script, delays) ::
              Saved(copies, script, path, 0, 0).0.own == 0
  {
    if delays > 0 {
      forall script: seq<Attempt>, path: string | Shaped(script, delays)
        ensures Saved(copies, script, path, 0, 0).0.own == 0
      {
        forall k | 0 <= k < |script| ensures SomeAnswers(script[k]) {
          assert script[k].searches[0] in script[k].searches;
        }
        SaveIsSafe(copies, script, path, 0, 0);
      }
    } else {
      var script := OnlyAt([[]], 0, 0);
      assert Shaped(script, 0);
      SearchesFindNothing(Folder(copies, 0, false), [], 0);
      OnlyAtStores([[]], 0, copies, 0, "");
      assert Saved(copies, script, "", 0, 0).0.own == 1;
    }
  }

  /** The smallest instance: one retry whose only search is answered with false, after a stored but failed append. */
  lemma UnansweredSearchDuplicates(path: string)
    ensures var first := Attempt(Ready, None, true, [Search(0, Listed)], None, 0, Threw(true, Failed));
            var second := Attempt(Ready, None, true, [Search(0, Unanswered)], None, 0, Stored);
            SaveCopy(Folder(0, 0, false), [first, second], path, 0, 0)
            == (Folder(2, 2, true), CopyResult(ImapAppended, Some(path), 2, None))
  {
    var first := Attempt(Ready, None, true, [Search(0, Listed)], None, 0, Threw(true, Failed));
    var second := Attempt(Ready, None, true, [Search(0, Unanswered)], None, 0, Stored);
    StoredTwiceStores([[true], [false]], 1, path);
    assert SearchesOf([true], 0) == first.searches && SearchesOf([false], 0) == second.searches;
    assert StoredTwice([[true], [false]], 1) == [first, second];
  }
}
