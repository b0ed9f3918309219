/** Paging through a folder by UID while it changes between the calls. */
module Paging {
  import opened Lists
  import opened MailTypes

  type Uid = nat

  /** What one call meets: the UIDs the folder holds, in whatever order, and its UIDVALIDITY; whether the SEARCH was
      answered with a list, and the UIDs the FETCH that follows does not return, expunged in between. */
  datatype Snapshot = Snapshot(uids: seq<Uid>, validity: nat, answered: bool, gone: set<Uid>)

  predicate Ascending(xs: seq<Uid>) {
    forall i, j | 0 <= i < j < |xs| :: xs[i] < xs[j]
  }

  predicate Descending(xs: seq<Uid>) {
    forall i, j | 0 <= i < j < |xs| :: xs[i] > xs[j]
  }

  // ----- the adapter: filter, sort, slice, reverse -----

  predicate Below(u: Uid, before: Option<Uid>) {
    before.None? || u < before.value
  }

  function Eligible(uids: seq<Uid>, before: Option<Uid>): seq<Uid> {
    if uids == [] then []
    else
      var rest := Eligible(uids[..|uids| - 1], before);
      if Below(uids[|uids| - 1], before) then rest + [uids[|uids| - 1]] else rest
  }

  function Number(u: Uid): int {
    u
  }

  /** The `limit` largest eligible UIDs, newest first. */
  function Search(uids: seq<Uid>, before: Option<Uid>, limit: nat): seq<Uid> {
    Reverse(Last(SortBy(Number, Eligible(uids, before)), limit))
  }

  lemma {:induction false} EligibleIsFilter(uids: seq<Uid>, before: Option<Uid>)
    ensures forall u :: u in Eligible(uids, before) <==> u in uids && Below(u, before)
    ensures Distinct(uids) ==> Distinct(Eligible(uids, before))
  {
    if uids != [] {
      var init, last := uids[..|uids| - 1], uids[|uids| - 1];
      EligibleIsFilter(init, before);
      assert uids == init + [last];
      assert Distinct(uids) ==> last !in init && Distinct(init);
    }
  }

  lemma SortKeepsDistinct(xs: seq<Uid>)
    requires Distinct(xs)
    ensures Distinct(SortBy(Number, xs))
  {
    SortSorts(Number, xs);
    DistinctCounts(xs);
    DistinctCounts(SortBy(Number, xs));
  }

  lemma SortedAscends(xs: seq<Uid>)
    requires SortedBy(Number, xs) && Distinct(xs)
    ensures Ascending(xs)
  {
    forall i, j | 0 <= i < j < |xs| ensures xs[i] < xs[j] {
      assert Number(xs[i]) <= Number(xs[j]);
    }
  }

  lemma SortAscends(xs: seq<Uid>)
    requires Distinct(xs)
    ensures Ascending(SortBy(Number, xs)) && forall u :: u in SortBy(Number, xs) <==> u in xs
  {
    SortSorts(Number, xs);
    SortKeepsDistinct(xs);
    SortedAscends(SortBy(Number, xs));
    forall u ensures u in SortBy(Number, xs) <==> u in xs {
      SortKeepsMembers(Number, xs, u);
    }
  }

  /** Descending, eligible, at most `limit`, and nothing eligible above the last one is missing. */
  predicate Top(r: seq<Uid>, uids: seq<Uid>, before: Option<Uid>, limit: nat) {
    && Descending(r) && |r| <= limit
    && (forall u <- r :: u in uids && Below(u, before))
    && (forall u <- uids | Below(u, before) && u !in r :: |r| == limit && forall v <- r :: u < v)
  }

  lemma ReverseDescends(xs: seq<Uid>)
    requires Ascending(xs)
    ensures Descending(Reverse(xs)) && |Reverse(xs)| == |xs| && forall u :: u in Reverse(xs) <==> u in xs
  {
    var r := Reverse(xs);
    ReversePermutes(xs);
    forall i, j | 0 <= i < j < |r| ensures r[i] > r[j] {
      ReverseAt(xs, i);
      ReverseAt(xs, j);
    }
    forall u ensures u in r <==> u in xs {
      assert u in r <==> u in multiset(r);
      assert u in xs <==> u in multiset(xs);
    }
  }

  lemma LastIsTop(sorted: seq<Uid>, limit: nat)
    requires Ascending(sorted)
    ensures var cut := Last(sorted, limit);
            && Ascending(cut) && |cut| <= limit && (forall u <- cut :: u in sorted)
            && (forall u <- sorted | u !in cut :: |cut| == limit && forall v <- cut :: u < v)
  {
    var cut := Last(sorted, limit);
    if |sorted| > limit {
      var k := |sorted| - limit;
      assert sorted == sorted[..k] + cut;
      forall u <- sorted[..k], v <- cut ensures u < v {
        var i :| 0 <= i < k && sorted[i] == u;
        var j :| 0 <= j < |cut| && cut[j] == v;
        assert sorted[k + j] == v;
      }
    }
  }

  lemma SearchIsTop(uids: seq<Uid>, before: Option<Uid>, limit: nat)
    requires Distinct(uids)
    ensures Top(Search(uids, before, limit), uids, before, limit)
  {
    var eligible := Eligible(uids, before);
    EligibleIsFilter(uids, before);
    SortAscends(eligible);
    LastIsTop(SortBy(Number, eligible), limit);
    ReverseDescends(Last(SortBy(Number, eligible), limit));
  }

  // ----- one call -----

  predicate There(s: Snapshot, u: Uid) {
    u in s.uids && u !in s.gone
  }

  /** A search that is not answered with a list counts as one that found nothing. */
  function Listed(s: Snapshot): seq<Uid> {
    if s.answered then s.uids else []
  }

  function Fetched(candidates: seq<Uid>, gone: set<Uid>): seq<Uid> {
    if candidates == [] then []
    else
      var rest, u := Fetched(candidates[..|candidates| - 1], gone), candidates[|candidates| - 1];
      if u in gone then rest else rest + [u]
  }

  function Answer(s: Snapshot, before: Option<Uid>, limit: nat): seq<Uid> {
    Fetched(Search(Listed(s), before, limit), s.gone)
  }

  /** Fetching keeps order, and is short exactly by what is gone. */
  ghost predicate FetchedOk(candidates: seq<Uid>, gone: set<Uid>) {
    var r := Fetched(candidates, gone);
    && Descending(r) && (forall u :: u in r <==> u in candidates && u !in gone)
    && |r| <= |candidates| && (|r| == |candidates| <==> forall u <- candidates :: u !in gone)
  }

  lemma DescendingMore(xs: seq<Uid>, u: Uid)
    ensures Descending(xs + [u]) <==> Descending(xs) && forall x <- xs :: x > u
  {
    var ys := xs + [u];
    assert forall i | 0 <= i < |xs| :: ys[i] == xs[i] && xs[i] in xs;
    assert ys[|xs|] == u;
    if Descending(ys) {
      forall i, j | 0 <= i < j < |xs| ensures xs[i] > xs[j] {
        assert ys[i] > ys[j];
      }
      forall x <- xs ensures x > u {
        var i :| 0 <= i < |xs| && xs[i] == x;
        assert ys[i] > ys[|xs|];
      }
    }
  }

  lemma {:induction false} FetchedIsFilter(candidates: seq<Uid>, gone: set<Uid>)
    requires Descending(candidates)
    ensures FetchedOk(candidates, gone)
  {
    if candidates != [] {
      var init, last := candidates[..|candidates| - 1], candidates[|candidates| - 1];
      assert candidates == init + [last];
      DescendingMore(init, last);
      FetchedIsFilter(init, gone);
      DescendingMore(Fetched(init, gone), last);
      assert forall u :: u in candidates <==> u in init || u == last;
    }
  }

  // ----- one page -----

  datatype PageError = IncompleteCursor | UidValidityChanged

  datatype Page = Page(uids: seq<Uid>, validity: Option<nat>, next: Option<Uid>)

  datatype PageResult = Listing(page: Page) | Refused(error: PageError)

  const PAGE_LIMIT := 100

  /** The page is the first n of at most n + 1 messages; one more means there is a next page. */
  function Turn(ordered: seq<Uid>, n: nat, validity: nat, expected: Option<nat>): Page
    requires n > 0
  {
    var page := First(ordered, n);
    Page(page, if |page| > 0 then Some(validity) else expected, if |ordered| > n then Some(page[n - 1]) else None)
  }

  function ListPage(s: Snapshot, limit: int, before: Option<Uid>, expected: Option<nat>): PageResult {
    if before.None? != expected.None? then Refused(IncompleteCursor)
    else if expected.Some? && s.validity != expected.value then Refused(UidValidityChanged)
    else
      var n := Clamp(limit, PAGE_LIMIT);
      Listing(Turn(Answer(s, before, n + 1), n, s.validity, expected))
  }

  /** What a call leaves behind although it is there: everything if the search is not answered; otherwise what is no
      candidate of the page, if a candidate was lost before it could be fetched. */
  predicate LeftBehind(s: Snapshot, before: Option<Uid>, n: nat, u: Uid) {
    && Below(u, before)
    && (!s.answered
        || (u !in Search(s.uids, before, n + 1) && exists c <- Search(s.uids, before, n + 1) :: c in s.gone))
  }

  /** The page lists messages that are there below the cursor, newest first, and misses exactly those below its own
      continuation cursor and those the call leaves behind. */
  ghost predicate Misses(s: Snapshot, before: Option<Uid>, n: nat, page: seq<Uid>, next: Option<Uid>) {
    && Descending(page) && |page| <= n && (forall u <- page :: There(s, u) && Below(u, before))
    && forall u: Uid | There(s, u) && Below(u, before) ::
         u !in page <==> (next.Some? && u < next.value) || LeftBehind(s, before, n, u)
  }

  /** A continuation cursor is the page's own last UID, is smaller than the cursor the page was asked with, and is given
      only if something is left for it and nothing is left behind. */
  ghost predicate Continues(s: Snapshot, before: Option<Uid>, n: nat, page: seq<Uid>, next: Uid) {
    && next in page && Below(next, before) && (forall u <- page :: next <= u)
    && (exists u: Uid :: There(s, u) && u < next)
    && forall u: Uid | There(s, u) :: !LeftBehind(s, before, n, u)
  }

  lemma PageIsTop(s: Snapshot, limit: int, before: Option<Uid>, expected: Option<nat>)
    requires Distinct(s.uids) && ListPage(s, limit, before, expected).Listing?
    ensures var p, n := ListPage(s, limit, before, expected).page, Clamp(limit, PAGE_LIMIT);
            && Misses(s, before, n, p.uids, p.next)
            && (p.next.Some? ==> Continues(s, before, n, p.uids, p.next.value))
  {
    var n := Clamp(limit, PAGE_LIMIT);
    SearchIsTop(Listed(s), before, n + 1);
    FetchedIsFilter(Search(Listed(s), before, n + 1), s.gone);
    if !s.answered {
      UnansweredPage(s, before, n);
    } else if |Answer(s, before, n + 1)| > n {
      FullPage(s, before, n);
    } else {
      ShortPage(s, before, n);
    }
  }

  lemma UnansweredPage(s: Snapshot, before: Option<Uid>, n: nat)
    requires !s.answered
    ensures Answer(s, before, n + 1) == [] && Misses(s, before, n, [], None)
  {
  }

  lemma ShortPage(s: Snapshot, before: Option<Uid>, n: nat)
    requires s.answered && |Answer(s, before, n + 1)| <= n
    requires Top(Search(s.uids, before, n + 1), s.uids, before, n + 1)
    requires FetchedOk(Search(s.uids, before, n + 1), s.gone)
    ensures Misses(s, before, n, Answer(s, before, n + 1), None)
  {
  }

  lemma LastOfDescending(xs: seq<Uid>)
    requires Descending(xs) && xs != []
    ensures xs[|xs| - 1] in xs && forall u <- xs :: xs[|xs| - 1] <= u
  {
    assert xs == xs[..|xs| - 1] + [xs[|xs| - 1]];
    DescendingMore(xs[..|xs| - 1], xs[|xs| - 1]);
  }

  /** `candidates` are the page and one message more, all of them still there. */
  ghost predicate Splits(candidates: seq<Uid>, gone: set<Uid>, n: nat, page: seq<Uid>, extra: Uid) {
    && (forall u :: u in candidates <==> u in page || u == extra)
    && (forall c <- candidates :: c !in gone)
    && |page| == n && Descending(page) && forall u <- page :: extra < u
  }

  lemma FullAnswer(candidates: seq<Uid>, gone: set<Uid>, n: nat)
    requires |candidates| <= n + 1 && FetchedOk(candidates, gone) && |Fetched(candidates, gone)| > n
    ensures Splits(candidates, gone, n, First(Fetched(candidates, gone), n), Fetched(candidates, gone)[n])
  {
    var ordered := Fetched(candidates, gone);
    assert ordered == ordered[..n] + [ordered[n]];
    DescendingMore(ordered[..n], ordered[n]);
  }

  lemma SplitMisses(s: Snapshot, before: Option<Uid>, n: nat, page: seq<Uid>, extra: Uid)
    requires s.answered && n > 0 && Top(Search(s.uids, before, n + 1), s.uids, before, n + 1)
    requires Splits(Search(s.uids, before, n + 1), s.gone, n, page, extra)
    ensures Misses(s, before, n, page, Some(page[n - 1]))
  {
    LastOfDescending(page);
    var next, candidates := page[n - 1], Search(s.uids, before, n + 1);
    assert next in candidates && extra in candidates;
    forall u: Uid | There(s, u) && Below(u, before) ensures u !in page <==> u < next {
      if u !in page && u != extra {
        assert u !in candidates;
      }
    }
  }

  lemma SplitContinues(s: Snapshot, before: Option<Uid>, n: nat, page: seq<Uid>, extra: Uid)
    requires s.answered && n > 0 && Top(Search(s.uids, before, n + 1), s.uids, before, n + 1)
    requires Splits(Search(s.uids, before, n + 1), s.gone, n, page, extra)
    ensures Continues(s, before, n, page, page[n - 1])
  {
    LastOfDescending(page);
    assert page[n - 1] in Search(s.uids, before, n + 1) && extra in Search(s.uids, before, n + 1);
    assert There(s, extra) && extra < page[n - 1];
  }

  lemma FullPage(s: Snapshot, before: Option<Uid>, n: nat)
    requires s.answered && n > 0 && |Answer(s, before, n + 1)| > n
    requires Top(Search(s.uids, before, n + 1), s.uids, before, n + 1)
    requires FetchedOk(Search(s.uids, before, n + 1), s.gone)
    ensures var page := First(Answer(s, before, n + 1), n);
            Misses(s, before, n, page, Some(page[n - 1])) && Continues(s, before, n, page, page[n - 1])
  {
    var page, extra := First(Answer(s, before, n + 1), n), Answer(s, before, n + 1)[n];
    FullAnswer(Search(s.uids, before, n + 1), s.gone, n);
    SplitMisses(s, before, n, page, extra);
    SplitContinues(s, before, n, page, extra);
  }

  /** The eligible messages of a folder, as a set. */
  function EligibleSet(uids: seq<Uid>, before: Option<Uid>): set<Uid> {
    set u <- uids | before.None? || u < before.value
  }

  function Elements(xs: seq<Uid>): set<Uid> {
    set u <- xs
  }

  lemma {:induction false} DistinctSize(xs: seq<Uid>)
    requires Distinct(xs)
    ensures |Elements(xs)| == |xs|
  {
    if xs != [] {
      var init, last := xs[..|xs| - 1], xs[|xs| - 1];
      DistinctSize(init);
      assert xs == init + [last] && last !in init;
      assert Elements(xs) == Elements(init) + {last};
    }
  }

  lemma SearchSize(uids: seq<Uid>, before: Option<Uid>, limit: nat)
    requires Distinct(uids)
    ensures var count := |EligibleSet(uids, before)|;
            |Search(uids, before, limit)| == if count < limit then count else limit
  {
    var eligible := Eligible(uids, before);
    EligibleIsFilter(uids, before);
    DistinctSize(eligible);
    assert Elements(eligible) == EligibleSet(uids, before);
    SortSorts(Number, eligible);
    assert |multiset(SortBy(Number, eligible))| == |SortBy(Number, eligible)| && |multiset(eligible)| == |eligible|;
    ReversePermutes(Last(SortBy(Number, eligible), limit));
  }

  /** A page of a folder that is answered and loses nothing has as many messages as were asked for, at least 1 and at
      most 100, or all that are below the cursor if those are no more; and it has a continuation exactly if they are. */
  lemma PageIsFull(s: Snapshot, limit: int, before: Option<Uid>, expected: Option<nat>)
    requires s.answered && s.gone == {} && Distinct(s.uids) && ListPage(s, limit, before, expected).Listing?
    ensures var p, count := ListPage(s, limit, before, expected).page, |EligibleSet(s.uids, before)|;
            var asked := if limit < 1 then 1 else if limit > 100 then 100 else limit;
            && |p.uids| == (if count < asked then count else asked)
            && (p.next.Some? <==> count > asked)
            && p.validity == (if count > 0 then Some(s.validity) else expected)
  {
    ClampIsExact(limit, 100);
    var n := Clamp(limit, 100);
    WholeAnswer(s, before, n);
    TurnSize(Answer(s, before, n + 1), n, |EligibleSet(s.uids, before)|, s.validity, expected);
    ListedPage(s, limit, before, expected);
  }

  lemma ListedPage(s: Snapshot, limit: int, before: Option<Uid>, expected: Option<nat>)
    requires ListPage(s, limit, before, expected).Listing?
    ensures ListPage(s, limit, before, expected).page
         == Turn(Answer(s, before, Clamp(limit, 100) + 1), Clamp(limit, 100), s.validity, expected)
  {
  }

  lemma WholeAnswer(s: Snapshot, before: Option<Uid>, n: nat)
    requires s.answered && s.gone == {} && Distinct(s.uids)
    ensures var count := |EligibleSet(s.uids, before)|;
            |Answer(s, before, n + 1)| == if count <= n then count else n + 1
  {
    SearchSize(s.uids, before, n + 1);
    NothingGone(Search(s.uids, before, n + 1));
  }

  lemma TurnSize(ordered: seq<Uid>, n: nat, count: nat, validity: nat, expected: Option<nat>)
    requires n > 0 && |ordered| == if count <= n then count else n + 1
    ensures var p := Turn(ordered, n, validity, expected);
            && |p.uids| == (if count < n then count else n) && (p.next.Some? <==> count > n)
            && p.validity == (if count > 0 then Some(validity) else expected)
  {
  }

  /** Continuing needs both the cursor and the UIDVALIDITY, and is refused exactly if the latter changed. */
  lemma PageIsRefusedExactlyWhen(s: Snapshot, limit: int, before: Option<Uid>, expected: Option<nat>)
    ensures var r := ListPage(s, limit, before, expected);
            && (r == Refused(IncompleteCursor) <==>
                  (before.Some? && expected.None?) || (before.None? && expected.Some?))
            && (r == Refused(UidValidityChanged) <==>
                  before.Some? && expected.Some? && expected != Some(s.validity))
  {
  }

  // ----- the walk -----

  /** Calls 0, 1, ... each see their own snapshot; the walk follows `next` until it is null. */
  datatype WalkResult = Finished(uids: seq<Uid>, calls: nat) | Broken(error: PageError) | Unfinished

  function Walk(snaps: seq<Snapshot>, limits: seq<int>, i: nat, before: Option<Uid>, expected: Option<nat>): WalkResult
    requires |snaps| == |limits| && i <= |snaps|
    decreases |snaps| - i
  {
    if i == |snaps| then Unfinished
    else
      match ListPage(snaps[i], limits[i], before, expected)
      case Refused(e) => Broken(e)
      case Listing(p) =>
        if p.next.None? then Finished(p.uids, i + 1)
        else
          match Walk(snaps, limits, i + 1, p.next, p.validity)
          case Finished(rest, calls) => Finished(p.uids + rest, calls)
          case other => other
  }

  predicate AllDistinct(snaps: seq<Snapshot>) {
    forall k | 0 <= k < |snaps| :: Distinct(snaps[k].uids)
  }

  lemma ConcatDescends(xs: seq<Uid>, ys: seq<Uid>, cursor: Uid)
    requires Descending(xs) && Descending(ys) && (forall u <- xs :: cursor <= u) && forall u <- ys :: u < cursor
    ensures Descending(xs + ys)
  {
    assert forall i | 0 <= i < |xs| :: xs[i] in xs;
    assert forall j | 0 <= j < |ys| :: ys[j] in ys;
  }

  lemma WalkStep(snaps: seq<Snapshot>, limits: seq<int>, i: nat, before: Option<Uid>, expected: Option<nat>)
    requires |snaps| == |limits| && i <= |snaps|
    ensures var w := Walk(snaps, limits, i, before, expected);
            w.Finished? ==>
              && i < |snaps| && ListPage(snaps[i], limits[i], before, expected).Listing?
              && var p := ListPage(snaps[i], limits[i], before, expected).page;
                 if p.next.None? then w.uids == p.uids && w.calls == i + 1
                 else
                   var rest := Walk(snaps, limits, i + 1, p.next, p.validity);
                   rest.Finished? && w.calls == rest.calls && w.uids == p.uids + rest.uids
  {
  }

  predicate SeenThroughout(snaps: seq<Snapshot>, u: Uid, from: nat, to: nat)
    requires to <= |snaps|
  {
    forall k | from <= k < to :: There(snaps[k], u)
  }

  predicate SeenOnce(snaps: seq<Snapshot>, u: Uid, from: nat, to: nat)
    requires to <= |snaps|
  {
    exists k | from <= k < to :: There(snaps[k], u)
  }

  /** The cursor with which the last call of a finished walk was made. */
  function LastCursor(snaps: seq<Snapshot>, limits: seq<int>, i: nat, before: Option<Uid>, expected: Option<nat>)
    : Option<Uid>
    requires |snaps| == |limits| && i <= |snaps|
    decreases |snaps| - i
  {
    if i == |snaps| || ListPage(snaps[i], limits[i], before, expected).Refused? then before
    else
      var p := ListPage(snaps[i], limits[i], before, expected).page;
      if p.next.None? then before else LastCursor(snaps, limits, i + 1, p.next, p.validity)
  }

  /** What the last call of the walk, made with this cursor, leaves behind. */
  predicate Overlooked(snaps: seq<Snapshot>, limits: seq<int>, calls: nat, cursor: Option<Uid>, u: Uid)
    requires |snaps| == |limits| && 0 < calls <= |snaps|
  {
    LeftBehind(snaps[calls - 1], cursor, Clamp(limits[calls - 1], PAGE_LIMIT), u)
  }

  /** Below its first cursor, the list has nothing that was not there when it was listed, and misses of what was there
      at every one of these calls exactly what the last call, made with `cursor`, leaves behind. */
  ghost predicate Covers(
    snaps: seq<Snapshot>, limits: seq<int>, w: WalkResult, cursor: Option<Uid>, i: nat, before: Option<Uid>)
    requires |snaps| == |limits|
  {
    && w.Finished? && i < w.calls <= |snaps| && Descending(w.uids)
    && (forall u <- w.uids :: Below(u, before) && SeenOnce(snaps, u, i, w.calls))
    && (forall u: Uid | Below(u, before) && SeenThroughout(snaps, u, i, w.calls) ::
          u !in w.uids <==> Overlooked(snaps, limits, w.calls, cursor, u))
  }

  lemma LastPageCovers(snaps: seq<Snapshot>, limits: seq<int>, i: nat, before: Option<Uid>, page: seq<Uid>)
    requires |snaps| == |limits| && i < |snaps|
    requires Misses(snaps[i], before, Clamp(limits[i], PAGE_LIMIT), page, None)
    ensures Covers(snaps, limits, Finished(page, i + 1), before, i, before)
  {
  }

  lemma SeenLater(snaps: seq<Snapshot>, u: Uid, i: nat, to: nat)
    requires i < to <= |snaps|
    ensures SeenThroughout(snaps, u, i, to) <==> There(snaps[i], u) && SeenThroughout(snaps, u, i + 1, to)
    ensures SeenOnce(snaps, u, i, to) <==> There(snaps[i], u) || SeenOnce(snaps, u, i + 1, to)
  {
  }

  lemma PageCovers(
    snaps: seq<Snapshot>, limits: seq<int>, i: nat, before: Option<Uid>, page: seq<Uid>, next: Uid, rest: WalkResult,
    cursor: Option<Uid>)
    requires |snaps| == |limits| && i < |snaps|
    requires Misses(snaps[i], before, Clamp(limits[i], PAGE_LIMIT), page, Some(next))
    requires Continues(snaps[i], before, Clamp(limits[i], PAGE_LIMIT), page, next)
    requires Covers(snaps, limits, rest, cursor, i + 1, Some(next)) && cursor.Some? && cursor.value <= next
    ensures Covers(snaps, limits, Finished(page + rest.uids, rest.calls), cursor, i, before)
  {
    ConcatDescends(page, rest.uids, next);
    forall u <- page + rest.uids ensures Below(u, before) && SeenOnce(snaps, u, i, rest.calls) {
      SeenLater(snaps, u, i, rest.calls);
    }
    forall u: Uid | Below(u, before) && SeenThroughout(snaps, u, i, rest.calls)
      ensures u !in page + rest.uids <==> Overlooked(snaps, limits, rest.calls, cursor, u)
    {
      SeenLater(snaps, u, i, rest.calls);
      assert u !in page <==> u < next;
    }
  }

  lemma {:induction false} LastCursorIsBelow(
    snaps: seq<Snapshot>, limits: seq<int>, i: nat, before: Uid, expected: Option<nat>)
    requires |snaps| == |limits| && i <= |snaps| && AllDistinct(snaps)
    ensures var c := LastCursor(snaps, limits, i, Some(before), expected); c.Some? && c.value <= before
    decreases |snaps| - i
  {
    if i < |snaps| && ListPage(snaps[i], limits[i], Some(before), expected).Listing? {
      var p := ListPage(snaps[i], limits[i], Some(before), expected).page;
      PageIsTop(snaps[i], limits[i], Some(before), expected);
      if p.next.Some? {
        LastCursorIsBelow(snaps, limits, i + 1, p.next.value, p.validity);
      }
    }
  }

  lemma CursorStep(snaps: seq<Snapshot>, limits: seq<int>, i: nat, before: Option<Uid>, expected: Option<nat>, p: Page)
    requires |snaps| == |limits| && i < |snaps| && ListPage(snaps[i], limits[i], before, expected) == Listing(p)
    ensures LastCursor(snaps, limits, i, before, expected)
         == if p.next.None? then before else LastCursor(snaps, limits, i + 1, p.next, p.validity)
  {
  }

  /** A finished walk lists strictly descending UIDs, all below its cursor, nothing that was not there at the call that
      listed it, and of the messages that were there throughout all but those its last call leaves behind. */
  lemma {:induction false} WalkMissesExactly(
    snaps: seq<Snapshot>, limits: seq<int>, i: nat, before: Option<Uid>, expected: Option<nat>)
    requires |snaps| == |limits| && i <= |snaps| && AllDistinct(snaps)
    requires Walk(snaps, limits, i, before, expected).Finished?
    ensures Covers(snaps, limits, Walk(snaps, limits, i, before, expected),
                   LastCursor(snaps, limits, i, before, expected), i, before)
    decreases |snaps| - i
  {
    WalkStep(snaps, limits, i, before, expected);
    var p := ListPage(snaps[i], limits[i], before, expected).page;
    PageIsTop(snaps[i], limits[i], before, expected);
    CursorStep(snaps, limits, i, before, expected, p);
    if p.next.None? {
      LastPageCovers(snaps, limits, i, before, p.uids);
    } else {
      WalkMissesExactly(snaps, limits, i + 1, p.next, p.validity);
      LastCursorIsBelow(snaps, limits, i + 1, p.next.value, p.validity);
      PageCovers(snaps, limits, i, before, p.uids, p.next.value, Walk(snaps, limits, i + 1, p.next, p.validity),
                 LastCursor(snaps, limits, i + 1, p.next, p.validity));
    }
  }

  // ----- when a finished walk can be trusted -----

  /** How the server serves one call: whether it answers the search, and fetches everything it listed. */
  datatype Service = Service(answers: bool, fetchesAll: bool)

  predicate ServedAs(snaps: seq<Snapshot>, services: seq<Service>) {
    && |snaps| == |services|
    && forall k | 0 <= k < |snaps| ::
         snaps[k].answered == services[k].answers && (services[k].fetchesAll ==> snaps[k].gone == {})
  }

  /** Nothing that was there throughout is missing. */
  ghost predicate Complete(snaps: seq<Snapshot>, limits: seq<int>)
    requires |snaps| == |limits|
  {
    var w := Walk(snaps, limits, 0, None, None);
    w.Finished? && w.calls <= |snaps| ==> forall u: Uid | SeenThroughout(snaps, u, 0, w.calls) :: u in w.uids
  }

  /** Whatever the folder holds at each call and whatever is lost where something may be lost. */
  ghost predicate AlwaysComplete(services: seq<Service>, limits: seq<int>)
    requires |services| == |limits|
  {
    forall snaps: seq<Snapshot> | ServedAs(snaps, services) && AllDistinct(snaps) :: Complete(snaps, limits)
  }

  predicate ServedWell(services: seq<Service>) {
    forall k | 0 <= k < |services| :: services[k].answers && services[k].fetchesAll
  }

  function UpTo(count: nat): seq<Uid> {
    seq(count, u requires 0 <= u < count => u)
  }

  lemma {:induction false} UpToEligible(count: nat, before: Option<Uid>)
    requires before.Some? ==> before.value <= count
    ensures Eligible(UpTo(count), before) == UpTo(if before.Some? then before.value else count)
  {
    if count > 0 {
      assert UpTo(count)[..count - 1] == UpTo(count - 1);
      if before.Some? && before.value == count {
        UpToEligible(count - 1, None);
        AllEligible(count - 1, before.value);
      } else {
        UpToEligible(count - 1, before);
      }
    }
  }

  lemma {:induction false} AllEligible(count: nat, before: Uid)
    requires count <= before
    ensures Eligible(UpTo(count), Some(before)) == UpTo(count)
  {
    if count > 0 {
      assert UpTo(count)[..count - 1] == UpTo(count - 1);
      AllEligible(count - 1, before);
    }
  }

  /** c - 1, c - 2, ..., n of them. */
  predicate CountsDown(r: seq<Uid>, c: nat, n: nat) {
    |r| == n && forall k | 0 <= k < n :: r[k] == c - 1 - k
  }

  lemma UpToReversed(c: nat, n: nat)
    requires n <= c
    ensures CountsDown(Reverse(Last(UpTo(c), n)), c, n)
  {
    var cut := Last(UpTo(c), n);
    assert |cut| == n && forall k | 0 <= k < n :: cut[k] == c - n + k;
    ReversePermutes(cut);
    forall k | 0 <= k < n ensures Reverse(cut)[k] == c - 1 - k {
      ReverseAt(cut, k);
    }
  }

  /** The n largest of 0, 1, ... below the cursor are the n just below it. */
  lemma UpToSearch(count: nat, before: Option<Uid>, n: nat)
    requires before.Some? ==> before.value <= count
    requires n <= if before.Some? then before.value else count
    ensures CountsDown(Search(UpTo(count), before, n), if before.Some? then before.value else count, n)
  {
    var c := if before.Some? then before.value else count;
    UpToEligible(count, before);
    SortedIsFixed(Number, UpTo(c));
    UpToReversed(c, n);
  }

  lemma {:induction false} NothingGone(candidates: seq<Uid>)
    ensures Fetched(candidates, {}) == candidates
  {
    if candidates != [] {
      NothingGone(candidates[..|candidates| - 1]);
    }
  }

  function AllButOldest(count: nat): set<Uid> {
    set u <- UpTo(count) | u != 0
  }

  /** A folder of `count` messages; the call at j, if its search is answered, fetches only the oldest of them. */
  function Adverse(services: seq<Service>, count: nat, j: nat): seq<Snapshot> {
    seq(|services|, k requires 0 <= k < |services| =>
          Snapshot(UpTo(count), 1, services[k].answers,
                   if k == j && services[k].answers then AllButOldest(count) else {}))
  }

  lemma DownPage(ordered: seq<Uid>, c: nat, n: nat, validity: nat, expected: Option<nat>)
    requires 0 < n && n + 1 < c && CountsDown(ordered, c, n + 1)
    ensures var p := Turn(ordered, n, validity, expected);
            0 !in p.uids && p.validity == Some(validity) && p.next == Some(c - n)
  {
  }

  /** The walk stands at UID c of a folder with `count` messages. */
  predicate StandsAt(before: Option<Uid>, expected: Option<nat>, count: nat, c: nat) {
    c <= count && if before.None? then expected.None? && c == count else before.value == c && expected == Some(1)
  }

  /** A call that is served well turns a full page and goes on. */
  lemma AdversePage(s: Snapshot, count: nat, limit: int, before: Option<Uid>, expected: Option<nat>, c: nat)
    requires s == Snapshot(UpTo(count), 1, true, {})
    requires StandsAt(before, expected, count, c) && c > 101
    ensures var r := ListPage(s, limit, before, expected);
            && r.Listing? && 0 !in r.page.uids && r.page.next.Some? && r.page.next.value >= c - 100
            && StandsAt(r.page.next, r.page.validity, count, r.page.next.value)
  {
    var n := Clamp(limit, PAGE_LIMIT);
    UpToSearch(count, before, n + 1);
    NothingGone(Search(UpTo(count), before, n + 1));
    DownPage(Answer(s, before, n + 1), c, n, 1, expected);
  }

  /** The call at j lists nothing. */
  lemma AdverseEnd(s: Snapshot, count: nat, limit: int, before: Option<Uid>, expected: Option<nat>, c: nat)
    requires s == Snapshot(UpTo(count), 1, false, {}) || s == Snapshot(UpTo(count), 1, true, AllButOldest(count))
    requires StandsAt(before, expected, count, c) && c > 101
    ensures ListPage(s, limit, before, expected) == Listing(Page([], expected, None))
  {
    if s.answered {
      AllLost(count, before, Clamp(limit, PAGE_LIMIT) + 1);
    } else {
      UnansweredPage(s, before, Clamp(limit, PAGE_LIMIT));
    }
  }

  lemma AllLost(count: nat, before: Option<Uid>, n: nat)
    requires before.Some? ==> before.value <= count
    requires n < if before.Some? then before.value else count
    ensures Fetched(Search(UpTo(count), before, n), AllButOldest(count)) == []
  {
    var candidates, c := Search(UpTo(count), before, n), if before.Some? then before.value else count;
    UpToSearch(count, before, n);
    forall u <- candidates ensures u in AllButOldest(count) {
      assert UpTo(count)[u] == u;
    }
    NoneFetched(candidates, AllButOldest(count));
  }

  lemma {:induction false} NoneFetched(candidates: seq<Uid>, gone: set<Uid>)
    requires forall u <- candidates :: u in gone
    ensures Fetched(candidates, gone) == []
  {
    if candidates != [] {
      NoneFetched(candidates[..|candidates| - 1], gone);
    }
  }

  /** The calls before j are served well, the one at j is not. */
  predicate AdverseUpTo(snaps: seq<Snapshot>, count: nat, j: nat) {
    && j < |snaps| && (forall k | 0 <= k < j :: snaps[k] == Snapshot(UpTo(count), 1, true, {}))
    && (snaps[j] == Snapshot(UpTo(count), 1, false, {})
        || snaps[j] == Snapshot(UpTo(count), 1, true, AllButOldest(count)))
  }

  /** The walk ends after j + 1 calls without UID 0. */
  predicate EndsWithoutOldest(w: WalkResult, j: nat) {
    w.Finished? && w.calls == j + 1 && 0 !in w.uids
  }

  lemma AdverseStep(
    snaps: seq<Snapshot>, limits: seq<int>, count: nat, j: nat, i: nat, before: Option<Uid>, expected: Option<nat>,
    c: nat)
    returns (p: Page)
    requires |snaps| == |limits| && i < |snaps| && snaps[i] == Snapshot(UpTo(count), 1, true, {})
    requires StandsAt(before, expected, count, c) && c > 101
    ensures p.next.Some? && p.next.value >= c - 100 && StandsAt(p.next, p.validity, count, p.next.value)
    ensures EndsWithoutOldest(Walk(snaps, limits, i + 1, p.next, p.validity), j) ==>
              EndsWithoutOldest(Walk(snaps, limits, i, before, expected), j)
  {
    AdversePage(snaps[i], count, limits[i], before, expected, c);
    p := ListPage(snaps[i], limits[i], before, expected).page;
    if Walk(snaps, limits, i + 1, p.next, p.validity).Finished? {
      WalkMore(snaps, limits, i, before, expected, p);
    }
  }

  lemma AdverseLast(
    snaps: seq<Snapshot>, limits: seq<int>, count: nat, i: nat, before: Option<Uid>, expected: Option<nat>, c: nat)
    requires |snaps| == |limits| && AdverseUpTo(snaps, count, i) && StandsAt(before, expected, count, c) && c > 101
    ensures EndsWithoutOldest(Walk(snaps, limits, i, before, expected), i)
  {
    AdverseEnd(snaps[i], count, limits[i], before, expected, c);
    WalkEndsHere(snaps, limits, i, before, expected, Page([], expected, None));
  }

  lemma {:induction false} AdverseWalk(
    snaps: seq<Snapshot>, limits: seq<int>, count: nat, j: nat, i: nat, before: Option<Uid>, expected: Option<nat>,
    c: nat)
    requires |snaps| == |limits| && i <= j && AdverseUpTo(snaps, count, j)
    requires StandsAt(before, expected, count, c) && c > 100 * (j - i) + 101
    ensures EndsWithoutOldest(Walk(snaps, limits, i, before, expected), j)
    decreases j - i
  {
    if i == j {
      AdverseLast(snaps, limits, count, i, before, expected, c);
    } else {
      var p := AdverseStep(snaps, limits, count, j, i, before, expected, c);
      assert EndsWithoutOldest(Walk(snaps, limits, i + 1, p.next, p.validity), j) by {
        AdverseWalk(snaps, limits, count, j, i + 1, p.next, p.validity, p.next.value);
      }
    }
  }

  lemma WalkEndsHere(
    snaps: seq<Snapshot>, limits: seq<int>, i: nat, before: Option<Uid>, expected: Option<nat>, p: Page)
    requires |snaps| == |limits| && i < |snaps| && ListPage(snaps[i], limits[i], before, expected) == Listing(p)
    requires p.next.None?
    ensures Walk(snaps, limits, i, before, expected) == Finished(p.uids, i + 1)
  {
  }

  lemma WalkMore(snaps: seq<Snapshot>, limits: seq<int>, i: nat, before: Option<Uid>, expected: Option<nat>, p: Page)
    requires |snaps| == |limits| && i < |snaps| && ListPage(snaps[i], limits[i], before, expected) == Listing(p)
    requires p.next.Some? && Walk(snaps, limits, i + 1, p.next, p.validity).Finished?
    ensures var rest := Walk(snaps, limits, i + 1, p.next, p.validity);
            Walk(snaps, limits, i, before, expected) == Finished(p.uids + rest.uids, rest.calls)
  {
  }

  lemma UpToIsDistinct(count: nat)
    ensures Distinct(UpTo(count))
  {
  }

  /** If some call is not served well, a folder can be too big to be listed and its walk still finish. */
  lemma BadServiceMisses(services: seq<Service>, limits: seq<int>, j: nat)
    requires |services| == |limits| && j < |services| && !(services[j].answers && services[j].fetchesAll)
    requires forall k | 0 <= k < j :: services[k].answers && services[k].fetchesAll
    ensures !AlwaysComplete(services, limits)
  {
    var count := 100 * j + 102;
    var snaps := Adverse(services, count, j);
    assert AdverseUpTo(snaps, count, j);
    AdverseWalk(snaps, limits, count, j, 0, None, None, count);
    UpToIsDistinct(count);
    assert ServedAs(snaps, services) && AllDistinct(snaps);
    forall k | 0 <= k < j + 1 ensures There(snaps[k], 0) {
      assert UpTo(count)[0] == 0;
    }
    assert SeenThroughout(snaps, 0, 0, j + 1);
    assert !Complete(snaps, limits);
  }

  lemma GoodServiceIsComplete(services: seq<Service>, limits: seq<int>, snaps: seq<Snapshot>)
    requires |services| == |limits| && ServedWell(services) && ServedAs(snaps, services) && AllDistinct(snaps)
    ensures Complete(snaps, limits)
  {
    var w := Walk(snaps, limits, 0, None, None);
    if w.Finished? {
      WalkMissesExactly(snaps, limits, 0, None, None);
      var cursor := LastCursor(snaps, limits, 0, None, None);
      assert snaps[w.calls - 1].answered && snaps[w.calls - 1].gone == {};
      forall u: Uid | SeenThroughout(snaps, u, 0, w.calls) ensures u in w.uids {
        assert !Overlooked(snaps, limits, w.calls, cursor, u);
      }
    }
  }

  /** Every finished walk lists all that was there throughout, whatever the folder holds, exactly when the server
      answers every search and fetches all it listed; the walk itself does not tell. */
  lemma WalkIsCompleteExactlyWhen(services: seq<Service>, limits: seq<int>)
    requires |services| == |limits|
    ensures AlwaysComplete(services, limits) <==> ServedWell(services)
  {
    if ServedWell(services) {
      forall snaps: seq<Snapshot> | ServedAs(snaps, services) && AllDistinct(snaps) ensures Complete(snaps, limits) {
        GoodServiceIsComplete(services, limits, snaps);
      }
    } else {
      var j := FirstBad(services);
      BadServiceMisses(services, limits, j);
    }
  }

  lemma {:induction false} FirstBad(services: seq<Service>) returns (j: nat)
    requires !ServedWell(services)
    ensures j < |services| && !(services[j].answers && services[j].fetchesAll)
    ensures forall k | 0 <= k < j :: services[k].answers && services[k].fetchesAll
  {
    var init := services[..|services| - 1];
    if ServedWell(init) {
      assert forall k | 0 <= k < |init| :: init[k] == services[k];
      j := |init|;
    } else {
      j := FirstBad(init);
    }
  }

  /** The smallest instances: an unanswered search ends the walk of any folder with nothing listed, */
  lemma UnansweredSearchEndsWalk(uids: seq<Uid>, validity: nat, limit: int)
    ensures Walk([Snapshot(uids, validity, false, {})], [limit], 0, None, None) == Finished([], 1)
  {
  }

  /** and one message expunged before it is fetched ends the walk with an older one never listed. */
  lemma OneLossEndsWalk(validity: nat, limit: int)
    ensures var n := Clamp(limit, PAGE_LIMIT);
            var s := Snapshot(UpTo(n + 2), validity, true, {n + 1});
            var w := Walk([s], [limit], 0, None, None);
            There(s, 0) && w.Finished? && 0 !in w.uids
  {
    var n := Clamp(limit, PAGE_LIMIT);
    UpToSearch(n + 2, None, n + 1);
    assert UpTo(n + 2)[0] == 0;
    LosesFirst(Search(UpTo(n + 2), None, n + 1), n);
  }

  lemma LosesFirst(candidates: seq<Uid>, n: nat)
    requires CountsDown(candidates, n + 2, n + 1)
    ensures |Fetched(candidates, {n + 1})| <= n && 0 !in Fetched(candidates, {n + 1})
  {
    FetchedIsFilter(candidates, {n + 1});
    assert candidates[0] in candidates;
  }

  predicate Valid(snaps: seq<Snapshot>, validity: nat) {
    forall k | 0 <= k < |snaps| :: snaps[k].validity == validity
  }

  /** The cursor strictly decreases, so a folder whose UIDVALIDITY stays put is walked to its end within as many
      calls as the cursor has UIDs below it, plus one, whatever arrives or disappears meanwhile. */
  lemma {:induction false} WalkEnds(
    snaps: seq<Snapshot>, limits: seq<int>, i: nat, before: Option<Uid>, expected: Option<nat>, validity: nat)
    requires |snaps| == |limits| && i <= |snaps| && AllDistinct(snaps) && Valid(snaps, validity)
    requires before.None? == expected.None? && (expected.Some? ==> expected.value == validity)
    requires before.Some? ==> |snaps| - i > before.value
    requires before.None? ==> i < |snaps| && forall u <- snaps[i].uids :: u + 1 < |snaps| - i
    ensures Walk(snaps, limits, i, before, expected).Finished?
    decreases |snaps| - i
  {
    var r := ListPage(snaps[i], limits[i], before, expected);
    PageIsTop(snaps[i], limits[i], before, expected);
    if r.page.next.Some? {
      assert r.page.next.value in snaps[i].uids;
      WalkEnds(snaps, limits, i + 1, r.page.next, r.page.validity, validity);
    }
  }

  /** UIDs are never reused and new messages only get larger ones (section 2.3.1.1 of RFC 3501). */
  predicate Ages(snaps: seq<Snapshot>) {
    forall k, u | 0 <= k < |snaps| && u in snaps[k].uids :: u in snaps[0].uids || forall v <- snaps[0].uids :: v < u
  }

  /** Then a walk from the start lists only messages of the first snapshot: no arrival slips in. */
  lemma WalkListsOnlyOldMessages(snaps: seq<Snapshot>, limits: seq<int>)
    requires |snaps| == |limits| && AllDistinct(snaps) && Ages(snaps)
    requires Walk(snaps, limits, 0, None, None).Finished?
    ensures forall u <- Walk(snaps, limits, 0, None, None).uids :: u in snaps[0].uids
  {
    WalkMissesExactly(snaps, limits, 0, None, None);
    var w := Walk(snaps, limits, 0, None, None);
    PageIsTop(snaps[0], limits[0], None, None);
    var p := ListPage(snaps[0], limits[0], None, None).page;
    if p.next.Some? {
      WalkMissesExactly(snaps, limits, 1, p.next, p.validity);
      var rest := Walk(snaps, limits, 1, p.next, p.validity);
      forall u <- rest.uids ensures u in snaps[0].uids {
        assert p.next.value in snaps[0].uids;
        assert SeenOnce(snaps, u, 1, rest.calls);
      }
    }
  }

  lemma PageValidity(s: Snapshot, limit: int, before: Option<Uid>, expected: Option<nat>)
    requires ListPage(s, limit, before, expected).Listing?
    ensures expected.Some? ==> s.validity == expected.value
    ensures var p := ListPage(s, limit, before, expected).page; p.next.Some? ==> p.validity == Some(s.validity)
  {
  }

  predicate OneValidity(snaps: seq<Snapshot>, from: nat, to: nat, validity: nat) {
    from <= to <= |snaps| && forall k | from <= k < to :: snaps[k].validity == validity
  }

  /** If the walk from here finishes, this call and all that follow saw one UIDVALIDITY, and the expected one. */
  ghost predicate SeesOneValidity(
    snaps: seq<Snapshot>, limits: seq<int>, i: nat, before: Option<Uid>, expected: Option<nat>)
    requires |snaps| == |limits| && i <= |snaps|
  {
    var w := Walk(snaps, limits, i, before, expected);
    w.Finished? ==>
      && i < |snaps| && OneValidity(snaps, i, w.calls, snaps[i].validity)
      && (expected.Some? ==> snaps[i].validity == expected.value)
  }

  lemma ValidityStep(
    snaps: seq<Snapshot>, limits: seq<int>, i: nat, before: Option<Uid>, expected: Option<nat>, p: Page)
    requires |snaps| == |limits| && i < |snaps| && ListPage(snaps[i], limits[i], before, expected) == Listing(p)
    requires p.next.Some? && SeesOneValidity(snaps, limits, i + 1, p.next, p.validity)
    ensures SeesOneValidity(snaps, limits, i, before, expected)
  {
    PageValidity(snaps[i], limits[i], before, expected);
    WalkStep(snaps, limits, i, before, expected);
  }

  lemma ValidityEnd(
    snaps: seq<Snapshot>, limits: seq<int>, i: nat, before: Option<Uid>, expected: Option<nat>, p: Page)
    requires |snaps| == |limits| && i < |snaps| && ListPage(snaps[i], limits[i], before, expected) == Listing(p)
    requires p.next.None?
    ensures SeesOneValidity(snaps, limits, i, before, expected)
  {
    PageValidity(snaps[i], limits[i], before, expected);
    WalkEndsHere(snaps, limits, i, before, expected, p);
  }

  /** A finished walk never crossed a UIDVALIDITY change. */
  lemma {:induction false} WalkKeepsValidity(
    snaps: seq<Snapshot>, limits: seq<int>, i: nat, before: Option<Uid>, expected: Option<nat>)
    requires |snaps| == |limits| && i <= |snaps|
    ensures SeesOneValidity(snaps, limits, i, before, expected)
    decreases |snaps| - i
  {
    WalkStep(snaps, limits, i, before, expected);
    if i < |snaps| && ListPage(snaps[i], limits[i], before, expected).Listing? {
      var p := ListPage(snaps[i], limits[i], before, expected).page;
      if p.next.None? {
        ValidityEnd(snaps, limits, i, before, expected, p);
      } else {
        WalkKeepsValidity(snaps, limits, i + 1, p.next, p.validity);
        ValidityStep(snaps, limits, i, before, expected, p);
      }
    }
  }
}
