/** The progressive scan: listing pages walked under a budget, resumed from a
    (queue, group, page) cursor that names its place instead of counting to it. */
module AqlScan {
  import opened Collections
  import opened SortedSet
  import opened Listings

  const SEARCH_BATCH: nat := 1000

  datatype Place = Place(queue: string, group: string, page: int)

  ghost predicate Ordered(sc: Scope) {
    && sc.pageSize == SEARCH_BATCH
    && Sorted(sc.queues) && "" !in sc.queues && forall q <- sc.groups :: Sorted(sc.groups[q])
  }

  // --- what a call still has to examine ---

  predicate SkipsGroup(cur: Option<Place>, q: string, g: string) {
    cur.Some? && q == cur.value.queue && StringBefore(g, cur.value.group)
  }

  /** The first page read in a group. */
  function FirstPage(cur: Option<Place>, q: string, g: string): pos {
    if cur.Some? && q == cur.value.queue && g == cur.value.group && cur.value.page > 0 then cur.value.page else 1
  }

  function GroupPart(sc: Scope, cur: Option<Place>, q: string, g: string): seq<Task> {
    if SkipsGroup(cur, q, g) then [] else Drop(Listed(sc, q, g), Offset(sc, FirstPage(cur, q, g)))
  }

  function GroupsLeft(sc: Scope, cur: Option<Place>, q: string, gs: seq<string>, gi: nat): seq<Task>
    decreases |gs| - gi
  {
    if gi >= |gs| then [] else GroupPart(sc, cur, q, gs[gi]) + GroupsLeft(sc, cur, q, gs, gi + 1)
  }

  predicate SkipsQueue(cur: Option<Place>, q: string) {
    cur.Some? && StringBefore(q, cur.value.queue)
  }

  function QueuePart(sc: Scope, cur: Option<Place>, q: string): seq<Task> {
    if SkipsQueue(cur, q) || GroupsOf(sc, q).None? then [] else GroupsLeft(sc, cur, q, GroupsOf(sc, q).value, 0)
  }

  function QueuesLeft(sc: Scope, cur: Option<Place>, k: nat): seq<Task>
    decreases |sc.queues| - k
  {
    if k >= |sc.queues| then [] else QueuePart(sc, cur, sc.queues[k]) + QueuesLeft(sc, cur, k + 1)
  }

  /** Every task from a cursor to the end of the scope. */
  function Left(sc: Scope, cur: Option<Place>): seq<Task> {
    QueuesLeft(sc, cur, 0)
  }

  // --- a place splits the scope in two ---

  lemma {:induction false} GroupsPast(sc: Scope, cur: Option<Place>, q: string, gs: seq<string>, gi: nat)
    requires forall j :: gi <= j < |gs| ==> !SkipsGroup(cur, q, gs[j]) && FirstPage(cur, q, gs[j]) == 1
    ensures GroupsLeft(sc, cur, q, gs, gi) == GroupsFrom(sc, q, gs, gi)
    decreases |gs| - gi
  {
    if gi < |gs| {
      GroupsPast(sc, cur, q, gs, gi + 1);
      assert Offset(sc, 1) == 0;
    }
  }

  lemma {:induction false} GroupsBefore(sc: Scope, cur: Option<Place>, q: string, gs: seq<string>, gi: nat, to: nat)
    requires gi <= to <= |gs| && forall j :: gi <= j < to ==> SkipsGroup(cur, q, gs[j])
    ensures GroupsLeft(sc, cur, q, gs, gi) == GroupsLeft(sc, cur, q, gs, to)
    decreases if gi <= to then to - gi else 0
  {
    if gi < to {
      GroupsBefore(sc, cur, q, gs, gi + 1, to);
      assert [] + GroupsLeft(sc, cur, q, gs, gi + 1) == GroupsLeft(sc, cur, q, gs, gi + 1);
    }
  }

  lemma {:induction false} QueuesPast(sc: Scope, cur: Option<Place>, k: nat)
    requires forall j :: k <= j < |sc.queues| ==>
               !SkipsQueue(cur, sc.queues[j]) && (cur.Some? ==> sc.queues[j] != cur.value.queue)
    ensures QueuesLeft(sc, cur, k) == QueuesFrom(sc, k)
    decreases |sc.queues| - k
  {
    if k < |sc.queues| {
      QueuesPast(sc, cur, k + 1);
      if GroupsOf(sc, sc.queues[k]).Some? {
        GroupsPast(sc, cur, sc.queues[k], GroupsOf(sc, sc.queues[k]).value, 0);
      }
    }
  }

  lemma {:induction false} QueuesBefore(sc: Scope, cur: Option<Place>, k: nat, to: nat)
    requires k <= to <= |sc.queues| && forall j :: k <= j < to ==> SkipsQueue(cur, sc.queues[j])
    ensures QueuesLeft(sc, cur, k) == QueuesLeft(sc, cur, to)
    decreases if k <= to then to - k else 0
  {
    hide GroupsLeft, GroupsOf, StringBefore;
    if k < to {
      QueuesBefore(sc, cur, k + 1, to);
      assert [] + QueuesLeft(sc, cur, k + 1) == QueuesLeft(sc, cur, k + 1);
    }
  }

  lemma GroupsSorted(sc: Scope, q: string)
    requires Ordered(sc)
    ensures GroupsOf(sc, q).Some? ==> Sorted(GroupsOf(sc, q).value)
  {
  }

  lemma AfterMember(names: seq<string>, i: nat, low: string)
    requires Sorted(names) && i < |names| && !StringBefore(names[i], low)
    ensures forall j :: i < j < |names| ==> !StringBefore(names[j], low) && names[j] != low
  {
    forall j | i < j < |names|
      ensures !StringBefore(names[j], low) && names[j] != low
    {
      StringTotal(names[i], low);
      StringTotal(names[i], names[j]);
      if StringBefore(names[j], low) {
        StringTransitive(names[i], names[j], low);
      }
    }
  }

  /** A cursor naming a page leaves that page, the pages after it, the groups
      after its group, and the queues after its queue. */
  lemma LeftFromPlace(sc: Scope, k: nat, gi: nat, page: pos)
    requires Ordered(sc) && k < |sc.queues| && GroupsOf(sc, sc.queues[k]).Some?
    requires gi < |GroupsOf(sc, sc.queues[k]).value|
    ensures var q, gs := sc.queues[k], GroupsOf(sc, sc.queues[k]).value;
            Left(sc, Some(Place(q, gs[gi], page))) == GroupsRest(sc, q, gs, gi, page) + QueuesFrom(sc, k + 1)
  {
    hide Listed, Drop, Offset, StringBefore, QueuesFrom, GroupsFrom;
    var q, gs := sc.queues[k], GroupsOf(sc, sc.queues[k]).value;
    var cur := Some(Place(q, gs[gi], page));
    StringTotal(q, q);
    StringTotal(gs[gi], gs[gi]);
    GroupsSorted(sc, q);
    QueuesBefore(sc, cur, 0, k);
    AfterMember(sc.queues, k, q);
    QueuesPast(sc, cur, k + 1);
    GroupsBefore(sc, cur, q, gs, 0, gi);
    AfterMember(gs, gi, gs[gi]);
    GroupsPast(sc, cur, q, gs, gi + 1);
  }

  /** Past the first group and queue a call enters, the cursor no longer matters. */
  lemma LeftInside(sc: Scope, cur: Option<Place>, k: nat, gi: nat)
    requires Ordered(sc) && k < |sc.queues| && !SkipsQueue(cur, sc.queues[k])
    requires GroupsOf(sc, sc.queues[k]).Some?
    ensures QueuesLeft(sc, cur, k + 1) == QueuesFrom(sc, k + 1)
    ensures var q, gs := sc.queues[k], GroupsOf(sc, sc.queues[k]).value;
            gi < |gs| && !SkipsGroup(cur, q, gs[gi]) ==>
              GroupsLeft(sc, cur, q, gs, gi) == GroupsRest(sc, q, gs, gi, FirstPage(cur, q, gs[gi]))
              && GroupsLeft(sc, cur, q, gs, gi + 1) == GroupsFrom(sc, q, gs, gi + 1)
  {
    var q, gs := sc.queues[k], GroupsOf(sc, sc.queues[k]).value;
    GroupsSorted(sc, q);
    if cur.Some? {
      AfterMember(sc.queues, k, cur.value.queue);
    }
    QueuesPast(sc, cur, k + 1);
    if gi < |gs| && !SkipsGroup(cur, q, gs[gi]) {
      if cur.Some? && q == cur.value.queue {
        AfterMember(gs, gi, cur.value.group);
      }
      GroupsPast(sc, cur, q, gs, gi + 1);
    }
  }

  // --- one call ---

  /** The sink has let the scan go on at every match but, when it stops it, the last. */
  ghost predicate Accepted(goOn: seq<Ref> -> bool, refs: seq<Ref>, stopped: bool) {
    && (forall j :: 0 < j <= |refs| && (stopped ==> j < |refs|) ==> goOn(refs[..j]))
    && (stopped ==> refs != [] && !goOn(refs))
  }

  /** What a call that nobody stopped has counted and streamed once it has examined `done`. */
  ghost predicate Tallied(sc: Scope, budget: int, goOn: seq<Ref> -> bool, done: seq<Task>, refs: seq<Ref>,
                          scanned: nat) {
    && scanned == |done| && (scanned == 0 || scanned < budget + SEARCH_BATCH)
    && refs == RefsOf(sc, done) && Accepted(goOn, refs, false)
  }

  /** The page before a place: where a call whose cursor is `next` read last. */
  function PageBefore(sc: Scope, next: Place): seq<Task> {
    if next.page < 2 then [] else
      match Page(sc, next.queue, next.group, next.page - 1)
      case None => []
      case Some(batch) => batch
  }

  /** What follows, in its page, the match at which the sink stopped the scan. */
  function Passed(sc: Scope, next: Place, at: nat): seq<Task> {
    Drop(PageBefore(sc, next), at + 1)
  }

  /** The sink stopped the call at match `at` of the page before `next`. The
      whole page is counted as examined, and nothing behind `at` was streamed. */
  ghost predicate Stopped(sc: Scope, budget: int, goOn: seq<Ref> -> bool, next: Place, at: nat, done: seq<Task>,
                          refs: seq<Ref>, scanned: nat) {
    && scanned == |done| && scanned < budget + SEARCH_BATCH
    && var batch := PageBefore(sc, next);
    && at < |batch| <= |done| && batch == done[|done| - |batch|..] && sc.matches(batch[at])
    && refs == RefsOf(sc, done[..|done| - |batch|] + batch[..at + 1]) && Accepted(goOn, refs, true)
  }

  /** The state a call is left in. */
  ghost predicate Ended(sc: Scope, budget: int, goOn: seq<Ref> -> bool, next: Option<Place>, stopped: bool, at: nat,
                        done: seq<Task>, refs: seq<Ref>, scanned: nat) {
    if stopped then next.Some? && Stopped(sc, budget, goOn, next.value, at, done, refs, scanned)
    else Tallied(sc, budget, goOn, done, refs, scanned) && (next.Some? ==> scanned >= budget)
  }

  lemma {:induction false} NoMatchNoRef(sc: Scope, ts: seq<Task>)
    ensures RefsOf(sc, ts) == [] <==> forall t <- ts :: !sc.matches(t)
  {
    if ts != [] {
      var front, t := ts[..|ts| - 1], ts[|ts| - 1];
      NoMatchNoRef(sc, front);
      assert ts == front + [t];
    }
  }

  /** A stopped call passed over exactly the matches behind the one it stopped
      at: it streamed all it examined if and only if there are none. */
  lemma StopLosesRest(sc: Scope, budget: int, goOn: seq<Ref> -> bool, next: Place, at: nat, done: seq<Task>,
                      refs: seq<Ref>, scanned: nat)
    requires Stopped(sc, budget, goOn, next, at, done, refs, scanned)
    ensures RefsOf(sc, done) == refs + RefsOf(sc, Passed(sc, next, at))
    ensures refs == RefsOf(sc, done) <==> forall t <- Passed(sc, next, at) :: !sc.matches(t)
  {
    var batch := PageBefore(sc, next);
    var seen := done[..|done| - |batch|] + batch[..at + 1];
    assert done == seen + Passed(sc, next, at);
    RefsOfConcat(sc, seen, Passed(sc, next, at));
    NoMatchNoRef(sc, Passed(sc, next, at));
  }

  lemma RefsOfNone(sc: Scope)
    ensures RefsOf(sc, []) == []
  {
  }

  lemma RefsOfNext(sc: Scope, ts: seq<Task>, i: nat)
    requires i < |ts|
    ensures RefsOf(sc, ts[..i + 1]) ==
            RefsOf(sc, ts[..i]) + if sc.matches(ts[i]) then [Ref(ts[i].queue, ts[i].id)] else []
  {
    assert ts[..i + 1][..i] == ts[..i];
  }

  lemma Streamed(goOn: seq<Ref> -> bool, refs: seq<Ref>, ref: Ref)
    requires Accepted(goOn, refs, false)
    ensures Accepted(goOn, refs + [ref], !goOn(refs + [ref]))
  {
    forall j | 0 < j <= |refs|
      ensures goOn((refs + [ref])[..j])
    {
      assert (refs + [ref])[..j] == refs[..j];
    }
    assert (refs + [ref])[..|refs| + 1] == refs + [ref];
  }

  /** Stream one page. `at` is where in it the sink stopped. */
  method MatchBatch(sc: Scope, batch: seq<Task>, goOn: seq<Ref> -> bool, refs0: seq<Ref>)
    returns (refs: seq<Ref>, stopped: bool, ghost at: nat)
    requires Accepted(goOn, refs0, false)
    ensures Accepted(goOn, refs, stopped) && (stopped ==> !goOn(refs))
    ensures !stopped ==> refs == refs0 + RefsOf(sc, batch)
    ensures stopped ==>
              && at < |batch| && sc.matches(batch[at]) && refs == refs0 + RefsOf(sc, batch[..at + 1])
              && (refs == refs0 + RefsOf(sc, batch) <==> RefsOf(sc, batch[at + 1..]) == [])
  {
    hide Accepted, RefsOf;
    refs, stopped, at := refs0, false, 0;
    RefsOfNone(sc);
    for i := 0 to |batch|
      invariant refs == refs0 + RefsOf(sc, batch[..i]) && Accepted(goOn, refs, false)
    {
      ghost var before := refs;
      RefsOfNext(sc, batch, i);
      if sc.matches(batch[i]) {
        refs := refs + [Ref(batch[i].queue, batch[i].id)];
        Streamed(goOn, before, Ref(batch[i].queue, batch[i].id));
        if !goOn(refs) {
          assert batch == batch[..i + 1] + batch[i + 1..];
          RefsOfConcat(sc, batch[..i + 1], batch[i + 1..]);
          return refs, true, i;
        }
      }
    }
    assert batch[..|batch|] == batch;
  }

  lemma BatchTallied(sc: Scope, budget: int, goOn: seq<Ref> -> bool, q: string, g: string, page: pos, done: seq<Task>,
                     refs0: seq<Ref>, refs: seq<Ref>, scanned: nat, stopped: bool, at: nat)
    requires Page(sc, q, g, page).Some?
    requires var batch := Page(sc, q, g, page).value;
             && Tallied(sc, budget, goOn, done, refs0, scanned) && scanned < budget && 0 < |batch| <= SEARCH_BATCH
             && Accepted(goOn, refs, stopped)
             && if stopped then at < |batch| && sc.matches(batch[at]) && refs == refs0 + RefsOf(sc, batch[..at + 1])
                else refs == refs0 + RefsOf(sc, batch)
    ensures var batch := Page(sc, q, g, page).value;
            if stopped then Stopped(sc, budget, goOn, Place(q, g, page + 1), at, done + batch, refs, scanned + |batch|)
            else Tallied(sc, budget, goOn, done + batch, refs, scanned + |batch|)
  {
    var batch := Page(sc, q, g, page).value;
    if stopped {
      RefsOfConcat(sc, done, batch[..at + 1]);
      assert (done + batch)[..|done|] == done && (done + batch)[|done|..] == batch;
    } else {
      RefsOfConcat(sc, done, batch);
    }
  }

  lemma ListedPage(sc: Scope, q: string, g: string, page: pos)
    ensures match Page(sc, q, g, page)
            case None => Drop(Listed(sc, q, g), Offset(sc, page)) == []
            case Some(batch) =>
              |batch| <= sc.pageSize
              && Drop(Listed(sc, q, g), Offset(sc, page)) == batch + Drop(Listed(sc, q, g), Offset(sc, page + 1))
              && (|batch| < sc.pageSize ==> Drop(Listed(sc, q, g), Offset(sc, page + 1)) == [])
  {
    assert Offset(sc, page + 1) == Offset(sc, page) + sc.pageSize;
    if (q, g) in sc.lists {
      PageThenRest(sc, q, g, page);
    }
  }

  lemma TalliedAccepted(sc: Scope, budget: int, goOn: seq<Ref> -> bool, done: seq<Task>, refs: seq<Ref>, scanned: nat)
    requires Tallied(sc, budget, goOn, done, refs, scanned)
    ensures Accepted(goOn, refs, false)
  {
  }

  /** Walk one group from `page0`. When the walk halts, `page` is where the
      next call resumes. */
  method ScanGroup(sc: Scope, q: string, g: string, page0: pos, budget: int, goOn: seq<Ref> -> bool,
                   ghost done0: seq<Task>, refs0: seq<Ref>, scanned0: nat)
    returns (refs: seq<Ref>, scanned: nat, page: pos, halted: bool, stopped: bool, ghost at: nat, ghost done: seq<Task>)
    requires sc.pageSize == SEARCH_BATCH && Tallied(sc, budget, goOn, done0, refs0, scanned0)
    ensures Ended(sc, budget, goOn, if halted then Some(Place(q, g, page)) else None, stopped, at, done, refs, scanned)
    ensures if stopped then halted && !goOn(refs) else halted ==> scanned >= budget
    ensures done0 + Drop(Listed(sc, q, g), Offset(sc, page0)) ==
            done + if halted then Drop(Listed(sc, q, g), Offset(sc, page)) else []
  {
    hide RefsOf, Tallied, Stopped, Accepted, Page, Listed, Drop, Offset;
    refs, scanned, page, halted, stopped, at, done := refs0, scanned0, page0, false, false, 0, done0;
    ghost var all := done0 + Drop(Listed(sc, q, g), Offset(sc, page0));
    while true
      invariant !halted && !stopped && Tallied(sc, budget, goOn, done, refs, scanned)
      invariant all == done + Drop(Listed(sc, q, g), Offset(sc, page))
      decreases |Drop(Listed(sc, q, g), Offset(sc, page))|
    {
      if scanned >= budget {
        halted := true;
        return;
      }
      var listed := Page(sc, q, g, page);
      ListedPage(sc, q, g, page);
      if listed.None? {
        return;  // the queue was removed
      }
      var batch := listed.value;
      if batch == [] {
        return;
      }
      ghost var done' := done + batch;
      assert all == done' + Drop(Listed(sc, q, g), Offset(sc, page + 1));
      ghost var before := refs;
      TalliedAccepted(sc, budget, goOn, done, refs, scanned);
      refs, stopped, at := MatchBatch(sc, batch, goOn, refs);
      BatchTallied(sc, budget, goOn, q, g, page, done, before, refs, scanned, stopped, at);
      scanned, done := scanned + |batch|, done';
      if stopped {
        halted, page := true, page + 1;
        return;
      }
      if |batch| < SEARCH_BATCH {
        return;
      }
      page := page + 1;
    }
  }

  lemma SkippedGroup(sc: Scope, cur: Option<Place>, q: string, gs: seq<string>, gi: nat)
    requires gi < |gs| && SkipsGroup(cur, q, gs[gi])
    ensures GroupsLeft(sc, cur, q, gs, gi) == GroupsLeft(sc, cur, q, gs, gi + 1)
  {
    assert [] + GroupsLeft(sc, cur, q, gs, gi + 1) == GroupsLeft(sc, cur, q, gs, gi + 1);
  }

  /** What a group left unread, the groups after it still follow. */
  lemma InGroup(sc: Scope, cur: Option<Place>, q: string, gs: seq<string>, gi: nat, before: seq<Task>, done: seq<Task>,
                page: pos, halted: bool)
    requires gi < |gs| && !SkipsGroup(cur, q, gs[gi])
    requires GroupsLeft(sc, cur, q, gs, gi + 1) == GroupsFrom(sc, q, gs, gi + 1)
    requires before + Drop(Listed(sc, q, gs[gi]), Offset(sc, FirstPage(cur, q, gs[gi]))) ==
             done + if halted then Drop(Listed(sc, q, gs[gi]), Offset(sc, page)) else []
    ensures before + GroupsLeft(sc, cur, q, gs, gi) ==
            done + if halted then GroupsRest(sc, q, gs, gi, page) else GroupsLeft(sc, cur, q, gs, gi + 1)
  {
    hide Drop, Listed, FirstPage, Offset;
    var part, later := GroupPart(sc, cur, q, gs[gi]), GroupsFrom(sc, q, gs, gi + 1);
    ConcatAssoc(before, part, later);
    if halted {
      ConcatAssoc(done, Drop(Listed(sc, q, gs[gi]), Offset(sc, page)), later);
    } else {
      assert done + [] == done;
    }
  }

  /** Walk one queue, group by group. */
  method ScanQueue(sc: Scope, cur: Option<Place>, k: nat, budget: int, goOn: seq<Ref> -> bool,
                   ghost done0: seq<Task>, refs0: seq<Ref>, scanned0: nat)
    returns (refs: seq<Ref>, scanned: nat, next: Option<Place>, stopped: bool, ghost at: nat, ghost done: seq<Task>)
    requires Ordered(sc) && k < |sc.queues| && !SkipsQueue(cur, sc.queues[k])
    requires Tallied(sc, budget, goOn, done0, refs0, scanned0)
    ensures Ended(sc, budget, goOn, next, stopped, at, done, refs, scanned)
    ensures if stopped then next.Some? && !goOn(refs) else next.Some? ==> scanned >= budget
    ensures next.Some? ==>
              done0 + QueuePart(sc, cur, sc.queues[k]) + QueuesLeft(sc, cur, k + 1) == done + Left(sc, next)
    ensures next.None? ==> done == done0 + QueuePart(sc, cur, sc.queues[k])
  {
    hide Tallied, Stopped, Accepted, GroupPart, GroupsOf, Left, Sorted, GroupsRest, QueuesFrom, GroupsFrom, QueuesLeft,
      FirstPage, Listed, Drop, Offset;
    refs, scanned, next, stopped, at, done := refs0, scanned0, None, false, 0, done0;
    var q := sc.queues[k];
    var listed := GroupsOf(sc, q);
    if listed.None? {
      return;  // the queue is gone
    }
    var gs := listed.value;
    ghost var all := done0 + QueuePart(sc, cur, q);
    for gi := 0 to |gs|
      invariant next.None? && !stopped && Tallied(sc, budget, goOn, done, refs, scanned)
      invariant all == done + GroupsLeft(sc, cur, q, gs, gi)
    {
      LeftInside(sc, cur, k, gi);
      if !SkipsGroup(cur, q, gs[gi]) {
        ghost var before := done;
        var page, halted;
        refs, scanned, page, halted, stopped, at, done :=
          ScanGroup(sc, q, gs[gi], FirstPage(cur, q, gs[gi]), budget, goOn, done, refs, scanned);
        InGroup(sc, cur, q, gs, gi, before, done, page, halted);
        if halted {
          LeftFromPlace(sc, k, gi, page);
          next := Some(Place(q, gs[gi], page));
          assert all + QueuesLeft(sc, cur, k + 1) == done + (GroupsRest(sc, q, gs, gi, page) + QueuesFrom(sc, k + 1));
          return;
        }
      } else {
        SkippedGroup(sc, cur, q, gs, gi);
      }
    }
  }

  /** What a call examined is the front of what it was given. */
  lemma Front(sc: Scope, budget: int, goOn: seq<Ref> -> bool, next: Option<Place>, stopped: bool, at: nat,
              done: seq<Task>, refs: seq<Ref>, scanned: nat, left: seq<Task>)
    requires Ended(sc, budget, goOn, next, stopped, at, done, refs, scanned)
    ensures scanned == |done| && (done + left)[..scanned] == done && (done + left)[scanned..] == left
    ensures !stopped ==> refs == RefsOf(sc, done)
  {
  }

  lemma NothingTallied(sc: Scope, budget: int, goOn: seq<Ref> -> bool)
    ensures Tallied(sc, budget, goOn, [], [], 0)
  {
  }

  lemma QueueSkipped(sc: Scope, cur: Option<Place>, k: nat)
    requires k < |sc.queues| && SkipsQueue(cur, sc.queues[k])
    ensures QueuesLeft(sc, cur, k) == QueuesLeft(sc, cur, k + 1)
  {
    assert [] + QueuesLeft(sc, cur, k + 1) == QueuesLeft(sc, cur, k + 1);
  }

  /** One call of the scan. What it examined and what its cursor leaves make up
      exactly what the given cursor left; without a cursor nothing is left. All
      it examined is streamed, unless the sink stopped it: then all but the
      matches behind the one it stopped at, which no later call is given. */
  method ScanCall(sc: Scope, cur: Option<Place>, budget: int, goOn: seq<Ref> -> bool)
    returns (refs: seq<Ref>, scanned: nat, next: Option<Place>, stopped: bool, ghost at: nat, ghost done: seq<Task>)
    requires Ordered(sc)
    ensures Ended(sc, budget, goOn, next, stopped, at, done, refs, scanned)
    ensures Left(sc, cur) == done + if next.Some? then Left(sc, next) else []
    ensures scanned <= |Left(sc, cur)| && Left(sc, cur)[scanned..] == if next.Some? then Left(sc, next) else []
    ensures !stopped ==> refs == RefsOf(sc, Left(sc, cur)[..scanned]) && (next.Some? ==> scanned >= budget)
    ensures stopped ==>
              next.Some? && (refs == RefsOf(sc, done) <==> forall t <- Passed(sc, next.value, at) :: !sc.matches(t))
  {
    hide Tallied, Stopped, Accepted, QueuePart, Passed;
    refs, scanned, next, stopped, at, done := [], 0, None, false, 0, [];
    assert Tallied(sc, budget, goOn, done, refs, scanned) by {
      NothingTallied(sc, budget, goOn);
    }
    for k := 0 to |sc.queues|
      invariant next.None? && !stopped && Tallied(sc, budget, goOn, done, refs, scanned)
      invariant Left(sc, cur) == done + QueuesLeft(sc, cur, k)
    {
      ghost var before := done;
      ConcatAssoc(before, QueuePart(sc, cur, sc.queues[k]), QueuesLeft(sc, cur, k + 1));
      if SkipsQueue(cur, sc.queues[k]) {
        QueueSkipped(sc, cur, k);
      } else {
        refs, scanned, next, stopped, at, done := ScanQueue(sc, cur, k, budget, goOn, done, refs, scanned);
        if next.Some? {
          if stopped {
            StopLosesRest(sc, budget, goOn, next.value, at, done, refs, scanned);
          }
          Front(sc, budget, goOn, next, stopped, at, done, refs, scanned, Left(sc, next));
          return;
        }
      }
    }
    Front(sc, budget, goOn, next, stopped, at, done, refs, scanned, []);
  }

  // --- resumed calls ---

  /** Where a sink stopped a call: the cursor it came back with, and the match. */
  datatype Stop = Stop(next: Place, at: nat)

  /** A stop passed over a match. */
  ghost predicate Loses(sc: Scope, s: Stop) {
    exists t <- Passed(sc, s.next, s.at) :: sc.matches(t)
  }

  /** How many matches the stops passed over. */
  ghost function LostCount(sc: Scope, stops: seq<Stop>): nat {
    if stops == [] then 0 else
      var s := stops[|stops| - 1];
      LostCount(sc, stops[..|stops| - 1]) + |RefsOf(sc, Passed(sc, s.next, s.at))|
  }

  lemma OneLost(sc: Scope, s: Stop)
    ensures RefsOf(sc, Passed(sc, s.next, s.at)) == [] <==> !Loses(sc, s)
  {
    NoMatchNoRef(sc, Passed(sc, s.next, s.at));
  }

  lemma {:induction false} NoneLost(sc: Scope, stops: seq<Stop>)
    ensures LostCount(sc, stops) == 0 <==> forall s <- stops :: !Loses(sc, s)
  {
    hide RefsOf, Passed, Loses;
    if stops != [] {
      var front, s := stops[..|stops| - 1], stops[|stops| - 1];
      NoneLost(sc, front);
      OneLost(sc, s);
      assert stops == front + [s];
    }
  }

  /** The books of a run of calls: every match examined is streamed or lost. */
  ghost predicate Balanced(sc: Scope, all: seq<Task>, refs: seq<Ref>, stops: seq<Stop>) {
    && |RefsOf(sc, all)| == |refs| + LostCount(sc, stops)
    && (LostCount(sc, stops) == 0 ==> refs == RefsOf(sc, all))
  }

  /** A stop is at a match. */
  ghost predicate IsStop(sc: Scope, s: Stop) {
    s.at < |PageBefore(sc, s.next)| && sc.matches(PageBefore(sc, s.next)[s.at])
  }

  /** One more call keeps the books. */
  lemma CallBalances(sc: Scope, budget: int, sink: seq<Ref> -> bool, next: Option<Place>, stopped: bool, at: nat,
                     done: seq<Task>, found: seq<Ref>, count: nat, all: seq<Task>, refs: seq<Ref>, stops: seq<Stop>)
    requires Balanced(sc, all, refs, stops) && Ended(sc, budget, sink, next, stopped, at, done, found, count)
    ensures Balanced(sc, all + done, refs + found, if stopped then stops + [Stop(next.value, at)] else stops)
    ensures count == |done| && (next.Some? && !stopped ==> count >= budget)
    ensures stopped ==> count > 0 && !sink(found) && IsStop(sc, Stop(next.value, at))
  {
    RefsOfConcat(sc, all, done);
    if stopped {
      StopLosesRest(sc, budget, sink, next.value, at, done, found, count);
      assert (stops + [Stop(next.value, at)])[..|stops|] == stops;
    }
  }

  /** So many calls have each examined at least the budget. */
  ghost predicate Paid(calls: int, budget: int, scanned: nat) {
    calls * budget <= scanned
  }

  lemma OnePaid(calls: int, budget: int, scanned: nat, count: nat)
    requires Paid(calls, budget, scanned)
    ensures Paid(calls, budget, scanned + count)
    ensures budget <= count ==> Paid(calls + 1, budget, scanned + count)
  {
  }

  lemma NothingBalanced(sc: Scope, budget: int)
    ensures Balanced(sc, [], [], []) && Paid(0, budget, 0)
  {
  }

  /** Closing the books: nothing is missing if and only if no stop lost a match. */
  lemma Settled(sc: Scope, all: seq<Task>, refs: seq<Ref>, stops: seq<Stop>)
    requires Balanced(sc, all, refs, stops)
    ensures refs == RefsOf(sc, all) <==> forall s <- stops :: !Loses(sc, s)
    ensures |RefsOf(sc, all)| == |refs| + LostCount(sc, stops)
  {
    NoneLost(sc, stops);
  }

  /** Calls resumed from a cursor until none comes back, call i under sinks[i]
      and those after the last of them under a sink that never stops. All
      matches from the cursor on are streamed if and only if no stop passed
      over one; and as many are missing as the stops passed over. */
  method ScanFrom(sc: Scope, start: Option<Place>, budget: int, sinks: seq<seq<Ref> -> bool>)
    returns (refs: seq<Ref>, scanned: nat, calls: nat, ghost stops: seq<Stop>)
    requires Ordered(sc) && budget >= 1
    ensures scanned == |Left(sc, start)|
    ensures |stops| <= |sinks| && Paid(calls - |stops| - 1, budget, scanned)
    ensures forall s <- stops :: IsStop(sc, s)
    ensures refs == RefsOf(sc, Left(sc, start)) <==> forall s <- stops :: !Loses(sc, s)
    ensures |RefsOf(sc, Left(sc, start))| == |refs| + LostCount(sc, stops)
  {
    hide Left, Loses, IsStop, Ended, Ordered, Balanced, RefsOf, LostCount, Paid;
    var cur := start;
    refs, scanned, calls, stops := [], 0, 0, [];
    ghost var all: seq<Task> := [];
    ghost var whole := Left(sc, start);
    NothingBalanced(sc, budget);
    var more := true;
    while more
      invariant whole == all + if more then Left(sc, cur) else []
      invariant scanned == |all| && |stops| <= calls && |stops| <= |sinks|
      invariant Paid(calls - |stops| - if more then 0 else 1, budget, scanned)
      invariant Balanced(sc, all, refs, stops)
      invariant forall s <- stops :: IsStop(sc, s)
      decreases |whole| - scanned, more
    {
      var sink := if calls < |sinks| then sinks[calls] else (_ => true);
      var found, count, next, stopped;
      ghost var at, done;
      found, count, next, stopped, at, done := ScanCall(sc, cur, budget, sink);
      CallBalances(sc, budget, sink, next, stopped, at, done, found, count, all, refs, stops);
      OnePaid(calls - |stops|, budget, scanned, count);
      if stopped {
        stops := stops + [Stop(next.value, at)];
      }
      refs, scanned, all, calls := refs + found, scanned + count, all + done, calls + 1;
      more, cur := next.Some?, next;
    }
    assert all + [] == all;
    Settled(sc, all, refs, stops);
  }

  /** One queue with two tasks, both looked for. */
  function TwoMatches(): Scope {
    var tasks := [Task("q", "a", ""), Task("q", "b", "")];
    Scope(["q"], false, map[], map[("q", "") := tasks], _ => true, SEARCH_BATCH)
  }

  lemma AllMatch(ts: seq<Task>)
    ensures |RefsOf(TwoMatches(), ts)| == |ts|
  {
    if ts != [] {
      AllMatch(ts[..|ts| - 1]);
    }
  }

  lemma TwoRefs()
    ensures AllTasks(TwoMatches()) == [Task("q", "a", ""), Task("q", "b", "")]
    ensures AllRefs(TwoMatches()) == [Ref("q", "a"), Ref("q", "b")]
  {
    var sc, tasks := TwoMatches(), [Task("q", "a", ""), Task("q", "b", "")];
    assert QueuesFrom(sc, 1) == [] && GroupsFrom(sc, "q", [""], 1) == [];
    assert GroupsFrom(sc, "q", [""], 0) == tasks + [];
    assert QueuesFrom(sc, 0) == tasks + [];
    RefsOfNext(sc, tasks, 0);
    RefsOfNext(sc, tasks, 1);
    assert tasks[..0] == [] && tasks[..2] == tasks;
  }

  lemma RefusedAtOnce(sink: seq<Ref> -> bool, refs: seq<Ref>, stopped: bool)
    requires (forall r :: !sink(r)) && Accepted(sink, refs, stopped)
    ensures |refs| == if stopped then 1 else 0
  {
    assert refs != [] ==> !sink(refs[..1]);
  }

  lemma NothingTaken(sink: seq<Ref> -> bool, done: seq<Task>, refs: seq<Ref>, scanned: nat)
    requires (forall r :: !sink(r)) && Tallied(TwoMatches(), 1000, sink, done, refs, scanned)
    ensures scanned == 0 && done == []
  {
    hide TwoMatches, RefsOf, Accepted;
    RefusedAtOnce(sink, refs, false);
    AllMatch(done);
  }

  lemma PageOfTwo(next: Place)
    ensures PageBefore(TwoMatches(), next) == [] || PageBefore(TwoMatches(), next) == [Task("q", "a", ""), Task("q", "b", "")]
  {
  }

  lemma OneTaken(sink: seq<Ref> -> bool, next: Place, at: nat, done: seq<Task>, refs: seq<Ref>, scanned: nat)
    requires (forall r :: !sink(r)) && Stopped(TwoMatches(), 1000, sink, next, at, done, refs, scanned)
    ensures done == [Task("q", "a", ""), Task("q", "b", "")] && refs == [Ref("q", "a")]
  {
    hide RefsOf, Accepted;
    var sc, batch := TwoMatches(), PageBefore(TwoMatches(), next);
    RefusedAtOnce(sink, refs, true);
    AllMatch(done[..|done| - |batch|] + batch[..at + 1]);
    assert at == 0 && done == batch;
    PageOfTwo(next);
    assert done[..|done| - |batch|] + batch[..at + 1] == done[..1];
    RefsOfNone(sc);
    RefsOfNext(sc, done, 0);
  }

  /** A call whose sink takes one match and stops it streams the first match
      and leaves a cursor with nothing behind it. */
  lemma StopAtFirst(sink: seq<Ref> -> bool, next: Option<Place>, stopped: bool, at: nat, done: seq<Task>,
                    refs: seq<Ref>, scanned: nat)
    requires forall r :: !sink(r)
    requires Ended(TwoMatches(), 1000, sink, next, stopped, at, done, refs, scanned)
    requires AllTasks(TwoMatches()) == done + if next.Some? then Left(TwoMatches(), next) else []
    ensures stopped && refs == [Ref("q", "a")] && Left(TwoMatches(), next) == []
  {
    hide RefsOf, AllTasks, Left, TwoMatches, Tallied, Stopped;
    TwoRefs();
    if stopped {
      OneTaken(sink, next.value, at, done, refs, scanned);
    } else {
      NothingTaken(sink, done, refs, scanned);
    }
  }

  lemma TwoOrdered()
    ensures Ordered(TwoMatches())
  {
  }

  lemma WholeScope(sc: Scope)
    ensures Left(sc, None) == AllTasks(sc)
  {
    QueuesPast(sc, None, 0);
  }

  /** That sink, and calls resumed to the end from the cursor it left: the
      second match is never streamed. */
  method OneOfTwo() returns (refs: seq<Ref>)
    ensures refs == [Ref("q", "a")]
    ensures AllRefs(TwoMatches()) == [Ref("q", "a"), Ref("q", "b")]
  {
    hide TwoMatches, Ended, Left, AllTasks, RefsOf, LostCount;
    TwoOrdered();
    TwoRefs();
    WholeScope(TwoMatches());
    var sink: seq<Ref> -> bool := _ => false;
    var scanned, next, stopped, rest, calls;
    ghost var at, done, stops;
    refs, scanned, next, stopped, at, done := ScanCall(TwoMatches(), None, 1000, sink);
    StopAtFirst(sink, next, stopped, at, done, refs, scanned);
    rest, scanned, calls, stops := ScanFrom(TwoMatches(), next, 1000, []);
    RefsOfNone(TwoMatches());
    refs := refs + rest;
  }

  /** Resumed calls until no cursor comes back, with a sink that never stops:
      together they stream exactly the matches of one pass over the scope, and
      for any budget of at least one they are finitely many. */
  method ScanToEnd(sc: Scope, budget: int) returns (refs: seq<Ref>, scanned: nat, calls: nat)
    requires Ordered(sc) && budget >= 1
    ensures refs == AllRefs(sc) && scanned == |AllTasks(sc)|
    ensures (calls - 1) * budget <= |AllTasks(sc)|
  {
    ghost var stops;
    WholeScope(sc);
    refs, scanned, calls, stops := ScanFrom(sc, None, budget, []);
  }
}
