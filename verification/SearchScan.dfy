/** The substring scan under a budget: which tasks it examines, when it reports
    itself truncated, and when that report is wrong. */
module SearchScan {
  import opened Collections
  import opened Listings
  import opened SearchBudget
  import opened SearchPage

  /** The collector has been fed exactly the matches of what was examined. */
  ghost predicate Scanned(sc: Scope, c: PageCollector, done: seq<Task>, scanned: nat)
    reads c
  {
    c.Valid() && c.seen == RefsOf(sc, done) && scanned == |done|
  }

  /** A queue that is gone is gone for all of its groups. */
  ghost predicate WholeQueues(sc: Scope) {
    forall q: string, g: string, h: string :: (q, g) in sc.lists && GroupsOf(sc, q).Some? && h in GroupsOf(sc, q).value ==>
      (q, h) in sc.lists
  }

  lemma {:induction false} NothingListed(sc: Scope, q: string, gs: seq<string>, gi: nat)
    requires gi <= |gs| && forall j :: gi <= j < |gs| ==> (q, gs[j]) !in sc.lists
    ensures GroupsFrom(sc, q, gs, gi) == []
    decreases |gs| - gi
  {
    if gi < |gs| {
      NothingListed(sc, q, gs, gi + 1);
    }
  }

  lemma NothingScanned(sc: Scope, c: PageCollector)
    requires c.Valid() && c.seen == []
    ensures Scanned(sc, c, [], 0)
  {
  }

  lemma ScannedRows(sc: Scope, c: PageCollector, done: seq<Task>, scanned: nat)
    requires Scanned(sc, c, done, scanned)
    ensures scanned == |done| && c.total as int == |RefsOf(sc, done)|
    ensures c.rows == PageOf(RefsOf(sc, done), c.page, c.size)
  {
  }

  lemma ScannedLength(sc: Scope, c: PageCollector, done: seq<Task>, scanned: nat)
    requires Scanned(sc, c, done, scanned)
    ensures scanned == |done|
  {
  }

  lemma WholeList(sc: Scope, q: string, g: string)
    ensures Offset(sc, 1) == 0 && Drop(Listed(sc, q, g), Offset(sc, 1)) == Listed(sc, q, g)
  {
  }

  /** One page of a group, and what it leaves. */
  lemma ListingPage(sc: Scope, q: string, g: string, page: pos)
    requires Offset(sc, page) <= |Listed(sc, q, g)|
    ensures var n, rest := |Listed(sc, q, g)|, Drop(Listed(sc, q, g), Offset(sc, page + 1));
            match Page(sc, q, g, page)
            case None => (q, g) !in sc.lists && n == 0 && n < Offset(sc, page + 1) && Drop(Listed(sc, q, g), Offset(sc, page)) == []
            case Some(batch) =>
              && (q, g) in sc.lists && |batch| <= sc.pageSize
              && Drop(Listed(sc, q, g), Offset(sc, page)) == batch + rest
              && (if |batch| < sc.pageSize then rest == [] && n < Offset(sc, page + 1)
                  else Offset(sc, page) + |batch| == Offset(sc, page + 1) <= n)
  {
    assert Offset(sc, page + 1) == Offset(sc, page) + sc.pageSize;
    if (q, g) in sc.lists {
      PageThenRest(sc, q, g, page);
    }
  }

  /** Above every number of tasks examined when the budget is found spent. */
  function Overshoot(sc: Scope, scanned: nat, maxScan: int): int {
    if scanned >= maxScan then scanned + 1 else maxScan + sc.pageSize
  }

  method StreamBatch(sc: Scope, batch: seq<Task>, c: PageCollector, ghost done: seq<Task>, ghost scanned: nat)
    requires Scanned(sc, c, done, scanned) && |done| + |batch| < MAX_INT
    modifies c
    ensures Scanned(sc, c, done + batch, scanned + |batch|)
  {
    assert done + batch[..0] == done;
    for i := 0 to |batch|
      invariant c.Valid() && c.seen == RefsOf(sc, done + batch[..i])
    {
      assert (done + batch[..i + 1])[..|done| + i] == done + batch[..i];
      if sc.matches(batch[i]) {
        c.Sink(Ref(batch[i].queue, batch[i].id));
      }
    }
    assert batch[..|batch|] == batch;
  }

  /** Stream one group's listing pages into the collector. */
  method ScanGroup(sc: Scope, q: string, g: string, maxScan: int, c: PageCollector, ghost done0: seq<Task>,
                   scanned0: nat)
    returns (scanned: nat, halted: bool, gone: bool, ghost done: seq<Task>, ghost left: seq<Task>)
    requires Scanned(sc, c, done0, scanned0) && |done0| + |Listed(sc, q, g)| < MAX_INT
    modifies c
    ensures Scanned(sc, c, done, scanned) && done0 + Listed(sc, q, g) == done + left
    ensures halted <==> scanned0 + OnFullPages(sc, |Listed(sc, q, g)|) >= maxScan
    ensures scanned0 <= scanned < Overshoot(sc, scanned0, maxScan)
    ensures if halted then maxScan <= scanned else left == []
    ensures left == [] <==> Reaches(|Listed(sc, q, g)|, LastPage(sc, |Listed(sc, q, g)|), scanned0, maxScan)
    ensures gone <==> !halted && (q, g) !in sc.lists
    ensures gone ==> scanned == scanned0 < maxScan
  {
    hide PageOf, Scanned, Offset, Page, Drop, OnFullPages, Listed, LastPage;
    scanned, halted, gone, done, left := scanned0, false, false, done0, Drop(Listed(sc, q, g), Offset(sc, 1));
    ghost var all := done0 + Listed(sc, q, g);
    var pageNum: pos := 1;
    WholeList(sc, q, g);
    ScannedLength(sc, c, done, scanned);
    LastPageFacts(sc, |Listed(sc, q, g)|);
    while true
      invariant Scanned(sc, c, done, scanned) && !halted && !gone
      invariant left == Drop(Listed(sc, q, g), Offset(sc, pageNum)) && all == done + left
      invariant scanned == |done| == scanned0 + Offset(sc, pageNum) && Offset(sc, pageNum) <= |Listed(sc, q, g)|
      invariant scanned < Overshoot(sc, scanned0, maxScan) && (pageNum > 1 ==> scanned - sc.pageSize < maxScan)
      decreases |left|
    {
      FullPages(sc, |Listed(sc, q, g)|, pageNum);
      BeforeLastPage(sc, |Listed(sc, q, g)|, pageNum);
      if scanned >= maxScan {
        halted := true;
        return;
      }
      var listed := Page(sc, q, g, pageNum);
      ListingPage(sc, q, g, pageNum);
      if listed.None? {
        gone := true;
        return;
      }
      var batch := listed.value;
      if batch == [] {
        return;
      }
      left := Drop(Listed(sc, q, g), Offset(sc, pageNum + 1));
      assert all == (done + batch) + left;
      StreamBatch(sc, batch, c, done, scanned);
      scanned, done := scanned + |batch|, done + batch;
      if |batch| < sc.pageSize {
        return;
      }
      pageNum := pageNum + 1;
    }
  }

  lemma QueueHere(sc: Scope, q: string, scanned: nat, maxScan: int)
    ensures QueueTasks(sc, q) == if GroupsOf(sc, q).None? then [] else GroupsFrom(sc, q, GroupsOf(sc, q).value, 0)
    ensures Reaches(|QueueTasks(sc, q)|, QueueLast(sc, q), scanned, maxScan) <==>
              (GroupsOf(sc, q).Some? ==> GroupsReach(sc, q, GroupsOf(sc, q).value, 0, scanned, maxScan))
  {
  }

  lemma GroupHere(sc: Scope, qi: nat, gs: seq<string>, gi: nat, scanned: nat, maxScan: int)
    requires qi < |sc.queues| && gi <= |gs|
    ensures if gi == |gs| then GroupsFrom(sc, sc.queues[qi], gs, gi) == [] && !GroupsStop(sc, qi, gs, gi, scanned, maxScan)
            else var here := Listed(sc, sc.queues[qi], gs[gi]);
                 && GroupsFrom(sc, sc.queues[qi], gs, gi) == here + GroupsFrom(sc, sc.queues[qi], gs, gi + 1)
                 && (GroupsStop(sc, qi, gs, gi, scanned, maxScan) <==>
                       || scanned + OnFullPages(sc, |here|) >= maxScan
                       || (scanned + |here| >= maxScan && (gi + 1 < |gs| || qi + 1 < |sc.queues|))
                       || GroupsStop(sc, qi, gs, gi + 1, scanned + |here|, maxScan))
  {
  }

  /** A queue that is gone holds nothing more, and cannot spend the budget. */
  lemma GoneQueue(sc: Scope, qi: nat, gs: seq<string>, gi: nat, scanned: nat, maxScan: int)
    requires WholeQueues(sc) && qi < |sc.queues| && GroupsOf(sc, sc.queues[qi]) == Some(gs)
    requires gi < |gs| && (sc.queues[qi], gs[gi]) !in sc.lists && scanned < maxScan
    ensures GroupsFrom(sc, sc.queues[qi], gs, gi + 1) == [] && !GroupsStop(sc, qi, gs, gi, scanned, maxScan)
  {
    var q := sc.queues[qi];
    assert gs[gi] in gs;
    forall j | gi < j < |gs|
      ensures (q, gs[j]) !in sc.lists
    {
    }
    NothingListed(sc, q, gs, gi + 1);
    GroupsWithin(sc, qi, gs, gi, scanned, maxScan);
  }

  method ScanQueue(sc: Scope, qi: nat, maxScan: int, c: PageCollector, ghost done0: seq<Task>, scanned0: nat)
    returns (scanned: nat, truncated: bool, ghost done: seq<Task>, ghost left: seq<Task>)
    requires WholeQueues(sc) && qi < |sc.queues| && Scanned(sc, c, done0, scanned0)
    requires |done0| + |QueueTasks(sc, sc.queues[qi])| < MAX_INT
    modifies c
    ensures Scanned(sc, c, done, scanned) && done0 + QueueTasks(sc, sc.queues[qi]) == done + left
    ensures truncated <==>
              GroupsOf(sc, sc.queues[qi]).Some? && GroupsStop(sc, qi, GroupsOf(sc, sc.queues[qi]).value, 0, scanned0, maxScan)
    ensures if truncated then maxScan <= scanned < Overshoot(sc, scanned0, maxScan) else left == []
    ensures left == [] <==>
              Reaches(|QueueTasks(sc, sc.queues[qi])|, QueueLast(sc, sc.queues[qi]), scanned0, maxScan)
    ensures !truncated && qi + 1 < |sc.queues| ==> scanned == scanned0 || scanned < maxScan
  {
    hide Scanned, Listed, OnFullPages, LastPage, GroupsReach, Reaches, GroupsLast, QueueLast, GroupsFrom, GroupsStop, GroupsOf, QueueTasks, WholeQueues;
    scanned, truncated, done, left := scanned0, false, done0, [];
    QueueHere(sc, sc.queues[qi], scanned0, maxScan);
    var q := sc.queues[qi];
    var listed := GroupsOf(sc, q);
    ScannedRows(sc, c, done, scanned);
    if listed.None? {
      assert done + [] == done;
      return;
    }
    var gs := listed.value;
    ghost var all := done0 + GroupsFrom(sc, q, gs, 0);
    for gi := 0 to |gs|
      invariant Scanned(sc, c, done, scanned) && !truncated && all == done + GroupsFrom(sc, q, gs, gi) && scanned == |done|
      invariant GroupsStop(sc, qi, gs, 0, scanned0, maxScan) <==> GroupsStop(sc, qi, gs, gi, scanned, maxScan)
      invariant GroupsReach(sc, q, gs, 0, scanned0, maxScan) <==> GroupsReach(sc, q, gs, gi, scanned, maxScan)
      invariant scanned0 <= scanned && (gi < |gs| || qi + 1 < |sc.queues| ==> scanned == scanned0 || scanned < maxScan)
    {
      ghost var before := done;
      var gone;
      ghost var later := GroupsFrom(sc, q, gs, gi + 1);
      GroupHere(sc, qi, gs, gi, scanned, maxScan);
      ReachPastGroup(sc, q, gs, gi, scanned, maxScan);
      ConcatAssoc(before, Listed(sc, q, gs[gi]), later);
      scanned, truncated, gone, done, left := ScanGroup(sc, q, gs[gi], maxScan, c, done, scanned);
      ScannedRows(sc, c, done, scanned);
      ConcatAssoc(done, left, later);
      left := left + later;
      if truncated {
        return;
      }
      assert done + [] == done;
      if gone {
        GoneQueue(sc, qi, gs, gi, scanned, maxScan);
        NothingToReach(sc, q, gs, gi + 1, scanned, maxScan);
        return;
      }
      if scanned >= maxScan && (gi + 1 < |gs| || qi + 1 < |sc.queues|) {
        truncated := true;
        assert left == later;
        return;
      }
    }
    GroupHere(sc, qi, gs, |gs|, scanned, maxScan);
    NothingToReach(sc, q, gs, |gs|, scanned, maxScan);
    left := [];
    assert done + [] == done;
  }

  lemma StopsHere(sc: Scope, qi: nat, scanned: nat, maxScan: int)
    ensures QueuesStop(sc, qi, scanned, maxScan) <==>
              && qi < |sc.queues|
              && ((GroupsOf(sc, sc.queues[qi]).Some? && GroupsStop(sc, qi, GroupsOf(sc, sc.queues[qi]).value, 0, scanned, maxScan))
                  || QueuesStop(sc, qi + 1, scanned + |QueueTasks(sc, sc.queues[qi])|, maxScan))
  {
  }

  lemma ReachFromStart(sc: Scope, maxScan: int)
    ensures QueuesReach(sc, 0, 0, maxScan) <==> AllTasks(sc) == [] || maxScan > |AllTasks(sc)| - QueuesLast(sc, 0)
    ensures forall scanned: nat :: QueuesReach(sc, |sc.queues|, scanned, maxScan)
  {
  }

  /** Stream the whole scope, or stop when the budget is spent. The rows are
      the page of the matches in what was examined, a front of the scope: all of
      it if and only if the budget is not spent in front of the last page that
      holds anything. An untruncated scan has examined all of it. */
  method ScanMatching(sc: Scope, maxScan: int, page: int64, size: int64)
    returns (rows: seq<Ref>, matched: int64, scanned: nat, truncated: bool, ghost done: seq<Task>)
    requires WholeQueues(sc) && |AllTasks(sc)| < MAX_INT
    ensures done <= AllTasks(sc) && scanned == |done|
    ensures matched as int == |RefsOf(sc, done)| && rows == PageOf(RefsOf(sc, done), page, size)
    ensures truncated <==> QueuesStop(sc, 0, 0, maxScan)
    ensures done == AllTasks(sc) <==> AllTasks(sc) == [] || maxScan > |AllTasks(sc)| - QueuesLast(sc, 0)
    ensures truncated && done == AllTasks(sc) <==> CutShortForNothing(sc, maxScan)
    ensures if truncated then maxScan <= scanned < Overshoot(sc, 0, maxScan) else done == AllTasks(sc)
  {
    hide PageOf, QueuesStop, GroupsStop, Scanned, QueueTasks, WholeQueues, QueuesReach, QueueLast, QueuesLast, CutShortForNothing;
    var c := new PageCollector(page, size);
    scanned, truncated, done := 0, false, [];
    NothingScanned(sc, c);
    CutShortIff(sc, maxScan);
    ReachFromStart(sc, maxScan);
    for qi := 0 to |sc.queues|
      invariant Scanned(sc, c, done, scanned) && !truncated && scanned == |done|
      invariant AllTasks(sc) == done + QueuesFrom(sc, qi)
      invariant QueuesStop(sc, 0, 0, maxScan) <==> QueuesStop(sc, qi, scanned, maxScan)
      invariant QueuesReach(sc, 0, 0, maxScan) <==> QueuesReach(sc, qi, scanned, maxScan)
      invariant qi < |sc.queues| ==> scanned == 0 || scanned < maxScan
    {
      ghost var before, left := done, [];
      StopsHere(sc, qi, scanned, maxScan);
      ReachPastQueue(sc, qi, scanned, maxScan);
      ConcatAssoc(before, QueueTasks(sc, sc.queues[qi]), QueuesFrom(sc, qi + 1));
      scanned, truncated, done, left := ScanQueue(sc, qi, maxScan, c, done, scanned);
      ScannedRows(sc, c, done, scanned);
      ConcatAssoc(done, left, QueuesFrom(sc, qi + 1));
      if truncated {
        rows, matched := c.rows, c.total;
        return;
      }
      assert done + [] == done;
    }
    StopsHere(sc, |sc.queues|, scanned, maxScan);
    assert done + [] == done;
    ScannedRows(sc, c, done, scanned);
    rows, matched := c.rows, c.total;
  }

  // --- truncated with nothing left ---

  /** One queue whose tasks fill its listing pages exactly, and a budget of as
      many: the scan is reported truncated though it examined every task. */
  method LastPageFull(sc: Scope, q: string, page: int64, size: int64) returns (truncated: bool, ghost done: seq<Task>)
    requires sc.queues == [q] && !sc.aggregating && sc.lists.Keys == {(q, "")}
    requires |sc.lists[(q, "")]| < MAX_INT && |sc.lists[(q, "")]| % sc.pageSize == 0
    ensures truncated && done == AllTasks(sc)
  {
    var n := |sc.lists[(q, "")]|;
    assert QueueTasks(sc, q) == GroupsFrom(sc, q, [""], 0) == sc.lists[(q, "")] + GroupsFrom(sc, q, [""], 1);
    assert AllTasks(sc) == QueueTasks(sc, q) + QueuesFrom(sc, 1);
    assert GroupsStop(sc, 0, [""], 0, 0, n);
    var rows, matched, scanned;
    rows, matched, scanned, truncated, done := ScanMatching(sc, n, page, size);
  }

  /** Two queues, three tasks in the first and none in the second. */
  function EmptyQueueLast(): Scope {
    var three := [Task("a", "1", ""), Task("a", "2", ""), Task("a", "3", "")];
    Scope(["a", "b"], false, map[], map[("a", "") := three, ("b", "") := []], _ => true, 10)
  }

  /** With a budget of three the scan is reported truncated after the first
      queue, though only the empty one follows. */
  method EmptyQueueFollows(page: int64, size: int64) returns (scanned: nat, truncated: bool, ghost done: seq<Task>)
    ensures truncated && scanned == 3 && done == AllTasks(EmptyQueueLast())
  {
    var sc := EmptyQueueLast();
    assert QueueTasks(sc, "b") == Listed(sc, "b", "") + GroupsFrom(sc, "b", [""], 1);
    assert QueueTasks(sc, "a") == Listed(sc, "a", "") + GroupsFrom(sc, "a", [""], 1);
    assert AllTasks(sc) == QueueTasks(sc, "a") + (QueueTasks(sc, "b") + QueuesFrom(sc, 2));
    assert QueuesLast(sc, 1) == QueuesLast(sc, 2) == 0;
    assert QueuesLast(sc, 0) == QueueLast(sc, "a") == LastPage(sc, 3);
    var rows, matched;
    rows, matched, scanned, truncated, done := ScanMatching(sc, 3, page, size);
  }
}
