/** The order in which a budgeted scan checks its budget: when it stops, how far
    it gets, and when it stops with nothing left. */
module SearchBudget {
  import opened Listings
  import opened SearchPage

  // --- when the budget stops a scan ---

  /** How many of `n` tasks are on full listing pages. */
  function OnFullPages(sc: Scope, n: nat): nat {
    n - n % sc.pageSize
  }

  lemma TimesMonotone(a: int, b: int, p: nat)
    requires a <= b
    ensures a * p <= b * p
  {
  }

  lemma FullPages(sc: Scope, n: nat, page: pos)
    requires Offset(sc, page) <= n
    ensures Offset(sc, page) <= OnFullPages(sc, n)
    ensures n < Offset(sc, page + 1) ==> OnFullPages(sc, n) == Offset(sc, page)
  {
    var k, p := page - 1, sc.pageSize;
    assert Offset(sc, page + 1) == k * p + p;
    QuotientBound(k, p, n);
    assert n == (n / p) * p + n % p;
    assert k * p <= (n / p) * p by {
      TimesMonotone(k, n / p, p);
    }
    if n < k * p + p {
      QuotientBound(k + 1, p, n);
    }
  }

  /** The budget is checked before each page, so in front of a page after the
      last full one too; and after a group, when any group or queue is left. */
  predicate GroupsStop(sc: Scope, qi: nat, gs: seq<string>, gi: nat, scanned: nat, maxScan: int)
    decreases |gs| - gi
  {
    gi < |gs| && qi < |sc.queues| &&
    var n := |Listed(sc, sc.queues[qi], gs[gi])|;
    || scanned + OnFullPages(sc, n) >= maxScan
    || (scanned + n >= maxScan && (gi + 1 < |gs| || qi + 1 < |sc.queues|))
    || GroupsStop(sc, qi, gs, gi + 1, scanned + n, maxScan)
  }

  predicate QueuesStop(sc: Scope, qi: nat, scanned: nat, maxScan: int)
    decreases |sc.queues| - qi
  {
    qi < |sc.queues| &&
    (|| (GroupsOf(sc, sc.queues[qi]).Some? && GroupsStop(sc, qi, GroupsOf(sc, sc.queues[qi]).value, 0, scanned, maxScan))
     || QueuesStop(sc, qi + 1, scanned + |QueueTasks(sc, sc.queues[qi])|, maxScan))
  }

  lemma {:induction false} GroupsWithin(sc: Scope, qi: nat, gs: seq<string>, gi: nat, scanned: nat, maxScan: int)
    requires qi < |sc.queues| && scanned + |GroupsFrom(sc, sc.queues[qi], gs, gi)| < maxScan
    ensures !GroupsStop(sc, qi, gs, gi, scanned, maxScan)
    decreases |gs| - gi
  {
    if gi < |gs| {
      var n := |Listed(sc, sc.queues[qi], gs[gi])|;
      assert OnFullPages(sc, n) <= n;
      GroupsWithin(sc, qi, gs, gi + 1, scanned + n, maxScan);
    }
  }

  /** A budget above the number of tasks in scope never stops the scan. */
  lemma {:induction false} WithinBudget(sc: Scope, qi: nat, scanned: nat, maxScan: int)
    requires scanned + |QueuesFrom(sc, qi)| < maxScan
    ensures !QueuesStop(sc, qi, scanned, maxScan)
    decreases |sc.queues| - qi
  {
    if qi < |sc.queues| {
      var q := sc.queues[qi];
      if GroupsOf(sc, q).Some? {
        GroupsWithin(sc, qi, GroupsOf(sc, q).value, 0, scanned, maxScan);
      }
      WithinBudget(sc, qi + 1, scanned + |QueueTasks(sc, q)|, maxScan);
    }
  }

  // --- how far a budget reaches ---

  /** The size of the last page of a listing of `n` tasks. */
  function LastPage(sc: Scope, n: nat): nat {
    if n == 0 then 0 else if n % sc.pageSize == 0 then sc.pageSize else n % sc.pageSize
  }

  lemma LastPageFacts(sc: Scope, n: nat)
    ensures LastPage(sc, n) <= n && (LastPage(sc, n) == 0 <==> n == 0)
    ensures OnFullPages(sc, n) == if LastPage(sc, n) == sc.pageSize then n else n - LastPage(sc, n)
  {
    assert n == (n / sc.pageSize) * sc.pageSize + n % sc.pageSize;
    if n > 0 && n % sc.pageSize == 0 {
      QuotientBound(1, sc.pageSize, n);
    }
  }

  lemma OneMorePage(sc: Scope, n: nat, page: pos)
    requires n % sc.pageSize == 0 && Offset(sc, page) < n
    ensures Offset(sc, page + 1) == Offset(sc, page) + sc.pageSize <= n
  {
    var k, p := page - 1, sc.pageSize;
    assert n == (n / p) * p;
    if n / p <= k {
      TimesMonotone(n / p, k, p);
    } else {
      TimesMonotone(k + 1, n / p, p);
    }
  }

  /** A page boundary short of the end is not past the start of the last page. */
  lemma BeforeLastPage(sc: Scope, n: nat, page: pos)
    requires Offset(sc, page) <= n
    ensures Offset(sc, page) < n ==> Offset(sc, page) <= n - LastPage(sc, n)
    ensures Offset(sc, page) == n && page > 1 ==> LastPage(sc, n) == sc.pageSize
  {
    FullPages(sc, n, page);
    LastPageFacts(sc, n);
    if Offset(sc, page) < n {
      if LastPage(sc, n) == sc.pageSize {
        OneMorePage(sc, n, page);
      }
    } else if page > 1 {
      assert Offset(sc, page) >= sc.pageSize by {
        TimesMonotone(1, page - 1, sc.pageSize);
      }
    }
  }

  /** The size of the last page that holds anything, from a group on. */
  function GroupsLast(sc: Scope, q: string, gs: seq<string>, gi: nat): (n: nat)
    ensures n <= |GroupsFrom(sc, q, gs, gi)| && (n == 0 <==> GroupsFrom(sc, q, gs, gi) == [])
    decreases |gs| - gi
  {
    if gi >= |gs| then 0 else
      LastPageFacts(sc, |Listed(sc, q, gs[gi])|);
      var later := GroupsLast(sc, q, gs, gi + 1);
      if later > 0 then later else LastPage(sc, |Listed(sc, q, gs[gi])|)
  }

  function QueueLast(sc: Scope, q: string): (n: nat)
    ensures n <= |QueueTasks(sc, q)| && (n == 0 <==> QueueTasks(sc, q) == [])
  {
    match GroupsOf(sc, q)
    case None => 0
    case Some(gs) => GroupsLast(sc, q, gs, 0)
  }

  function QueuesLast(sc: Scope, qi: nat): (n: nat)
    ensures n <= |QueuesFrom(sc, qi)| && (n == 0 <==> QueuesFrom(sc, qi) == [])
    decreases |sc.queues| - qi
  {
    if qi >= |sc.queues| then 0 else
      var later := QueuesLast(sc, qi + 1);
      if later > 0 then later else QueueLast(sc, sc.queues[qi])
  }

  /** The budget is not spent in front of the last page that holds anything. */
  predicate Reaches(size: nat, last: nat, scanned: nat, maxScan: int) {
    size == 0 || scanned + size - last < maxScan
  }

  predicate GroupsReach(sc: Scope, q: string, gs: seq<string>, gi: nat, scanned: nat, maxScan: int) {
    Reaches(|GroupsFrom(sc, q, gs, gi)|, GroupsLast(sc, q, gs, gi), scanned, maxScan)
  }

  predicate QueuesReach(sc: Scope, qi: nat, scanned: nat, maxScan: int) {
    Reaches(|QueuesFrom(sc, qi)|, QueuesLast(sc, qi), scanned, maxScan)
  }

  /** Some group is listed at all. */
  predicate AnyGroup(sc: Scope) {
    exists i :: 0 <= i < |sc.queues| && GroupsOf(sc, sc.queues[i]).Some? && GroupsOf(sc, sc.queues[i]).value != []
  }

  /** The last group of the last queue holds something. */
  predicate EndsInTasks(sc: Scope) {
    sc.queues != [] &&
    var q := sc.queues[|sc.queues| - 1];
    match GroupsOf(sc, q)
    case None => false
    case Some(gs) => gs != [] && Listed(sc, q, gs[|gs| - 1]) != []
  }

  /** When a scan is reported truncated with nothing left to examine: the
      budget is spent within the last page that holds anything, and the scan
      looks for more, because that page is full or because a group or queue,
      all of them empty, still follows. */
  predicate CutShortForNothing(sc: Scope, maxScan: int) {
    var n, last := |AllTasks(sc)|, QueuesLast(sc, 0);
    if n == 0 then maxScan <= 0 && AnyGroup(sc)
    else n - last < maxScan <= n && (last == sc.pageSize || !EndsInTasks(sc))
  }

  // --- the condition against the order of the checks ---

  lemma {:induction false} NothingInLast(sc: Scope, q: string, gs: seq<string>, gi: nat)
    requires gi < |gs| && GroupsFrom(sc, q, gs, gi) == []
    ensures Listed(sc, q, gs[|gs| - 1]) == []
    decreases |gs| - gi
  {
    if gi + 1 < |gs| {
      NothingInLast(sc, q, gs, gi + 1);
    }
  }

  lemma {:induction false} StopsInGroups(sc: Scope, qi: nat, gs: seq<string>, gi: nat, scanned: nat, maxScan: int)
    requires qi < |sc.queues| && gi < |gs|
    requires var q := sc.queues[qi];
             var n, last := |GroupsFrom(sc, q, gs, gi)|, GroupsLast(sc, q, gs, gi);
             n > 0 && scanned + n - last < maxScan <= scanned + n
    ensures GroupsStop(sc, qi, gs, gi, scanned, maxScan) <==>
              || GroupsLast(sc, sc.queues[qi], gs, gi) == sc.pageSize
              || qi + 1 < |sc.queues|
              || Listed(sc, sc.queues[qi], gs[|gs| - 1]) == []
    decreases |gs| - gi
  {
    hide OnFullPages, LastPage;
    var q := sc.queues[qi];
    var n := |Listed(sc, q, gs[gi])|;
    LastPageFacts(sc, n);
    if GroupsLast(sc, q, gs, gi + 1) > 0 {
      StopsInGroups(sc, qi, gs, gi + 1, scanned + n, maxScan);
    } else if gi + 1 < |gs| {
      NothingInLast(sc, q, gs, gi + 1);
    }
  }

  lemma {:induction false} NothingAtEnd(sc: Scope, qi: nat)
    requires qi < |sc.queues| && QueuesFrom(sc, qi) == []
    ensures !EndsInTasks(sc)
    decreases |sc.queues| - qi
  {
    if qi + 1 < |sc.queues| {
      NothingAtEnd(sc, qi + 1);
    } else if GroupsOf(sc, sc.queues[qi]).Some? && GroupsOf(sc, sc.queues[qi]).value != [] {
      NothingInLast(sc, sc.queues[qi], GroupsOf(sc, sc.queues[qi]).value, 0);
    }
  }

  lemma NoGroups(sc: Scope, q: string)
    ensures GroupsFrom(sc, q, [], 0) == []
  {
  }

  /** A budget spent within the last page that holds anything. */
  lemma {:induction false} StopsInQueues(sc: Scope, qi: nat, scanned: nat, maxScan: int)
    requires var n, last := |QueuesFrom(sc, qi)|, QueuesLast(sc, qi);
             n > 0 && scanned + n - last < maxScan <= scanned + n
    ensures QueuesStop(sc, qi, scanned, maxScan) <==> QueuesLast(sc, qi) == sc.pageSize || !EndsInTasks(sc)
    decreases |sc.queues| - qi
  {
    hide GroupsStop, GroupsFrom, GroupsLast;
    var q := sc.queues[qi];
    var gs := GroupsOf(sc, q);
    var n := |QueueTasks(sc, q)|;
    if QueuesLast(sc, qi + 1) > 0 {
      if gs.Some? {
        GroupsWithin(sc, qi, gs.value, 0, scanned, maxScan);
      }
      StopsInQueues(sc, qi + 1, scanned + n, maxScan);
    } else {
      if gs.value == [] {
        NoGroups(sc, q);
      }
      StopsInGroups(sc, qi, gs.value, 0, scanned, maxScan);
      if qi + 1 < |sc.queues| {
        NothingAtEnd(sc, qi + 1);
      }
    }
  }

  /** In an empty scope only a spent budget stops the scan, at the first group. */
  lemma {:induction false} StopsInNothing(sc: Scope, qi: nat, scanned: nat, maxScan: int)
    requires maxScan <= scanned
    ensures QueuesStop(sc, qi, scanned, maxScan) <==>
              exists i :: qi <= i < |sc.queues| && GroupsOf(sc, sc.queues[i]).Some? && GroupsOf(sc, sc.queues[i]).value != []
    decreases |sc.queues| - qi
  {
    if qi < |sc.queues| {
      StopsInNothing(sc, qi + 1, scanned + |QueueTasks(sc, sc.queues[qi])|, maxScan);
    }
  }

  /** The report is wrong exactly there. */
  lemma CutShortIff(sc: Scope, maxScan: int)
    ensures QueuesStop(sc, 0, 0, maxScan) && QueuesReach(sc, 0, 0, maxScan) <==> CutShortForNothing(sc, maxScan)
  {
    hide QueuesStop, QueuesLast, EndsInTasks;
    var n, last := |AllTasks(sc)|, QueuesLast(sc, 0);
    if maxScan > n {
      WithinBudget(sc, 0, 0, maxScan);
    } else if n == 0 {
      StopsInNothing(sc, 0, 0, maxScan);
    } else if n - last < maxScan {
      StopsInQueues(sc, 0, 0, maxScan);
    }
  }

  // --- how the scan meets the condition ---

  /** A group read to its end passes the question on to what follows it; one
      that spends the budget settles it. */
  lemma ReachPastGroup(sc: Scope, q: string, gs: seq<string>, gi: nat, scanned: nat, maxScan: int)
    requires gi < |gs|
    ensures var n, later := |Listed(sc, q, gs[gi])|, GroupsFrom(sc, q, gs, gi + 1);
            && (Reaches(n, LastPage(sc, n), scanned, maxScan) ==>
                  (GroupsReach(sc, q, gs, gi, scanned, maxScan) <==> GroupsReach(sc, q, gs, gi + 1, scanned + n, maxScan)))
            && (scanned + n >= maxScan ==>
                  (GroupsReach(sc, q, gs, gi, scanned, maxScan) <==> later == [] && Reaches(n, LastPage(sc, n), scanned, maxScan)))
  {
  }

  lemma NothingToReach(sc: Scope, q: string, gs: seq<string>, gi: nat, scanned: nat, maxScan: int)
    requires GroupsFrom(sc, q, gs, gi) == []
    ensures GroupsReach(sc, q, gs, gi, scanned, maxScan)
  {
  }

  lemma ReachPastQueue(sc: Scope, qi: nat, scanned: nat, maxScan: int)
    requires qi < |sc.queues|
    ensures var n, last, later := |QueueTasks(sc, sc.queues[qi])|, QueueLast(sc, sc.queues[qi]), QueuesFrom(sc, qi + 1);
            && (Reaches(n, last, scanned, maxScan) ==>
                  (QueuesReach(sc, qi, scanned, maxScan) <==> QueuesReach(sc, qi + 1, scanned + n, maxScan)))
            && (scanned + n >= maxScan ==>
                  (QueuesReach(sc, qi, scanned, maxScan) <==> later == [] && Reaches(n, last, scanned, maxScan)))
  {
    hide QueueLast, QueueTasks;
  }
}
