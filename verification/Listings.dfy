/** Listing pages over a fixed fleet, and the one-pass enumeration order that
    every resumed walk must equal. */
module Listings {
  import opened Collections

  datatype Task = Task(queue: string, id: string, payload: string)

  /** A task reference: queue and task id. */
  datatype Ref = Ref(queue: string, id: string)

  type pos = n: nat | n > 0 witness 1

  /** A fixed fleet and what is looked for in it. `queues` is the resolved,
      sorted queue list. A queue missing from `groups` (aggregating scopes) or a
      (queue, group) missing from `lists` answers "queue not found". Listing
      pages hold `pageSize` tasks. */
  datatype Scope = Scope(
    queues: seq<string>, aggregating: bool,
    groups: map<string, seq<string>>, lists: map<(string, string), seq<Task>>,
    matches: Task -> bool, pageSize: pos)

  function Offset(sc: Scope, page: pos): nat {
    (page - 1) * sc.pageSize
  }

  /** One listing page (pages count from 1), or None when the queue is gone. */
  function Page(sc: Scope, q: string, g: string, page: pos): Option<seq<Task>> {
    if (q, g) in sc.lists then Some(Slice(sc.lists[(q, g)], Offset(sc, page), sc.pageSize)) else None
  }

  function Listed(sc: Scope, q: string, g: string): seq<Task> {
    if (q, g) in sc.lists then sc.lists[(q, g)] else []
  }

  function Drop<T>(s: seq<T>, n: nat): seq<T> {
    if n >= |s| then [] else s[n..]
  }

  /** What a page leaves for the pages after it. */
  lemma PageThenRest(sc: Scope, q: string, g: string, page: pos)
    requires (q, g) in sc.lists
    ensures var all := sc.lists[(q, g)];
            var here := Page(sc, q, g, page).value;
            |here| <= sc.pageSize
            && Drop(all, Offset(sc, page)) ==
               here + if |here| < sc.pageSize then [] else Drop(all, Offset(sc, page + 1))
  {
    var all, n := sc.lists[(q, g)], Offset(sc, page);
    assert Offset(sc, page + 1) == n + sc.pageSize;
    if n < |all| && n + sc.pageSize < |all| {
      assert all[n..] == all[n..n + sc.pageSize] + all[n + sc.pageSize..];
    }
  }

  // --- the enumeration order ---

  function GroupsFrom(sc: Scope, q: string, gs: seq<string>, gi: nat): seq<Task>
    decreases |gs| - gi
  {
    if gi >= |gs| then [] else Listed(sc, q, gs[gi]) + GroupsFrom(sc, q, gs, gi + 1)
  }

  /** The group list walked in one queue; None when the queue is gone. */
  function GroupsOf(sc: Scope, q: string): Option<seq<string>> {
    if !sc.aggregating then Some([""]) else if q in sc.groups then Some(sc.groups[q]) else None
  }

  function QueueTasks(sc: Scope, q: string): seq<Task> {
    match GroupsOf(sc, q)
    case None => []
    case Some(gs) => GroupsFrom(sc, q, gs, 0)
  }

  function QueuesFrom(sc: Scope, qi: nat): seq<Task>
    decreases |sc.queues| - qi
  {
    if qi >= |sc.queues| then [] else QueueTasks(sc, sc.queues[qi]) + QueuesFrom(sc, qi + 1)
  }

  /** Every task in scope, in (queue, group, listing) order: one single pass. */
  function AllTasks(sc: Scope): seq<Task> {
    QueuesFrom(sc, 0)
  }

  /** The candidate references of a task sequence, in order. */
  function RefsOf(sc: Scope, ts: seq<Task>): (r: seq<Ref>)
    ensures |r| <= |ts|
  {
    if ts == [] then [] else
      var t := ts[|ts| - 1];
      RefsOf(sc, ts[..|ts| - 1]) + if sc.matches(t) then [Ref(t.queue, t.id)] else []
  }

  function AllRefs(sc: Scope): seq<Ref> {
    RefsOf(sc, AllTasks(sc))
  }

  lemma {:induction false} RefsOfConcat(sc: Scope, a: seq<Task>, b: seq<Task>)
    ensures RefsOf(sc, a + b) == RefsOf(sc, a) + RefsOf(sc, b)
  {
    if b == [] {
      assert a + b == a;
    } else {
      assert (a + b)[..|a + b| - 1] == a + b[..|b| - 1];
      RefsOfConcat(sc, a, b[..|b| - 1]);
    }
  }

  // --- what the order holds ---

  /** Every match has its place among the references, right after those of the
      matches in front of it; nothing else has one. */
  lemma {:induction false} RefsOfAt(sc: Scope, ts: seq<Task>, i: nat)
    requires i < |ts|
    ensures |RefsOf(sc, ts[..i + 1])| == |RefsOf(sc, ts[..i])| + if sc.matches(ts[i]) then 1 else 0
    ensures sc.matches(ts[i]) ==>
              |RefsOf(sc, ts[..i])| < |RefsOf(sc, ts)|
              && RefsOf(sc, ts)[|RefsOf(sc, ts[..i])|] == Ref(ts[i].queue, ts[i].id)
  {
    assert ts[..i + 1][..i] == ts[..i];
    RefsOfConcat(sc, ts[..i + 1], ts[i + 1..]);
    assert ts[..i + 1] + ts[i + 1..] == ts;
  }

  lemma {:induction false} GroupsFromExact(sc: Scope, q: string, gs: seq<string>, gi: nat, t: Task)
    ensures t in GroupsFrom(sc, q, gs, gi) <==> exists j :: gi <= j < |gs| && t in Listed(sc, q, gs[j])
    decreases |gs| - gi
  {
    if gi < |gs| {
      GroupsFromExact(sc, q, gs, gi + 1, t);
    }
  }

  lemma {:induction false} QueuesFromExact(sc: Scope, qi: nat, t: Task)
    ensures t in QueuesFrom(sc, qi) <==> exists k :: qi <= k < |sc.queues| && t in QueueTasks(sc, sc.queues[k])
    decreases |sc.queues| - qi
  {
    if qi < |sc.queues| {
      QueuesFromExact(sc, qi + 1, t);
    }
  }

  /** One pass meets exactly the tasks listed in the groups of the queues in
      scope; a queue that is not aggregating is one group. */
  lemma AllTasksExact(sc: Scope, t: Task)
    ensures t in AllTasks(sc) <==>
              exists q: string, g: string ::
                && q in sc.queues && (if sc.aggregating then q in sc.groups && g in sc.groups[q] else g == "")
                && (q, g) in sc.lists && t in sc.lists[(q, g)]
  {
    QueuesFromExact(sc, 0, t);
    forall q: string
      ensures t in QueueTasks(sc, q) <==>
                exists g: string ::
                  && (if sc.aggregating then q in sc.groups && g in sc.groups[q] else g == "")
                  && (q, g) in sc.lists && t in sc.lists[(q, g)]
    {
      if GroupsOf(sc, q).Some? {
        GroupsFromExact(sc, q, GroupsOf(sc, q).value, 0, t);
      }
    }
  }

  // --- what is left to enumerate from a cursor ---

  /** From page `page` of group `gi` to the end of the queue. */
  function GroupsRest(sc: Scope, q: string, gs: seq<string>, gi: nat, page: pos): seq<Task> {
    if gi >= |gs| then [] else Drop(Listed(sc, q, gs[gi]), Offset(sc, page)) + GroupsFrom(sc, q, gs, gi + 1)
  }

  /** A stored page below 1 restarts at 1; a group index off the end restarts at 0. */
  function StartPage(page: nat): pos {
    if page < 1 then 1 else page
  }

  function StartGroup(gs: seq<string>, gi: nat): nat {
    if gi < |gs| then gi else 0
  }

  /** What a claim that resumes from a stored cursor will still walk. */
  function Rest(sc: Scope, qi: nat, frozen: Option<seq<string>>, gi: nat, page: nat): seq<Task> {
    if qi >= |sc.queues| then [] else
      var q := sc.queues[qi];
      var gs := if sc.aggregating && frozen.Some? then frozen else GroupsOf(sc, q);
      (match gs
       case None => []
       case Some(gs) => GroupsRest(sc, q, gs, StartGroup(gs, gi), StartPage(page)))
      + QueuesFrom(sc, qi + 1)
  }

  lemma GroupsRestFresh(sc: Scope, q: string, gs: seq<string>, gi: nat)
    ensures GroupsRest(sc, q, gs, gi, 1) == GroupsFrom(sc, q, gs, gi)
  {
    assert Offset(sc, 1) == 0;
  }

  /** Entering a queue with no frozen group list walks the whole queue. */
  lemma RestFresh(sc: Scope, qi: nat, page: nat)
    requires page <= 1
    ensures Rest(sc, qi, None, 0, page) == QueuesFrom(sc, qi)
  {
    if qi < |sc.queues| {
      var q := sc.queues[qi];
      if GroupsOf(sc, q).Some? {
        var gs := GroupsOf(sc, q).value;
        GroupsRestFresh(sc, q, gs, StartGroup(gs, 0));
      }
    }
  }

  lemma ConcatAssoc<T>(a: seq<T>, b: seq<T>, c: seq<T>)
    ensures (a + b) + c == a + (b + c)
  {
  }

  /** One page consumed: the page is a prefix of the rest, and what follows is
      the rest from the next position. */
  lemma GroupsRestStep(sc: Scope, q: string, gs: seq<string>, gi: nat, page: pos)
    requires gi < |gs|
    ensures match Page(sc, q, gs[gi], page)
            case None => GroupsRest(sc, q, gs, gi, page) == GroupsRest(sc, q, gs, gi + 1, 1)
            case Some(batch) =>
              GroupsRest(sc, q, gs, gi, page) == batch +
              if |batch| < sc.pageSize then GroupsRest(sc, q, gs, gi + 1, 1)
              else GroupsRest(sc, q, gs, gi, page + 1)
  {
    GroupsRestFresh(sc, q, gs, gi + 1);
    var tail := GroupsFrom(sc, q, gs, gi + 1);
    if (q, gs[gi]) in sc.lists {
      var batch := Page(sc, q, gs[gi], page).value;
      var next := if |batch| < sc.pageSize then [] else Drop(Listed(sc, q, gs[gi]), Offset(sc, page + 1));
      assert Drop(Listed(sc, q, gs[gi]), Offset(sc, page)) == batch + next by {
        PageThenRest(sc, q, gs[gi], page);
      }
      ConcatAssoc(batch, next, tail);
      assert next == [] ==> next + tail == tail;
    }
  }
}
