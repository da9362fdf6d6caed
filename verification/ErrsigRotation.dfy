/** One tail sweep over every queue under a command budget, and how successive
    sweeps rotate so that no queue is left out. */
module ErrsigRotation {
  import opened Collections
  import opened SortedSet

  const META_CHUNK: nat := 200

  /** The first index whose name is not before `name`. */
  function Search(qs: seq<string>, name: string): (i: nat)
    ensures i <= |qs|
    ensures forall k :: 0 <= k < i ==> StringBefore(qs[k], name)
    ensures i < |qs| ==> !StringBefore(qs[i], name)
  {
    if qs == [] || !StringBefore(qs[0], name) then 0
    else
      assert forall k :: 0 < k < |qs| ==> qs[k] == qs[1..][k - 1];
      1 + Search(qs[1..], name)
  }

  /** Where a sweep starts: just after the queue the last one stopped at. */
  function StartAfter(qs: seq<string>, last: string): (p: nat)
    ensures p < |qs| || p == 0
  {
    if qs == [] || last == "" then 0 else
      var s := Search(qs, last);
      var p := if s < |qs| && qs[s] == last then s + 1 else s;
      if p >= |qs| then 0 else p
  }

  function RotateFrom(qs: seq<string>, last: string): seq<string> {
    var p := StartAfter(qs, last);
    qs[p..] + qs[..p]
  }

  /** The start is the first queue after `last`, whether or not `last` is still
      there; past the final queue it wraps to the first. */
  lemma StartsAfterLast(qs: seq<string>, last: string)
    requires Sorted(qs) && qs != [] && last != ""
    ensures var p := StartAfter(qs, last);
            && (forall k :: 0 < p && 0 <= k < p ==> !StringBefore(last, qs[k]))
            && (p > 0 ==> StringBefore(last, qs[p]))
            && (p == 0 ==> StringBefore(last, qs[0]) || forall k :: 0 <= k < |qs| ==> !StringBefore(last, qs[k]))
  {
    var s := Search(qs, last);
    forall k | 0 <= k < |qs|
      ensures k < s ==> !StringBefore(last, qs[k])
      ensures k >= s && qs[k] != last ==> StringBefore(last, qs[k])
      ensures qs[k] == last ==> !StringBefore(last, qs[k])
    {
      StringTotal(qs[k], last);
      if k > s {
        StringTotal(qs[s], last);
        if qs[s] != last {
          StringTransitive(last, qs[s], qs[k]);
        }
      }
    }
    if s + 1 < |qs| && qs[s] == last {
      StringTotal(qs[s + 1], last);
    }
  }

  /** After a queue of the list, the next one round the circle. */
  lemma StartAfterMember(qs: seq<string>, k: nat)
    requires Sorted(qs) && k < |qs| && qs[k] != ""
    ensures StartAfter(qs, qs[k]) == if k + 1 == |qs| then 0 else k + 1
  {
    var s := Search(qs, qs[k]);
    StringTotal(qs[k], qs[k]);
    assert s == k;
  }

  lemma RotatedAt(qs: seq<string>, last: string, i: nat)
    requires i < |qs|
    ensures |RotateFrom(qs, last)| == |qs|
    ensures var p := StartAfter(qs, last);
            RotateFrom(qs, last)[i] == qs[if p + i < |qs| then p + i else p + i - |qs|]
  {
  }

  // --- one sweep ---

  /** Where a sweep that visited `c` queues leaves the rotation. */
  function NextRot(qs: seq<string>, rot: string, c: nat): string
    requires c <= |qs|
  {
    if c == |qs| then "" else if c == 0 then rot else RotateFrom(qs, rot)[c - 1]
  }

  // --- runs of sweeps ---

  function Sum(counts: seq<nat>): nat {
    if counts == [] then 0 else counts[0] + Sum(counts[1..])
  }

  /** What a run of sweeps visits, given how many queues each one reached. */
  function VisitedBy(qs: seq<string>, rot: string, counts: seq<nat>): seq<string>
    requires forall i :: 0 <= i < |counts| ==> counts[i] <= |qs|
    decreases |counts|
  {
    if counts == [] then [] else
      RotateFrom(qs, rot)[..counts[0]] + VisitedBy(qs, NextRot(qs, rot, counts[0]), counts[1..])
  }

  /** The next sweep starts where this one stopped. */
  lemma NextStart(qs: seq<string>, rot: string, c: nat)
    requires Sorted(qs) && "" !in qs && c < |qs|
    ensures var p := StartAfter(qs, rot);
            StartAfter(qs, NextRot(qs, rot, c)) == if p + c < |qs| then p + c else p + c - |qs|
  {
    hide Sorted, StartAfter, RotateFrom;
    if c > 0 {
      RotatedAt(qs, rot, c - 1);
      var p := StartAfter(qs, rot);
      StartAfterMember(qs, if p + (c - 1) < |qs| then p + (c - 1) else p + (c - 1) - |qs|);
    }
  }

  /** The queue `d` places after the start is reached within the first d + 1 visits. */
  lemma {:induction false} Reached(qs: seq<string>, rot: string, counts: seq<nat>, d: nat)
    requires Sorted(qs) && "" !in qs
    requires forall i :: 0 <= i < |counts| ==> counts[i] <= |qs|
    requires d < |qs| && d < Sum(counts)
    ensures RotateFrom(qs, rot)[d] in VisitedBy(qs, rot, counts)
    decreases |counts|
  {
    hide Sorted, RotateFrom, StartAfter, NextRot;
    var c, rest := counts[0], counts[1..];
    RotatedAt(qs, rot, d);
    if d < c {
      assert RotateFrom(qs, rot)[..c][d] == RotateFrom(qs, rot)[d];
    } else {
      var rot' := NextRot(qs, rot, c);
      NextStart(qs, rot, c);
      RotatedAt(qs, rot', d - c);
      Reached(qs, rot', rest, d - c);
    }
  }

  /** On a fixed queue set, sweeps whose visits add up to the number of queues
      leave no queue out. */
  lemma EveryQueueVisited(qs: seq<string>, rot: string, counts: seq<nat>, q: string)
    requires Sorted(qs) && "" !in qs
    requires forall i :: 0 <= i < |counts| ==> counts[i] <= |qs|
    requires Sum(counts) >= |qs| && q in qs
    ensures q in VisitedBy(qs, rot, counts)
  {
    var k :| 0 <= k < |qs| && qs[k] == q;
    var p := StartAfter(qs, rot);
    var d := if k >= p then k - p else k + |qs| - p;
    RotatedAt(qs, rot, d);
    Reached(qs, rot, counts, d);
  }

  /** Where a run of sweeps leaves the rotation. */
  function RotAfter(qs: seq<string>, rot: string, counts: seq<nat>): string
    requires forall i :: 0 <= i < |counts| ==> counts[i] <= |qs|
    decreases |counts|
  {
    if counts == [] then rot else RotAfter(qs, NextRot(qs, rot, counts[0]), counts[1..])
  }

  /** One more sweep. */
  lemma {:induction false} OneMoreSweep(qs: seq<string>, rot: string, counts: seq<nat>, c: nat)
    requires c <= |qs| && forall i :: 0 <= i < |counts| ==> counts[i] <= |qs|
    ensures VisitedBy(qs, rot, counts + [c]) ==
            VisitedBy(qs, rot, counts) + RotateFrom(qs, RotAfter(qs, rot, counts))[..c]
    ensures RotAfter(qs, rot, counts + [c]) == NextRot(qs, RotAfter(qs, rot, counts), c)
    ensures Sum(counts + [c]) == Sum(counts) + c
    decreases |counts|
  {
    hide RotateFrom, NextRot;
    if counts == [] {
      assert (counts + [c])[1..] == [];
    } else {
      assert (counts + [c])[1..] == counts[1..] + [c];
      OneMoreSweep(qs, NextRot(qs, rot, counts[0]), counts[1..], c);
    }
  }

  lemma NoSweep(qs: seq<string>, rot: string)
    ensures VisitedBy(qs, rot, []) == [] && RotAfter(qs, rot, []) == rot && Sum([]) == 0
  {
  }

  /** What a sweep visited is a front of its rotation, and its last visit, or
      none, is where the next one starts. */
  lemma SweepLeaves(qs: seq<string>, rot: string, visited: seq<string>)
    requires visited <= RotateFrom(qs, rot)
    ensures |visited| <= |qs| == |RotateFrom(qs, rot)| && visited == RotateFrom(qs, rot)[..|visited|]
    ensures 0 < |visited| < |qs| ==> NextRot(qs, rot, |visited|) == visited[|visited| - 1]
    ensures visited == [] && qs != [] ==> NextRot(qs, rot, 0) == rot
  {
  }

  /** What a sweep meets: its budget, what tailing each queue costs, which
      tails fail, and which chunks' metadata cannot be read. */
  datatype Weather = Weather(wanted: int, cost: string -> nat, broken: string -> bool, unread: nat -> bool)

  ghost predicate Calm(w: Weather) {
    (forall q :: !w.broken(q)) && (forall c :: !w.unread(c))
  }

  function BudgetOf(w: Weather): (budget: nat)
    ensures budget == if w.wanted < 4 * META_CHUNK then 4 * META_CHUNK else w.wanted
  {
    if w.wanted < 4 * META_CHUNK then 4 * META_CHUNK else w.wanted
  }

  function TotalCost(qs: seq<string>, cost: string -> nat): nat {
    if qs == [] then 0 else TotalCost(qs[..|qs| - 1], cost) + cost(qs[|qs| - 1])
  }

  /** How many of `total` queues had their metadata read by the time `n` of
      them were visited: whole chunks. */
  function Metered(n: nat, total: nat): nat
    requires n <= total
  {
    if n == 0 then 0 else Min(((n - 1) / META_CHUNK + 1) * META_CHUNK, total)
  }

  /** The commands of a sweep that visited the first `n` queues: one for the
      list, three for each queue's metadata, and the tails. */
  function SpentOn(ordered: seq<string>, n: nat, cost: string -> nat): nat
    requires n <= |ordered|
  {
    1 + 3 * Metered(n, |ordered|) + TotalCost(ordered[..n], cost)
  }

  /** The sweep got as far as its `n`-th queue with no failure, and within its budget. */
  ghost predicate GotTo(ordered: seq<string>, n: nat, w: Weather)
    requires n <= |ordered|
  {
    && (forall k :: 0 < k < n ==> SpentOn(ordered, k, w.cost) < BudgetOf(w))
    && (forall k :: 0 <= k < n ==> !w.broken(ordered[k]) && !w.unread(k / META_CHUNK))
  }

  /** What comes after the first `n` queues fails: the metadata of the chunk
      they end at, or the next tail. */
  predicate FailsAt(ordered: seq<string>, n: nat, w: Weather) {
    n < |ordered| && (w.unread(n / META_CHUNK) || w.broken(ordered[n]))
  }

  /** How far a sweep goes, and whether it fails, is settled by its budget, its
      costs and its failures: no two outcomes meet the account of one sweep. */
  lemma OneOutcome(ordered: seq<string>, w: Weather, n: nat, ok: bool, n': nat, ok': bool)
    requires n <= |ordered| && n' <= |ordered|
    requires GotTo(ordered, n, w) && GotTo(ordered, n', w)
    requires if ok then n == |ordered| || (n > 0 && SpentOn(ordered, n, w.cost) >= BudgetOf(w))
             else FailsAt(ordered, n, w) && (n > 0 ==> SpentOn(ordered, n, w.cost) < BudgetOf(w))
    requires if ok' then n' == |ordered| || (n' > 0 && SpentOn(ordered, n', w.cost) >= BudgetOf(w))
             else FailsAt(ordered, n', w) && (n' > 0 ==> SpentOn(ordered, n', w.cost) < BudgetOf(w))
    ensures n == n' && ok == ok'
  {
  }

  lemma NoneVisited(ordered: seq<string>, w: Weather)
    ensures SpentOn(ordered, 0, w.cost) == 1 && GotTo(ordered, 0, w)
  {
  }

  lemma SpentOnNext(ordered: seq<string>, chunkStart: nat, n: nat, cost: string -> nat)
    requires chunkStart % META_CHUNK == 0 && chunkStart <= n < Min(chunkStart + META_CHUNK, |ordered|)
    ensures SpentOn(ordered, n + 1, cost) == SpentOn(ordered, n, cost) + cost(ordered[n]) +
              if n > chunkStart then 0 else 3 * (Min(chunkStart + META_CHUNK, |ordered|) - chunkStart)
  {
    assert ordered[..n + 1][..n] == ordered[..n];
  }

  /** One more queue of a chunk; the chunk's first visit pays its metadata. */
  lemma OneVisit(ordered: seq<string>, chunkStart: nat, n: nat, w: Weather)
    requires chunkStart % META_CHUNK == 0 && chunkStart <= n < Min(chunkStart + META_CHUNK, |ordered|)
    requires GotTo(ordered, n, w) && (n > 0 ==> SpentOn(ordered, n, w.cost) < BudgetOf(w))
    ensures n / META_CHUNK == chunkStart / META_CHUNK
    ensures SpentOn(ordered, n + 1, w.cost) == SpentOn(ordered, n, w.cost) + w.cost(ordered[n]) +
              if n > chunkStart then 0 else 3 * (Min(chunkStart + META_CHUNK, |ordered|) - chunkStart)
    ensures !w.broken(ordered[n]) && !w.unread(chunkStart / META_CHUNK) ==> GotTo(ordered, n + 1, w)
  {
    hide SpentOn;
    assert SpentOn(ordered, n + 1, w.cost) == SpentOn(ordered, n, w.cost) + w.cost(ordered[n]) +
      if n > chunkStart then 0 else 3 * (Min(chunkStart + META_CHUNK, |ordered|) - chunkStart) by {
      SpentOnNext(ordered, chunkStart, n, w.cost);
    }
  }

  /** A sweep overruns its budget by less than a chunk's metadata and one tail. */
  lemma Overrun(ordered: seq<string>, n: nat, w: Weather)
    requires 0 < n <= |ordered| && GotTo(ordered, n, w)
    ensures SpentOn(ordered, n, w.cost) < BudgetOf(w) + 3 * META_CHUNK + w.cost(ordered[n - 1])
  {
    hide SpentOn;
    NoneVisited(ordered, w);
    OneVisit(ordered, (n - 1) / META_CHUNK * META_CHUNK, n - 1, w);
  }

  /** The holder's place in the rotation. */
  class Rotation {
    var tailRot: string

    constructor ()
      ensures tailRot == ""
    {
      tailRot := "";
    }

    /** Visit the queues from where the last sweep stopped until the budget is
        spent or something fails. */
    method Sweep(qs: seq<string>, w: Weather) returns (visited: seq<string>, spent: nat, ok: bool)
      modifies this
      ensures visited <= RotateFrom(qs, old(tailRot))
      ensures tailRot == if ok then NextRot(qs, old(tailRot), |visited|)
                         else if visited == [] then old(tailRot) else visited[|visited| - 1]
      ensures ok && qs != [] ==> visited != []
      ensures ok && |visited| < |qs| ==> spent >= BudgetOf(w)
      ensures ok && visited != [] ==> spent < BudgetOf(w) + 3 * META_CHUNK + w.cost(visited[|visited| - 1])
      ensures var ordered, n := RotateFrom(qs, old(tailRot)), |visited|;
              && GotTo(ordered, n, w)
              && (if ok then spent == SpentOn(ordered, n, w.cost)
                  else FailsAt(ordered, n, w) && (n > 0 ==> SpentOn(ordered, n, w.cost) < BudgetOf(w)))
    {
      hide SpentOn, GotTo;
      visited, spent, ok := [], 1, true;
      var ordered, rot := RotateFrom(qs, tailRot), tailRot;
      NoneVisited(ordered, w);
      var chunkStart := 0;
      while chunkStart < |ordered| && spent < BudgetOf(w)
        invariant chunkStart % META_CHUNK == 0
        invariant visited <= ordered && (spent < BudgetOf(w) ==> |visited| == Min(chunkStart, |ordered|))
        invariant tailRot == if visited == [] then rot else visited[|visited| - 1]
        invariant visited == [] ==> chunkStart == 0
        invariant spent == SpentOn(ordered, |visited|, w.cost) && GotTo(ordered, |visited|, w)
        decreases |ordered| - chunkStart
      {
        var chunkEnd := Min(chunkStart + META_CHUNK, |ordered|);
        if w.unread(chunkStart / META_CHUNK) {
          ok := false;
          return;
        }
        visited, spent, ok := VisitChunk(ordered, chunkStart, chunkEnd, spent + 3 * (chunkEnd - chunkStart), w);
        if !ok {
          return;
        }
        chunkStart := chunkStart + META_CHUNK;
      }
      if visited != [] {
        Overrun(ordered, |visited|, w);
      }
      if |visited| >= |ordered| {
        tailRot := "";
      }
    }

    /** Tail the queues of one chunk, stopping once the budget is spent. */
    method VisitChunk(ordered: seq<string>, chunkStart: nat, chunkEnd: nat, spent0: nat, w: Weather)
      returns (visited: seq<string>, spent: nat, ok: bool)
      requires chunkStart < chunkEnd == Min(chunkStart + META_CHUNK, |ordered|) && chunkStart % META_CHUNK == 0
      requires !w.unread(chunkStart / META_CHUNK) && GotTo(ordered, chunkStart, w)
      requires chunkStart > 0 ==> SpentOn(ordered, chunkStart, w.cost) < BudgetOf(w)
      requires spent0 == SpentOn(ordered, chunkStart, w.cost) + 3 * (chunkEnd - chunkStart)
      modifies this
      ensures ordered[..chunkStart] <= visited <= ordered[..chunkEnd] && GotTo(ordered, |visited|, w)
      ensures tailRot == if |visited| == chunkStart then old(tailRot) else visited[|visited| - 1]
      ensures if ok then |visited| > chunkStart && spent == SpentOn(ordered, |visited|, w.cost)
              else FailsAt(ordered, |visited|, w) && (visited != [] ==> SpentOn(ordered, |visited|, w.cost) < BudgetOf(w))
      ensures ok && spent < BudgetOf(w) ==> |visited| == chunkEnd
    {
      hide SpentOn, GotTo;
      visited, spent, ok := ordered[..chunkStart], spent0, true;
      for i := chunkStart to chunkEnd
        invariant visited == ordered[..i] && GotTo(ordered, i, w)
        invariant tailRot == if i == chunkStart then old(tailRot) else visited[|visited| - 1]
        invariant i > 0 ==> SpentOn(ordered, i, w.cost) < BudgetOf(w)
        invariant spent == if i == chunkStart then spent0 else SpentOn(ordered, i, w.cost)
      {
        OneVisit(ordered, chunkStart, i, w);
        if w.broken(ordered[i]) {
          ok := false;
          return;
        }
        spent := spent + w.cost(ordered[i]);
        tailRot, visited := ordered[i], visited + [ordered[i]];
        assert ordered[..i + 1] == ordered[..i] + [ordered[i]];
        if spent >= BudgetOf(w) {
          break;
        }
      }
    }

    /** A run of sweeps over a fixed queue set, some of them failing half-way.
        Together they visit what their counts say, and once these add up to the
        number of queues every queue has been visited: without failures, at the
        latest after as many sweeps as there are queues. */
    method Run(qs: seq<string>, weathers: seq<Weather>) returns (visited: seq<string>, counts: seq<nat>, oks: seq<bool>)
      requires Sorted(qs) && "" !in qs
      modifies this
      ensures |counts| == |oks| == |weathers| && forall i :: 0 <= i < |counts| ==> counts[i] <= |qs|
      ensures forall i :: 0 <= i < |oks| ==> if oks[i] then qs != [] ==> counts[i] > 0 else counts[i] < |qs|
      ensures forall i :: 0 <= i < |oks| && Calm(weathers[i]) ==> oks[i]
      ensures visited == VisitedBy(qs, old(tailRot), counts) && |visited| == Sum(counts)
      ensures tailRot == RotAfter(qs, old(tailRot), counts)
      ensures |visited| >= |qs| || (|weathers| >= |qs| && forall i :: 0 <= i < |weathers| ==> Calm(weathers[i])) ==>
                forall q <- qs :: q in visited
    {
      hide RotateFrom, VisitedBy, RotAfter, NextRot, Sum, SpentOn, GotTo;
      ghost var rot := tailRot;
      visited, counts, oks := [], [], [];
      NoSweep(qs, rot);
      for i := 0 to |weathers|
        invariant |counts| == |oks| == i && forall k :: 0 <= k < i ==> counts[k] <= |qs|
        invariant forall k :: 0 <= k < i ==> if oks[k] then qs != [] ==> counts[k] > 0 else counts[k] < |qs|
        invariant forall k :: 0 <= k < i && Calm(weathers[k]) ==> oks[k]
        invariant visited == VisitedBy(qs, rot, counts) && |visited| == Sum(counts)
        invariant tailRot == RotAfter(qs, rot, counts)
        invariant qs != [] && (forall k :: 0 <= k < i ==> Calm(weathers[k])) ==> i <= |visited|
      {
        ghost var start := tailRot;
        var v, spent, ok := Sweep(qs, weathers[i]);
        SweepLeaves(qs, start, v);
        OneMoreSweep(qs, rot, counts, |v|);
        visited, counts, oks := visited + v, counts + [|v|], oks + [ok];
      }
      if |visited| >= |qs| {
        forall q | q in qs
          ensures q in visited
        {
          EveryQueueVisited(qs, rot, counts, q);
        }
      }
    }
  }
}
