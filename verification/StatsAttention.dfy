/** The attention engine's memory across sweeps: debounce, the `since` of a
    finding, and the group-stall finding carried over unexamined sweeps. */
module StatsAttention {
  import opened Collections

  const DEBOUNCE: nat := 2
  const MAX_FINDINGS: nat := 20

  datatype Detector =
    | NoConsumers | Orphans | PendingAge | RetryStorm | PastDue | PausedLong | ArchiveTrim | FailSpike
    | DepthAnomaly | ConsumersDropped | GroupStall

  datatype Stream = Stream(queue: string, detector: Detector)

  /** How many consecutive sweeps a condition must hold. */
  function MinSweeps(d: Detector): nat {
    match d
    case NoConsumers => DEBOUNCE
    case Orphans => DEBOUNCE
    case DepthAnomaly => DEBOUNCE
    case ConsumersDropped => DEBOUNCE
    case _ => 1
  }

  /** What one sweep sees. `holds` lists the conditions that hold, but for
      group stalls; `groups` the queues that have groups; `heads` the queues
      whose group heads were read, and the value of the stall found, if any. */
  datatype Sweep = Sweep(now: int, holds: seq<Stream>, groups: seq<string>, heads: map<string, Option<int>>)

  predicate SweepOk(s: Sweep) {
    && (forall i, j :: 0 <= i < j < |s.holds| ==> s.holds[i] != s.holds[j])
    && (forall i :: 0 <= i < |s.holds| ==> s.holds[i].detector != GroupStall)
    && (forall i, j :: 0 <= i < j < |s.groups| ==> s.groups[i] != s.groups[j])
  }

  datatype Finding = Finding(stream: Stream, value: Option<int>, since: int)

  datatype Memory = Memory(first: int, consecutive: nat, carried: Option<Finding>)

  // --- what the history of sweeps says ---

  /** For how many sweeps up to the last one the condition has held. */
  function Streak(hist: seq<Sweep>, k: Stream): (n: nat)
    ensures n <= |hist|
    ensures forall i :: |hist| - n <= i < |hist| ==> k in hist[i].holds
    ensures n < |hist| ==> k !in hist[|hist| - n - 1].holds
  {
    if hist == [] || k !in hist[|hist| - 1].holds then 0 else 1 + Streak(hist[..|hist| - 1], k)
  }

  /** When the unbroken run began. */
  function StreakSince(hist: seq<Sweep>, k: Stream): int
    requires Streak(hist, k) > 0
  {
    hist[|hist| - Streak(hist, k)].now
  }

  /** The last examination found a stall, and the queue has had groups since. */
  predicate Stalled(hist: seq<Sweep>, q: string) {
    hist != [] &&
    var s := hist[|hist| - 1];
    q in s.groups && if q in s.heads then s.heads[q].Some? else Stalled(hist[..|hist| - 1], q)
  }

  /** The finding of a stalled queue: the value last read, since the first
      sweep of the unbroken stall. */
  function StallFinding(hist: seq<Sweep>, q: string): (f: Finding)
    requires Stalled(hist, q)
    ensures f.stream == Stream(q, GroupStall)
  {
    var s, before := hist[|hist| - 1], hist[..|hist| - 1];
    if q in s.heads
    then Finding(Stream(q, GroupStall), s.heads[q], if Stalled(before, q) then StallFinding(before, q).since else s.now)
    else StallFinding(before, q)
  }

  /** A stall was found in sweep `i`, and the queue has had groups since but
      was not looked at again. */
  predicate LastFound(hist: seq<Sweep>, q: string, i: nat): (found: bool)
    ensures found ==> i < |hist| && q in hist[i].heads
  {
    && i < |hist| && q in hist[i].heads && hist[i].heads[q].Some?
    && forall k :: i <= k < |hist| ==> q in hist[k].groups && (k > i ==> q !in hist[k].heads)
  }

  /** A stall was found in sweep `j` and by every look taken since, and there
      was none before. */
  predicate Began(hist: seq<Sweep>, q: string, j: nat): (began: bool)
    ensures began ==> j < |hist|
  {
    && j < |hist| && q in hist[j].heads && !Stalled(hist[..j], q)
    && forall k :: j <= k < |hist| ==> q in hist[k].groups && (q in hist[k].heads ==> hist[k].heads[q].Some?)
  }

  lemma LastFoundSnoc(hist: seq<Sweep>, q: string, i: nat)
    requires hist != []
    ensures var n := |hist| - 1;
            LastFound(hist, q, i) <==>
              && q in hist[n].groups
              && if q in hist[n].heads then i == n && hist[n].heads[q].Some? else LastFound(hist[..n], q, i)
  {
    assert forall k :: 0 <= k < |hist| - 1 ==> hist[..|hist| - 1][k] == hist[k];
  }

  lemma BeganSnoc(hist: seq<Sweep>, q: string, j: nat)
    requires hist != []
    ensures var n := |hist| - 1;
            && (Began(hist[..n], q, j) && q in hist[n].groups && (q in hist[n].heads ==> hist[n].heads[q].Some?) ==> Began(hist, q, j))
            && (q in hist[n].groups && q in hist[n].heads && hist[n].heads[q].Some? && !Stalled(hist[..n], q) ==> Began(hist, q, n))
  {
    hide Stalled;
    var n := |hist| - 1;
    assert forall k :: 0 <= k < n ==> hist[..n][k] == hist[k];
    if j < n {
      assert hist[..n][..j] == hist[..j];
    }
  }

  lemma NoneFound(q: string, i: nat)
    ensures !LastFound([], q, i)
  {
  }

  /** A queue is stalled when the last look taken found it so, with groups ever
      since; the finding shows what that look saw, and when the stall began. */
  lemma {:induction false} StallMeans(hist: seq<Sweep>, q: string)
    ensures Stalled(hist, q) <==> exists i: nat :: LastFound(hist, q, i)
    ensures forall i: nat :: LastFound(hist, q, i) ==> Stalled(hist, q) && StallFinding(hist, q).value == hist[i].heads[q]
    ensures Stalled(hist, q) ==> exists j: nat :: Began(hist, q, j) && StallFinding(hist, q).since == hist[j].now
  {
    hide LastFound, Began;
    if hist == [] {
      forall i: nat
        ensures !LastFound(hist, q, i)
      {
        NoneFound(q, i);
      }
    } else {
      var n := |hist| - 1;
      var front := hist[..n];
      StallMeans(front, q);
      LastFoundSnoc(hist, q, n);
      forall i: nat
        ensures LastFound(hist, q, i) <==>
                  && q in hist[n].groups
                  && if q in hist[n].heads then i == n && hist[n].heads[q].Some? else LastFound(front, q, i)
      {
        LastFoundSnoc(hist, q, i);
      }
      if Stalled(hist, q) {
        if q in hist[n].heads && !Stalled(front, q) {
          BeganSnoc(hist, q, n);
        } else {
          var j: nat :| Began(front, q, j) && StallFinding(front, q).since == front[j].now;
          BeganSnoc(hist, q, j);
        }
      }
    }
  }

  /** The findings a sweep raises, given all sweeps up to it. */
  ghost predicate Raised(hist: seq<Sweep>, f: Finding) {
    if f.stream.detector == GroupStall
    then Stalled(hist, f.stream.queue) && f == StallFinding(hist, f.stream.queue)
    else Streak(hist, f.stream) > 0 && Streak(hist, f.stream) >= MinSweeps(f.stream.detector)
         && f == Finding(f.stream, None, StreakSince(hist, f.stream))
  }

  /** A queue without consumers, orphaned tasks, an unusual depth or a drop in
      consumers is raised once it has held for two sweeps running; any other
      condition at the first sweep it holds. */
  lemma RaisedOnceHeld(hist: seq<Sweep>, k: Stream)
    requires k.detector != GroupStall
    ensures var needed := if k.detector in {NoConsumers, Orphans, DepthAnomaly, ConsumersDropped} then 2 else 1;
            (exists f: Finding :: f.stream == k && Raised(hist, f)) <==>
              |hist| >= needed && forall i :: |hist| - needed <= i < |hist| ==> k in hist[i].holds
  {
    var n := Streak(hist, k);
    if n > 0 && n >= MinSweeps(k.detector) {
      assert Raised(hist, Finding(k, None, StreakSince(hist, k)));
    }
  }

  /** What is remembered of one condition after a history. */
  ghost predicate Remembers(hist: seq<Sweep>, k: Stream, m: Option<Memory>) {
    if k.detector == GroupStall
    then (m.Some? <==> Stalled(hist, k.queue))
         && (m.Some? ==> m.value.carried == Some(StallFinding(hist, k.queue))
                         && m.value.first == StallFinding(hist, k.queue).since)
    else (m.Some? <==> Streak(hist, k) > 0)
         && (m.Some? ==> m.value.consecutive == Streak(hist, k) && m.value.first == StreakSince(hist, k))
  }

  function Recall(state: map<Stream, Memory>, k: Stream): Option<Memory> {
    if k in state then Some(state[k]) else None
  }

  lemma StreakSnoc(hist: seq<Sweep>, s: Sweep, k: Stream)
    ensures Streak(hist + [s], k) == if k in s.holds then Streak(hist, k) + 1 else 0
    ensures k in s.holds ==>
              StreakSince(hist + [s], k) == if Streak(hist, k) > 0 then StreakSince(hist, k) else s.now
  {
    assert (hist + [s])[..|hist|] == hist;
  }

  lemma StallSnoc(hist: seq<Sweep>, s: Sweep, q: string)
    ensures Stalled(hist + [s], q) <==> q in s.groups && if q in s.heads then s.heads[q].Some? else Stalled(hist, q)
    ensures Stalled(hist + [s], q) ==>
              StallFinding(hist + [s], q) ==
              if q in s.heads
              then Finding(Stream(q, GroupStall), s.heads[q], if Stalled(hist, q) then StallFinding(hist, q).since else s.now)
              else StallFinding(hist, q)
  {
    assert (hist + [s])[..|hist|] == hist;
  }

  lemma NowRemembers(hist: seq<Sweep>, s: Sweep, k: Stream, m: Memory)
    requires k.detector != GroupStall && k in s.holds && m.consecutive == Streak(hist, k) + 1
    requires m.first == if Streak(hist, k) > 0 then StreakSince(hist, k) else s.now
    ensures Remembers(hist + [s], k, Some(m))
    ensures forall f: Finding :: f.stream == k ==>
              (Raised(hist + [s], f) <==> m.consecutive >= MinSweeps(k.detector) && f == Finding(k, None, m.first))
  {
    hide Streak, MinSweeps;
    StreakSnoc(hist, s, k);
  }

  lemma Forgotten(hist: seq<Sweep>, s: Sweep, k: Stream)
    requires k.detector != GroupStall && k !in s.holds
    ensures Remembers(hist + [s], k, None)
    ensures forall f: Finding :: f.stream == k ==> !Raised(hist + [s], f)
  {
    StreakSnoc(hist, s, k);
  }

  lemma NoGroups(hist: seq<Sweep>, s: Sweep, k: Stream)
    requires k.detector == GroupStall && k.queue !in s.groups
    ensures Remembers(hist + [s], k, None)
    ensures forall f: Finding :: f.stream == k ==> !Raised(hist + [s], f)
  {
    StallSnoc(hist, s, k.queue);
  }

  /** What a queue with groups is remembered as after a sweep. */
  lemma GroupMemory(hist: seq<Sweep>, s: Sweep, q: string, m: Option<Memory>)
    requires q in s.groups && Remembers(hist, Stream(q, GroupStall), m)
    ensures var k := Stream(q, GroupStall);
            if q !in s.heads
            then Remembers(hist + [s], k, m) && (m.Some? ==> m.value.carried.Some? && m.value.carried.value.stream == k)
                 && forall f: Finding :: f.stream == k ==> (Raised(hist + [s], f) <==> m.Some? && m.value.carried == Some(f))
            else if s.heads[q].None?
            then Remembers(hist + [s], k, None) && forall f: Finding :: f.stream == k ==> !Raised(hist + [s], f)
            else var first := if m.Some? then m.value.first else s.now;
                 var f := Finding(k, s.heads[q], first);
                 && (forall c: nat :: Remembers(hist + [s], k, Some(Memory(first, c, Some(f)))))
                 && forall g: Finding :: g.stream == k ==> (Raised(hist + [s], g) <==> g == f)
  {
    hide Stalled, StallFinding;
    StallSnoc(hist, s, q);
  }

  class Evaluator {
    var state: map<Stream, Memory>
    ghost var hist: seq<Sweep>

    ghost predicate Valid()
      reads this
    {
      forall k: Stream :: Remembers(hist, k, Recall(state, k))
    }

    constructor ()
      ensures Valid() && hist == []
    {
      state, hist := map[], [];
    }

    /** Record that a condition holds this sweep. */
    method Observe(k: Stream, now: int) returns (m: Memory, ok: bool)
      requires Valid() && k.detector != GroupStall
      ensures m.consecutive == Streak(hist, k) + 1 && m.first == if Streak(hist, k) > 0 then StreakSince(hist, k) else now
      ensures ok <==> Streak(hist, k) + 1 >= MinSweeps(k.detector)
    {
      assert Remembers(hist, k, Recall(state, k));
      m := if k in state then state[k] else Memory(now, 0, None);
      m := m.(consecutive := m.consecutive + 1);
      ok := m.consecutive >= MinSweeps(k.detector);
    }

    /** The conditions of one sweep, debounced. */
    method ObserveAll(s: Sweep) returns (next: map<Stream, Memory>, raised: seq<Finding>)
      requires Valid() && SweepOk(s)
      ensures forall k: Stream :: k.detector == GroupStall ==> k !in next
      ensures forall k: Stream :: k.detector != GroupStall ==> Remembers(hist + [s], k, Recall(next, k))
      ensures forall f: Finding :: f in raised <==> f.stream.detector != GroupStall && Raised(hist + [s], f)
    {
      hide Streak, StreakSince, Stalled, StallFinding, Remembers, MinSweeps;
      next, raised := map[], [];
      for i := 0 to |s.holds|
        invariant forall k: Stream :: k in next <==> k in s.holds[..i]
        invariant forall k: Stream :: k in s.holds[..i] ==> Remembers(hist + [s], k, Recall(next, k))
        invariant forall f: Finding :: f in raised <==> f.stream in s.holds[..i] && Raised(hist + [s], f)
      {
        var k := s.holds[i];
        assert s.holds[..i + 1] == s.holds[..i] + [k];
        var m, ok := Observe(k, s.now);
        NowRemembers(hist, s, k, m);
        next := next[k := m];
        if ok {
          raised := raised + [Finding(k, None, m.first)];
        }
      }
      assert s.holds[..|s.holds|] == s.holds;
      forall k: Stream | k.detector != GroupStall
        ensures Remembers(hist + [s], k, Recall(next, k))
        ensures k !in s.holds ==> forall f: Finding :: f.stream == k ==> !Raised(hist + [s], f)
      {
        if k !in s.holds {
          Forgotten(hist, s, k);
        }
      }
    }

    /** The group stalls of one sweep: a queue whose groups were not read keeps
        its last finding as it was; one that was read and is not stalled, or has
        no groups left, loses it. */
    method ObserveGroups(s: Sweep) returns (next: map<Stream, Memory>, raised: seq<Finding>)
      requires Valid() && SweepOk(s)
      ensures forall k: Stream :: k.detector != GroupStall ==> k !in next
      ensures forall k: Stream :: k.detector == GroupStall ==> Remembers(hist + [s], k, Recall(next, k))
      ensures forall f: Finding :: f in raised <==> f.stream.detector == GroupStall && Raised(hist + [s], f)
    {
      hide Streak, StreakSince, Stalled, StallFinding, Remembers, Raised;
      next, raised := map[], [];
      for i := 0 to |s.groups|
        invariant forall k: Stream :: k in next ==> k.detector == GroupStall && k.queue in s.groups[..i]
        invariant forall q: string :: q in s.groups[..i] ==>
                    Remembers(hist + [s], Stream(q, GroupStall), Recall(next, Stream(q, GroupStall)))
        invariant forall f: Finding :: f in raised <==>
                    f.stream.detector == GroupStall && f.stream.queue in s.groups[..i] && Raised(hist + [s], f)
      {
        var q := s.groups[i];
        var k := Stream(q, GroupStall);
        assert s.groups[..i + 1] == s.groups[..i] + [q];
        GroupMemory(hist, s, q, Recall(state, k));
        if q !in s.heads {
          if k in state && state[k].carried.Some? {
            next, raised := next[k := state[k]], raised + [state[k].carried.value];
          }
        } else if s.heads[q].Some? {
          var first := if k in state then state[k].first else s.now;
          var f := Finding(k, s.heads[q], first);
          next := next[k := Memory(first, (if k in state then state[k].consecutive else 0) + 1, Some(f))];
          raised := raised + [f];
        }
      }
      assert s.groups[..|s.groups|] == s.groups;
      forall k: Stream | k.detector == GroupStall
        ensures Remembers(hist + [s], k, Recall(next, k))
        ensures k.queue !in s.groups ==> forall f: Finding :: f.stream == k ==> !Raised(hist + [s], f)
      {
        if k.queue !in s.groups {
          NoGroups(hist, s, k);
        }
      }
    }

    /** One sweep. The findings raised are exactly those the whole history of
        sweeps calls for; ranking them and cutting the report to its first
        MAX_FINDINGS leaves the memory alone. */
    method Evaluate(s: Sweep, rank: seq<Finding> -> seq<Finding>) returns (raised: seq<Finding>, report: seq<Finding>)
      requires Valid() && SweepOk(s)
      modifies this
      ensures Valid() && hist == old(hist) + [s]
      ensures forall f: Finding :: f in raised <==> Raised(hist, f)
      ensures report == Slice(rank(raised), 0, MAX_FINDINGS)
    {
      hide Remembers, Raised;
      var conditions, stalls, more;
      conditions, raised := ObserveAll(s);
      stalls, more := ObserveGroups(s);
      var next := conditions + stalls;
      raised := raised + more;
      forall k: Stream
        ensures Recall(next, k) == if k.detector == GroupStall then Recall(stalls, k) else Recall(conditions, k)
      {
      }
      state, hist := next, hist + [s];
      report := Slice(rank(raised), 0, MAX_FINDINGS);
    }
  }
}
