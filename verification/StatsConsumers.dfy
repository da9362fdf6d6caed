/** The sparse consumer window: change-points pruned to a horizon, against the
    full history of observations. Times are in nanoseconds. */
module StatsConsumers {
  const MINUTE := 60_000_000_000
  const DROP_WINDOW := 30 * MINUTE
  const COVERAGE_SLACK := 5 * MINUTE

  datatype Point = Point(t: int, n: nat)

  predicate Ordered(h: seq<Point>) {
    forall i, j :: 0 <= i < j < |h| ==> h[i].t <= h[j].t
  }

  // --- the dense history ---

  /** The k-th observation was still in force after the cutoff. */
  predicate InForce(h: seq<Point>, cutoff: int, k: nat)
    requires k < |h|
  {
    k + 1 == |h| || h[k + 1].t > cutoff
  }

  /** The consumer counts in force since the cutoff. */
  ghost function Counts(h: seq<Point>, cutoff: int): set<nat> {
    set k | 0 <= k < |h| && InForce(h, cutoff, k) :: h[k].n
  }

  // --- the sparse window ---

  /** Appending the value of the tail is a no-op. */
  function Append(w: seq<Point>, p: Point): seq<Point> {
    if w != [] && w[|w| - 1].n == p.n then w else w + [p]
  }

  /** Drop what fell out of the window, but for the newest such point. */
  function Prune(w: seq<Point>, cutoff: int): seq<Point> {
    if |w| >= 2 && w[1].t <= cutoff then Prune(w[1..], cutoff) else w
  }

  /** The change-points of a history. */
  function Changes(h: seq<Point>): seq<Point> {
    if h == [] then [] else Append(Changes(h[..|h| - 1]), h[|h| - 1])
  }

  lemma {:induction false} ChangesFacts(h: seq<Point>)
    requires h != [] && Ordered(h)
    ensures var c := Changes(h);
            && c != [] && c[0] == h[0] && c[|c| - 1].n == h[|h| - 1].n && c[|c| - 1].t <= h[|h| - 1].t && Ordered(c)
  {
    if |h| > 1 {
      ChangesFacts(h[..|h| - 1]);
    }
  }

  /** Pruning now and again later is pruning once later. */
  lemma {:induction false} PruneTwice(w: seq<Point>, tail: seq<Point>, c1: int, c2: int)
    requires c1 <= c2
    ensures Prune(Prune(w, c1) + tail, c2) == Prune(w + tail, c2)
  {
    if |w| >= 2 && w[1].t <= c1 {
      PruneTwice(w[1..], tail, c1, c2);
      assert (w + tail)[1..] == w[1..] + tail;
    }
  }

  lemma {:induction false} PruneKeepsTail(w: seq<Point>, cutoff: int)
    requires w != []
    ensures Prune(w, cutoff) != [] && Prune(w, cutoff)[|Prune(w, cutoff)| - 1] == w[|w| - 1]
  {
    if |w| >= 2 && w[1].t <= cutoff {
      PruneKeepsTail(w[1..], cutoff);
    }
  }

  lemma NonEmpty(h: seq<Point>)
    requires h != []
    ensures Changes(h) != []
  {
  }

  /** One more observation: the window stays the pruned change-points of the
      whole history. */
  lemma WindowStep(h: seq<Point>, p: Point, c1: int, c2: int)
    requires h != [] && c1 <= c2
    ensures Prune(Append(Prune(Changes(h), c1), p), c2) == Prune(Changes(h + [p]), c2)
  {
    var c := Changes(h);
    assert (h + [p])[..|h|] == h;
    assert c != [] by {
      NonEmpty(h);
    }
    PruneKeepsTail(c, c1);
    if c[|c| - 1].n == p.n {
      PruneTwice(c, [], c1, c2);
      assert Prune(c, c1) + [] == Prune(c, c1) && c + [] == c;
    } else {
      PruneTwice(c, [p], c1, c2);
    }
  }

  lemma CountsSnoc(h: seq<Point>, p: Point, cutoff: int)
    requires Ordered(h + [p])
    ensures Counts(h + [p], cutoff) == (if h != [] && p.t > cutoff then Counts(h, cutoff) else {}) + {p.n}
  {
    var h' := h + [p];
    assert h'[|h|] == p && InForce(h', cutoff, |h|);
    forall k | 0 <= k < |h|
      ensures h'[k] == h[k] && (InForce(h', cutoff, k) <==> p.t > cutoff && InForce(h, cutoff, k))
    {
      if k + 1 < |h| {
        assert h'[k + 1] == h[k + 1] && h'[k + 1].t <= h'[|h|].t;
      }
    }
    forall n: nat
      ensures n in Counts(h', cutoff) <==> n in (if h != [] && p.t > cutoff then Counts(h, cutoff) else {}) + {p.n}
    {
      if n in Counts(h', cutoff) && n != p.n {
        var k :| 0 <= k < |h'| && InForce(h', cutoff, k) && h'[k].n == n;
        assert k < |h| && InForce(h, cutoff, k) && h[k].n == n;
      }
      if h != [] && p.t > cutoff && n in Counts(h, cutoff) {
        var k :| 0 <= k < |h| && InForce(h, cutoff, k) && h[k].n == n;
        assert InForce(h', cutoff, k) && h'[k].n == n;
      }
    }
  }

  lemma LastInForce(h: seq<Point>, cutoff: int)
    requires h != []
    ensures h[|h| - 1].n in Counts(h, cutoff)
  {
    assert InForce(h, cutoff, |h| - 1);
  }

  lemma AllBehind(h: seq<Point>, cutoff: int)
    requires h != [] && Ordered(h) && h[|h| - 1].t <= cutoff
    ensures Counts(h, cutoff) == {h[|h| - 1].n}
  {
    LastInForce(h, cutoff);
    forall k | 0 <= k < |h| - 1
      ensures !InForce(h, cutoff, k)
    {
      assert h[k + 1].t <= h[|h| - 1].t;
    }
  }

  /** An observation that repeats the last count adds nothing. */
  lemma Unchanged(c: seq<Point>, p: Point, cutoff: int)
    requires c != [] && Ordered(c) && c[|c| - 1].n == p.n && c[|c| - 1].t <= p.t
    ensures Counts(c, cutoff) == (if p.t > cutoff then Counts(c, cutoff) else {}) + {p.n}
  {
    LastInForce(c, cutoff);
    if p.t <= cutoff {
      AllBehind(c, cutoff);
    }
  }

  lemma NothingCounted(cutoff: int)
    ensures Counts([], cutoff) == {}
  {
  }

  /** The change-points alone say which counts were in force. */
  lemma {:induction false} ChangesCount(h: seq<Point>, cutoff: int)
    requires Ordered(h)
    ensures Counts(Changes(h), cutoff) == Counts(h, cutoff) && Ordered(Changes(h))
  {
    hide Counts;
    if h == [] {
      NothingCounted(cutoff);
    } else {
      var front, p := h[..|h| - 1], h[|h| - 1];
      ChangesCount(front, cutoff);
      assert h == front + [p];
      CountsSnoc(front, p, cutoff);
      var c := Changes(front);
      if front != [] {
        ChangesFacts(front);
      }
      if front != [] && c[|c| - 1].n == p.n {
        Unchanged(c, p, cutoff);
      } else {
        assert Ordered(c + [p]);
        CountsSnoc(c, p, cutoff);
      }
    }
  }

  ghost function Values(w: seq<Point>): set<nat> {
    set p | p in w :: p.n
  }

  /** What is left after pruning is exactly what was in force since the cutoff. */
  lemma {:induction false} PrunedValues(w: seq<Point>, cutoff: int)
    requires Ordered(w)
    ensures Values(Prune(w, cutoff)) == Counts(w, cutoff)
  {
    if |w| >= 2 && w[1].t <= cutoff {
      PrunedValues(w[1..], cutoff);
      forall n: nat
        ensures n in Counts(w, cutoff) <==> n in Counts(w[1..], cutoff)
      {
        if n in Counts(w, cutoff) {
          var k :| 0 <= k < |w| && InForce(w, cutoff, k) && w[k].n == n;
          assert k > 0 && InForce(w[1..], cutoff, k - 1) && w[1..][k - 1].n == n;
        }
        if n in Counts(w[1..], cutoff) {
          var k :| 0 <= k < |w[1..]| && InForce(w[1..], cutoff, k) && w[1..][k].n == n;
          assert InForce(w, cutoff, k + 1) && w[k + 1].n == n;
        }
      }
    } else {
      forall k | 0 <= k < |w|
        ensures InForce(w, cutoff, k)
      {
        if k + 1 < |w| {
          assert w[1].t <= w[k + 1].t || k == 0;
        }
      }
      forall n: nat
        ensures n in Values(w) <==> n in Counts(w, cutoff)
      {
        if n in Values(w) {
          var p :| p in w && p.n == n;
          var k :| 0 <= k < |w| && w[k] == p;
          assert InForce(w, cutoff, k);
        }
      }
    }
  }

  lemma {:induction false} PruneHead(w: seq<Point>, cutoff: int)
    requires w != []
    ensures Prune(w, cutoff) != [] && (Prune(w, cutoff)[0] == w[0] || Prune(w, cutoff)[0].t <= cutoff)
    ensures Ordered(w) ==> w[0].t <= Prune(w, cutoff)[0].t
  {
    if |w| >= 2 && w[1].t <= cutoff {
      PruneHead(w[1..], cutoff);
    }
  }

  /** A queue's window after its last sweep. */
  predicate Tracks(w: seq<Point>, h: seq<Point>, cutoff: int) {
    h != [] && Ordered(h) && w == Prune(Changes(h), cutoff)
  }

  /** The window answers what the whole history would: the counts in force over
      the drop window, and whether the queue has been observed long enough. */
  lemma WindowRefinesHistory(w: seq<Point>, h: seq<Point>, now: int)
    requires Tracks(w, h, now - DROP_WINDOW)
    ensures w != [] && Values(w) == Counts(h, now - DROP_WINDOW)
    ensures now - w[0].t >= DROP_WINDOW - COVERAGE_SLACK <==> now - h[0].t >= DROP_WINDOW - COVERAGE_SLACK
  {
    var cutoff := now - DROP_WINDOW;
    ChangesFacts(h);
    ChangesCount(h, cutoff);
    PrunedValues(Changes(h), cutoff);
    PruneHead(Changes(h), cutoff);
  }

  /** ... the sweep having been at `seenAt`. */
  predicate Current(w: seq<Point>, h: seq<Point>, seenAt: int) {
    Tracks(w, h, seenAt - DROP_WINDOW) && h[|h| - 1].t <= seenAt
  }

  /** The observations of a queue with one more. */
  function Longer(history: map<string, seq<Point>>, q: string, p: Point): seq<Point> {
    (if q in history then history[q] else []) + [p]
  }

  lemma SameObservations(h: map<string, seq<Point>>, h': map<string, seq<Point>>, q: string, p: Point)
    requires (q in h <==> q in h') && (q in h ==> h[q] == h'[q])
    ensures Longer(h, q, p) == Longer(h', q, p)
  {
  }

  datatype Drop = Drop(max: nat, current: nat, covered: bool)

  /** The largest count in force since the cutoff. */
  ghost predicate IsMax(m: nat, s: set<nat>) {
    m in s && forall n <- s :: n <= m
  }

  lemma FirstPoint(p: Point, cutoff: int)
    ensures Prune(Changes([p]), cutoff) == Prune([p], cutoff) == [p]
  {
    assert [p][..0] == [];
  }

  lemma WindowGrows(w: seq<Point>, h: seq<Point>, p: Point, last: int, now: int)
    requires w == h == [] || Current(w, h, last)
    requires last <= now && p.t == now
    ensures Current(Prune(Append(w, p), now - DROP_WINDOW), h + [p], now)
  {
    hide Prune, Changes;
    if h != [] {
      WindowStep(h, p, last - DROP_WINDOW, now - DROP_WINDOW);
    } else {
      FirstPoint(p, now - DROP_WINDOW);
      assert [] + [p] == [p];
    }
  }

  /** The windows of every observed queue. `history` is what was observed since
      the queue last appeared. */
  class Windows {
    var windows: map<string, seq<Point>>
    ghost var history: map<string, seq<Point>>
    ghost var last: int

    ghost predicate Valid()
      reads this
    {
      && windows.Keys == history.Keys
      && (forall q <- history :: Current(windows[q], history[q], last))
    }

    constructor ()
      ensures Valid() && history == map[]
    {
      windows, history, last := map[], map[], 0;
    }

    method PruneWindow(w: seq<Point>, now: int) returns (r: seq<Point>)
      ensures r == Prune(w, now - DROP_WINDOW)
    {
      var cutoff := now - DROP_WINDOW;
      var i := 0;
      assert w[0..] == w;
      while i + 1 < |w| && w[i + 1].t <= cutoff
        invariant 0 <= i <= |w| && Prune(w, cutoff) == Prune(w[i..], cutoff)
      {
        assert w[i..][1..] == w[i + 1..];
        i := i + 1;
      }
      r := w[i..];
    }

    /** Append one count to its queue's window and prune. */
    method ObserveOne(q: string, now: int, n: nat)
      requires last <= now && windows.Keys == history.Keys && (q in history ==> Current(windows[q], history[q], last))
      modifies this
      ensures windows.Keys == history.Keys && last == old(last) && q in history && Current(windows[q], history[q], now)
      ensures history == old(history)[q := Longer(old(history), q, Point(now, n))]
      ensures forall r :: r in old(windows) && r != q ==> r in windows && windows[r] == old(windows[r])
    {
      hide Current, Prune, Append;
      var w, p := if q in windows then windows[q] else [], Point(now, n);
      WindowGrows(w, if q in history then history[q] else [], p, last, now);
      w := PruneWindow(Append(w, p), now);
      windows, history := windows[q := w], history[q := Longer(history, q, p)];
    }

    /** One sweep: append this sweep's counts, prune to the horizon, and forget
        the queues that are gone. */
    method ObserveConsumers(now: int, snaps: map<string, nat>)
      requires Valid() && last <= now
      modifies this
      ensures Valid() && last == now && history.Keys == snaps.Keys
      ensures forall q :: q in snaps ==> history[q] == Longer(old(history), q, Point(now, snaps[q]))
    {
      hide Current, Longer;
      var todo := snaps.Keys;
      while todo != {}
        invariant todo <= snaps.Keys && windows.Keys == history.Keys && last == old(last)
        invariant forall q :: q in snaps && q !in todo ==>
                    q in history && Current(windows[q], history[q], now)
                    && history[q] == Longer(old(history), q, Point(now, snaps[q]))
        invariant forall q :: q in snaps && q in todo ==> (q in history <==> q in old(history))
        invariant forall q :: q in snaps && q in todo && q in history ==>
                    history[q] == old(history)[q] && Current(windows[q], history[q], last)
        decreases |todo|
      {
        var q :| q in todo;
        SameObservations(history, old(history), q, Point(now, snaps[q]));
        ObserveOne(q, now, snaps[q]);
        todo := todo - {q};
      }
      windows := map q | q in windows && q in snaps :: windows[q];
      history := map q | q in history && q in snaps :: history[q];
      last := now;
    }

    static method MaxCount(w: seq<Point>) returns (max: nat)
      requires w != []
      ensures IsMax(max, Values(w))
    {
      max := 0;
      for i := 0 to |w|
        invariant forall k :: 0 <= k < i ==> w[k].n <= max
        invariant if i == 0 then max == 0 else exists k :: 0 <= k < i && w[k].n == max
      {
        if w[i].n > max {
          max := w[i].n;
          assert w[i].n == max;
        } else if i == 0 {
          assert w[0].n == max;
        }
      }
      ghost var k :| 0 <= k < |w| && w[k].n == max;
      assert w[k] in w;
      forall n <- Values(w)
        ensures n <= max
      {
        var p :| p in w && p.n == n;
        var j :| 0 <= j < |w| && w[j] == p;
      }
    }

    /** The detector's view of one queue: the largest count in force over the
        drop window, and whether the queue has been observed long enough. */
    method Inputs(q: string, now: int, consumers: nat) returns (obs: Drop)
      requires Valid() && q in windows && now == last
      ensures obs.current == consumers
      ensures IsMax(obs.max, Counts(history[q], now - DROP_WINDOW) + {consumers})
      ensures obs.covered <==> now - history[q][0].t >= DROP_WINDOW - COVERAGE_SLACK
    {
      var w := windows[q];
      WindowRefinesHistory(w, history[q], now);
      var max := MaxCount(w);
      if consumers > max {
        max := consumers;
      }
      obs := Drop(max, consumers, |w| > 0 && now - w[0].t >= DROP_WINDOW - COVERAGE_SLACK);
    }
  }
}
