/** Compilation of a query for one state: a score range, a predicate, and how
    far the two agree. Times are in nanoseconds, scores in whole seconds. */
module AqlPlan {
  import opened Collections
  import opened AqlGate

  const SECOND: int := 1_000_000_000

  /** What the predicates read of a task; None is an unset time. `scan` answers
      the clauses that no score can. */
  datatype Task = Task(
    queue: string, state: State, nextProcessAt: Option<int>, lastFailedAt: Option<int>,
    completedAt: Option<int>, retention: int, archivedAt: Option<int>, scan: Clause -> bool)

  function Resolve(b: Bound, now: int): int {
    match b
    case Offset(d) => now + d
    case At(t) => t
  }

  /** Whole seconds, rounded down. */
  function Unix(t: int): int {
    t / SECOND
  }

  /** The clauses that range over the score of a state's sorted set. */
  predicate IsScore(c: Clause, s: State) {
    match c
    case NextRunUpTo(_) => s == Scheduled || s == Retry
    case NextRunFrom(_) => s == Scheduled || s == Retry
    case PastDue => s == Scheduled || s == Retry
    case Died(_) => s == Archived
    case Expires(_) => s == Completed
    case _ => false
  }

  predicate HasScore(s: State) {
    s == Scheduled || s == Retry || s == Archived || s == Completed
  }

  /** The range of a score clause; a missing bound is infinite. */
  function ScoreRange(c: Clause, now: int): (Option<int>, Option<int>) {
    match c
    case NextRunUpTo(b) => (None, Some(Unix(Resolve(b, now))))
    case NextRunFrom(b) => (Some(Unix(Resolve(b, now))), None)
    case PastDue => (None, Some(Unix(now)))
    case Died(age) => (None, Some(Unix(now - age)))
    case Expires(b) => (None, Some(Unix(Resolve(b, now))))
    case _ => (None, None)
  }

  /** The same clause on a task. */
  predicate ScorePredicate(c: Clause, now: int, t: Task) {
    match c
    case NextRunUpTo(b) => t.nextProcessAt.Some? && t.nextProcessAt.value <= Resolve(b, now)
    case NextRunFrom(b) => t.nextProcessAt.Some? && t.nextProcessAt.value >= Resolve(b, now)
    case PastDue => t.nextProcessAt.Some? && t.nextProcessAt.value <= now
    case Died(age) =>
      if t.archivedAt.Some? then t.archivedAt.value <= now - age
      else t.lastFailedAt.Some? ==> t.lastFailedAt.value <= now - age
    case Expires(b) => t.completedAt.Some? && t.retention > 0 && t.completedAt.value + t.retention <= Resolve(b, now)
    case _ => true
  }

  predicate Holds(c: Clause, now: int, t: Task, s: State) {
    match c
    case StateIs(_) => true
    case QueueIs(q) => t.queue == q
    case GroupIs(_) => true
    case _ => if IsScore(c, s) then ScorePredicate(c, now, t) else t.scan(c)
  }

  datatype Plan = Plan(
    state: State, min: Option<int>, max: Option<int>, cursor: bool, queue: Option<string>, group: Option<string>,
    preds: seq<Clause>, now: int)

  predicate InScoreRange(p: Plan, score: int) {
    (p.min.None? || p.min.value <= score) && (p.max.None? || score <= p.max.value)
  }

  predicate Match(p: Plan, t: Task) {
    t.state == p.state && forall i :: 0 <= i < |p.preds| ==> Holds(p.preds[i], p.now, t, p.state)
  }

  function Higher(a: Option<int>, b: Option<int>): Option<int> {
    if a.None? then b else if b.None? then a else Some(if a.value < b.value then b.value else a.value)
  }

  function Lower(a: Option<int>, b: Option<int>): Option<int> {
    if a.None? then b else if b.None? then a else Some(if a.value < b.value then a.value else b.value)
  }

  predicate InClauseRange(c: Clause, now: int, score: int) {
    var (lo, hi) := ScoreRange(c, now);
    (lo.None? || lo.value <= score) && (hi.None? || score <= hi.value)
  }

  /** Every score clause narrows the range. */
  predicate InEveryRange(cs: seq<Clause>, s: State, now: int, score: int) {
    forall i :: 0 <= i < |cs| && IsScore(cs[i], s) ==> InClauseRange(cs[i], now, score)
  }

  /** A clause that leaves the score range able to answer alone. */
  predicate Cursorable(c: Clause, s: State) {
    c.StateIs? || c.QueueIs? || IsScore(c, s)
  }

  /** The queue and the group a query names; the last one named counts. */
  function Scope(cs: seq<Clause>): (Option<string>, Option<string>) {
    if cs == [] then (None, None) else
      var (queue, group) := Scope(cs[..|cs| - 1]);
      match cs[|cs| - 1]
      case QueueIs(q) => (Some(q), group)
      case GroupIs(g) => (queue, Some(g))
      case _ => (queue, group)
  }

  lemma ScopeSnoc(cs: seq<Clause>, i: nat)
    requires i < |cs|
    ensures Scope(cs[..i + 1]).0 == if cs[i].QueueIs? then Some(cs[i].queue) else Scope(cs[..i]).0
    ensures Scope(cs[..i + 1]).1 == if cs[i].GroupIs? then Some(cs[i].group) else Scope(cs[..i]).1
  {
    assert cs[..i + 1][..i] == cs[..i];
  }

  /** Nothing is named after the clause that counts. */
  lemma {:induction false} ScopeIsLast(cs: seq<Clause>, i: nat)
    requires i < |cs|
    ensures cs[i].QueueIs? && (forall k :: i < k < |cs| ==> !cs[k].QueueIs?) ==> Scope(cs).0 == Some(cs[i].queue)
    ensures cs[i].GroupIs? && (forall k :: i < k < |cs| ==> !cs[k].GroupIs?) ==> Scope(cs).1 == Some(cs[i].group)
  {
    if i + 1 < |cs| {
      ScopeIsLast(cs[..|cs| - 1], i);
    }
  }

  lemma {:induction false} ScopeIfNamed(cs: seq<Clause>)
    ensures Scope(cs).0.None? <==> forall i :: 0 <= i < |cs| ==> !cs[i].QueueIs?
    ensures Scope(cs).1.None? <==> forall i :: 0 <= i < |cs| ==> !cs[i].GroupIs?
  {
    if cs != [] {
      ScopeIfNamed(cs[..|cs| - 1]);
      assert forall i :: 0 <= i < |cs| ==> cs[i] == if i < |cs| - 1 then cs[..|cs| - 1][i] else cs[|cs| - 1];
    }
  }

  lemma RangeSnoc(cs: seq<Clause>, i: nat, s: State, now: int, score: int)
    requires i < |cs|
    ensures InEveryRange(cs[..i + 1], s, now, score) <==>
              InEveryRange(cs[..i], s, now, score) && (IsScore(cs[i], s) ==> InClauseRange(cs[i], now, score))
  {
    hide InClauseRange, IsScore;
    forall k | 0 <= k < i
      ensures cs[..i + 1][k] == cs[..i][k]
    {
    }
    if InEveryRange(cs[..i + 1], s, now, score) {
      assert cs[..i + 1][i] == cs[i];
    }
  }

  /** Narrowing a range by a clause's range is intersecting them. */
  lemma Narrowed(p: Plan, c: Clause, score: int)
    ensures var (lo, hi) := ScoreRange(c, p.now);
            InScoreRange(p.(min := Higher(p.min, lo), max := Lower(p.max, hi)), score) <==>
              InScoreRange(p, score) && InClauseRange(c, p.now, score)
  {
  }

  lemma MatchSnoc(p: Plan, p': Plan, c: Clause, t: Task)
    requires p'.state == p.state && p'.now == p.now && p'.preds == p.preds + [c]
    ensures Match(p', t) <==> Match(p, t) && Holds(c, p.now, t, p.state)
  {
    hide Holds;
    if Match(p', t) {
      assert p'.preds[|p.preds|] == c;
      forall k | 0 <= k < |p.preds|
        ensures Holds(p.preds[k], p.now, t, p.state)
      {
        assert p'.preds[k] == p.preds[k];
      }
    }
  }

  lemma SameRange(p: Plan, p': Plan, score: int)
    ensures p'.min == p.min && p'.max == p.max ==> (InScoreRange(p', score) <==> InScoreRange(p, score))
  {
  }

  lemma SamePreds(p: Plan, p': Plan, t: Task)
    ensures p'.preds == p.preds && p'.state == p.state && p'.now == p.now ==> (Match(p', t) <==> Match(p, t))
  {
  }

  lemma Unconditional(c: Clause, now: int, t: Task, s: State)
    ensures c.StateIs? || c.GroupIs? ==> Holds(c, now, t, s)
  {
  }

  /** One clause folded into a plan. */
  method AddClause(plan: Plan, c: Clause) returns (p: Plan)
    ensures p.state == plan.state && p.now == plan.now
    ensures forall score: int :: InScoreRange(p, score) <==>
              InScoreRange(plan, score) && (IsScore(c, p.state) ==> InClauseRange(c, p.now, score))
    ensures forall t: Task :: Match(p, t) <==> Match(plan, t) && Holds(c, p.now, t, p.state)
    ensures p.cursor <==> plan.cursor && Cursorable(c, p.state)
    ensures p.queue == (if c.QueueIs? then Some(c.queue) else plan.queue)
    ensures p.group == (if c.GroupIs? then Some(c.group) else plan.group)
    ensures forall d <- p.preds :: d in plan.preds || d == c
  {
    hide Holds, InScoreRange, Match, InClauseRange, Higher, Lower, ScoreRange;
    p := plan;
    match c {
      case StateIs(_) =>
      case QueueIs(q) => p := p.(queue := Some(q), preds := p.preds + [c]);
      case GroupIs(g) => p := p.(group := Some(g), cursor := false);
      case _ =>
        if IsScore(c, p.state) {
          var (lo, hi) := ScoreRange(c, p.now);
          p := p.(min := Higher(p.min, lo), max := Lower(p.max, hi), preds := p.preds + [c]);
        } else {
          p := p.(cursor := false, preds := p.preds + [c]);
        }
    }
    forall score: int
      ensures InScoreRange(p, score) <==>
                InScoreRange(plan, score) && (IsScore(c, p.state) ==> InClauseRange(c, p.now, score))
    {
      Narrowed(plan, c, score);
      SameRange(plan, p, score);
      SameRange(plan.(min := p.min, max := p.max), p, score);
    }
    forall t: Task
      ensures Match(p, t) <==> Match(plan, t) && Holds(c, p.now, t, p.state)
    {
      Unconditional(c, p.now, t, p.state);
      SamePreds(plan, p, t);
      if p.preds == plan.preds + [c] {
        MatchSnoc(plan, p, c, t);
      }
    }
  }

  /** Compile a query for a state: refused exactly when the state cannot answer
      some clause; else the plan's range is the intersection of the clauses'
      ranges, its predicate is their conjunction, and it lists by cursor
      exactly when the state has scores and no clause needs a scan. */
  method Compile(cs: seq<Clause>, s: State, now: int) returns (p: Option<Plan>)
    ensures p.Some? <==> Answers(cs, s)
    ensures p.Some? ==>
              && p.value.state == s && p.value.now == now
              && (forall score: int :: InScoreRange(p.value, score) <==> InEveryRange(cs, s, now, score))
              && (forall t: Task :: Match(p.value, t) <==>
                    t.state == s && forall i :: 0 <= i < |cs| ==> Holds(cs[i], now, t, s))
              && (p.value.cursor <==> HasScore(s) && forall i :: 0 <= i < |cs| ==> Cursorable(cs[i], s))
              && (forall c <- p.value.preds :: c in cs)
              && (p.value.queue, p.value.group) == Scope(cs)
  {
    for i := 0 to |cs|
      invariant forall k :: 0 <= k < i ==> AllowedIn(cs[k], s)
    {
      if !AllowedIn(cs[i], s) {
        return None;
      }
    }
    var plan := Plan(s, None, None, HasScore(s), None, None, [], now);
    for i := 0 to |cs|
      invariant plan.state == s && plan.now == now
      invariant forall score: int :: InScoreRange(plan, score) <==> InEveryRange(cs[..i], s, now, score)
      invariant forall t: Task :: Match(plan, t) <==>
                  t.state == s && forall k :: 0 <= k < i ==> Holds(cs[k], now, t, s)
      invariant plan.cursor <==> HasScore(s) && forall k :: 0 <= k < i ==> Cursorable(cs[k], s)
      invariant forall c <- plan.preds :: c in cs
      invariant (plan.queue, plan.group) == Scope(cs[..i])
    {
      hide Holds, InScoreRange, InEveryRange, Match, InClauseRange, Scope, Cursorable;
      ScopeSnoc(cs, i);
      plan := AddClause(plan, cs[i]);
      forall score: int {
        RangeSnoc(cs, i, s, now, score);
      }
    }
    assert cs[..|cs|] == cs;
    p := Some(plan);
  }

  // --- what the time clauses say ---

  /** A bound counted from now, and a date. */
  predicate Moment(b: Bound, now: int, at: int) {
    b == Offset(at - now) || b == At(at)
  }

  lemma UpTo(score: int, t: int)
    ensures score * SECOND <= t <==> score <= Unix(t)
    ensures score * SECOND >= t <==> score >= Unix(t) && !(t % SECOND != 0 && score == Unix(t))
  {
    assert t == SECOND * (t / SECOND) + t % SECOND;
  }

  /** A clause on the next run, on a task and as a range of scores. A second is
      in the range of an upper bound when it does not begin beyond it, and in
      that of a lower bound when it does not end before it. */
  lemma NextRunMeans(b: Bound, now: int, at: int, s: State)
    requires Moment(b, now, at) && (s == Scheduled || s == Retry)
    ensures forall t: Task :: Holds(NextRunUpTo(b), now, t, s) <==> t.nextProcessAt.Some? && t.nextProcessAt.value <= at
    ensures forall t: Task :: Holds(NextRunFrom(b), now, t, s) <==> t.nextProcessAt.Some? && t.nextProcessAt.value >= at
    ensures forall score: int :: InClauseRange(NextRunUpTo(b), now, score) <==> score * SECOND <= at
    ensures forall score: int :: InClauseRange(NextRunFrom(b), now, score) <==> (score + 1) * SECOND > at
  {
    forall score: int
      ensures InClauseRange(NextRunUpTo(b), now, score) <==> score * SECOND <= at
      ensures InClauseRange(NextRunFrom(b), now, score) <==> (score + 1) * SECOND > at
    {
      UpTo(score, at);
      UpTo(score + 1, at);
    }
  }

  lemma PastDueMeans(now: int, s: State)
    requires s == Scheduled || s == Retry
    ensures forall t: Task :: Holds(PastDue, now, t, s) <==> t.nextProcessAt.Some? && t.nextProcessAt.value <= now
    ensures forall score: int :: InClauseRange(PastDue, now, score) <==> score * SECOND <= now
  {
    forall score: int
      ensures InClauseRange(PastDue, now, score) <==> score * SECOND <= now
    {
      UpTo(score, now);
    }
  }

  /** A task died when it was archived, or else when it last failed; when
      neither is known it is listed. */
  lemma DiedMeans(age: int, now: int)
    ensures forall t: Task :: Holds(Died(age), now, t, Archived) <==>
              if t.archivedAt.Some? then t.archivedAt.value + age <= now
              else t.lastFailedAt.None? || t.lastFailedAt.value + age <= now
    ensures forall score: int :: InClauseRange(Died(age), now, score) <==> score * SECOND + age <= now
  {
    forall score: int
      ensures InClauseRange(Died(age), now, score) <==> score * SECOND + age <= now
    {
      UpTo(score, now - age);
    }
  }

  /** A completed task expires at the end of its retention; one that is not
      retained has no such time. */
  lemma ExpiresMeans(b: Bound, now: int, at: int)
    requires Moment(b, now, at)
    ensures forall t: Task :: Holds(Expires(b), now, t, Completed) <==>
              t.completedAt.Some? && t.retention > 0 && t.completedAt.value + t.retention <= at
    ensures forall score: int :: InClauseRange(Expires(b), now, score) <==> score * SECOND <= at
  {
    forall score: int
      ensures InClauseRange(Expires(b), now, score) <==> score * SECOND <= at
    {
      UpTo(score, at);
    }
  }

  /** The plan of a query of one clause on a time. */
  method CompileOne(c: Clause, s: State, now: int) returns (p: Option<Plan>)
    requires IsScore(c, Scheduled) || IsScore(c, Archived) || IsScore(c, Completed)
    ensures p.Some? <==> IsScore(c, s)
    ensures p.Some? ==> p.value.cursor
    ensures p.Some? ==> forall t: Task :: Match(p.value, t) <==> t.state == s && Holds(c, now, t, s)
    ensures p.Some? ==> forall score: int :: InScoreRange(p.value, score) <==> InClauseRange(c, now, score)
  {
    hide Holds, InClauseRange, Match, InScoreRange;
    p := Compile([c], s, now);
    assert p.Some? <==> AllowedIn([c][0], s);
    if p.Some? {
      forall score: int
        ensures InEveryRange([c], s, now, score) <==> InClauseRange([c][0], now, score)
      {
      }
      forall t: Task
        ensures (forall i :: 0 <= i < |[c]| ==> Holds([c][i], now, t, s)) <==> Holds([c][0], now, t, s)
      {
      }
    }
  }

  /** The plan of one bound on the next run. */
  method NextRunPlan(b: Bound, below: bool, s: State, now: int, ghost at: int) returns (p: Option<Plan>)
    requires Moment(b, now, at)
    ensures p.Some? <==> s == Scheduled || s == Retry
    ensures p.Some? ==> p.value.cursor
    ensures p.Some? ==> forall t: Task :: Match(p.value, t) <==>
              && t.state == s && t.nextProcessAt.Some?
              && if below then t.nextProcessAt.value <= at else t.nextProcessAt.value >= at
    ensures p.Some? ==> forall score: int :: InScoreRange(p.value, score) <==>
              if below then score * SECOND <= at else (score + 1) * SECOND > at
  {
    hide Holds, InClauseRange, Match, InScoreRange;
    p := CompileOne(if below then NextRunUpTo(b) else NextRunFrom(b), s, now);
    if p.Some? {
      NextRunMeans(b, now, at, s);
    }
  }

  /** The plan of a query for what should have run by now. */
  method PastDuePlan(s: State, now: int) returns (p: Option<Plan>)
    ensures p.Some? <==> s == Scheduled || s == Retry
    ensures p.Some? ==> p.value.cursor
    ensures p.Some? ==> forall t: Task :: Match(p.value, t) <==>
              t.state == s && t.nextProcessAt.Some? && t.nextProcessAt.value <= now
    ensures p.Some? ==> forall score: int :: InScoreRange(p.value, score) <==> score * SECOND <= now
  {
    hide Holds, InClauseRange, Match, InScoreRange;
    p := CompileOne(PastDue, s, now);
    if p.Some? {
      PastDueMeans(now, s);
    }
  }

  /** The plan of a query for what died long enough ago. */
  method DiedPlan(age: int, s: State, now: int) returns (p: Option<Plan>)
    ensures p.Some? <==> s == Archived
    ensures p.Some? ==> p.value.cursor
    ensures p.Some? ==> forall t: Task :: Match(p.value, t) <==>
              && t.state == Archived
              && if t.archivedAt.Some? then t.archivedAt.value + age <= now
                 else t.lastFailedAt.None? || t.lastFailedAt.value + age <= now
    ensures p.Some? ==> forall score: int :: InScoreRange(p.value, score) <==> score * SECOND + age <= now
  {
    hide Holds, InClauseRange, Match, InScoreRange;
    p := CompileOne(Died(age), s, now);
    if p.Some? {
      DiedMeans(age, now);
    }
  }

  /** The plan of a query for what is kept no longer than a bound. */
  method ExpiresPlan(b: Bound, s: State, now: int, ghost at: int) returns (p: Option<Plan>)
    requires Moment(b, now, at)
    ensures p.Some? <==> s == Completed
    ensures p.Some? ==> p.value.cursor
    ensures p.Some? ==> forall t: Task :: Match(p.value, t) <==>
              t.state == Completed && t.completedAt.Some? && t.retention > 0 && t.completedAt.value + t.retention <= at
    ensures p.Some? ==> forall score: int :: InScoreRange(p.value, score) <==> score * SECOND <= at
  {
    hide Holds, InClauseRange, Match, InScoreRange;
    p := CompileOne(Expires(b), s, now);
    if p.Some? {
      ExpiresMeans(b, now, at);
    }
  }

  // --- the fast form and the predicate ---

  /** The information a task carries when its sorted-set score is `score`. */
  predicate FromScore(t: Task, s: State, score: int) {
    && t.state == s
    && (s == Scheduled || s == Retry ==> t.nextProcessAt == Some(score * SECOND))
    && (s == Archived ==> t.archivedAt == Some(score * SECOND))
    && (s == Completed ==> t.completedAt.Some? && t.retention > 0 && t.completedAt.value + t.retention == score * SECOND)
  }

  /** The one disagreement: a lower bound inside a second is rounded down for
      the range and not for the predicate, so the second it falls in is in
      range and does not match. */
  predicate RoundedIn(c: Clause, now: int, score: int) {
    c.NextRunFrom? && Resolve(c.bound, now) % SECOND != 0 && score == Unix(Resolve(c.bound, now))
  }

  lemma ClauseAgrees(c: Clause, s: State, now: int, t: Task, score: int)
    requires IsScore(c, s) && FromScore(t, s, score)
    ensures Holds(c, now, t, s) <==> InClauseRange(c, now, score) && !RoundedIn(c, now, score)
  {
    match c
    case NextRunUpTo(b) => UpTo(score, Resolve(b, now));
    case NextRunFrom(b) => UpTo(score, Resolve(b, now));
    case PastDue => UpTo(score, now);
    case Died(age) => UpTo(score, now - age);
    case Expires(b) => UpTo(score, Resolve(b, now));
  }

  /** In a cursor plan, a task of the plan's queue matches exactly when its
      score is in the plan's range and no lower bound was rounded onto it. */
  lemma CursorPlanAgrees(cs: seq<Clause>, s: State, now: int, p: Plan, t: Task, score: int)
    requires p.state == s && p.now == now && HasScore(s)
    requires forall i :: 0 <= i < |cs| ==> Cursorable(cs[i], s)
    requires InScoreRange(p, score) <==> InEveryRange(cs, s, now, score)
    requires Match(p, t) <==> t.state == s && forall i :: 0 <= i < |cs| ==> Holds(cs[i], now, t, s)
    requires FromScore(t, s, score) && forall i :: 0 <= i < |cs| && cs[i].QueueIs? ==> t.queue == cs[i].queue
    ensures Match(p, t) <==>
              InScoreRange(p, score) && forall i :: 0 <= i < |cs| ==> !RoundedIn(cs[i], now, score)
  {
    hide InClauseRange, Match, InScoreRange;
    forall i | 0 <= i < |cs|
      ensures Holds(cs[i], now, t, s) <==>
                (IsScore(cs[i], s) ==> InClauseRange(cs[i], now, score)) && !RoundedIn(cs[i], now, score)
    {
      if IsScore(cs[i], s) {
        ClauseAgrees(cs[i], s, now, t, score);
      }
    }
  }

  /** A task due at second 10, and a query for tasks due from half a second later. */
  const DUE_AT_TEN := Task("q", Scheduled, Some(10 * SECOND), None, None, 0, None, _ => false)
  const FROM_HALF_PAST_TEN := [NextRunFrom(At(10 * SECOND + SECOND / 2))]

  lemma HalfSecondRoundedIn(now: int)
    ensures var c := FROM_HALF_PAST_TEN[0];
            && InClauseRange(c, now, 10) && RoundedIn(c, now, 10) && !ScorePredicate(c, now, DUE_AT_TEN)
  {
    assert (10 * SECOND + SECOND / 2) % SECOND == SECOND / 2;
  }

  /** The range of the query's plan holds the task's score, and a listing by
      cursor would show it, but the query does not hold of the task. */
  method HalfSecond(now: int) returns (p: Option<Plan>)
    ensures FromScore(DUE_AT_TEN, Scheduled, 10) && !Holds(FROM_HALF_PAST_TEN[0], now, DUE_AT_TEN, Scheduled)
    ensures p.Some? && p.value.cursor && InScoreRange(p.value, 10) && !Match(p.value, DUE_AT_TEN)
  {
    var cs := FROM_HALF_PAST_TEN;
    HalfSecondRoundedIn(now);
    p := Compile(cs, Scheduled, now);
    CursorPlanAgrees(cs, Scheduled, now, p.value, DUE_AT_TEN, 10);
  }

  /** A gated query, its resolved state and its plan: resolution and compilation
      never disagree about what can be answered. */
  method ResolveAndCompile(cs: seq<Clause>, caller: Caller, now: int) returns (p: Option<Plan>)
    requires Answerable(cs)
    ensures p.None? <==>
              (forall i :: 0 <= i < |cs| ==> !cs[i].StateIs?)
              && (caller == Unknown || (caller.Named? && !Answers(cs, caller.state)))
    ensures p.Some? && p.value.cursor ==>
              forall t: Task, score: int ::
                FromScore(t, p.value.state, score)
                && (forall i :: 0 <= i < |cs| && cs[i].QueueIs? ==> t.queue == cs[i].queue) ==>
                  (Match(p.value, t) <==>
                   InScoreRange(p.value, score) && forall i :: 0 <= i < |cs| ==> !RoundedIn(cs[i], now, score))
  {
    hide Match, InScoreRange, FromScore, RoundedIn, InEveryRange, Holds;
    p := None;
    var s := ResolveState(cs, caller);
    if s.Some? {
      p := Compile(cs, s.value, now);
      if p.value.cursor {
        forall t: Task, score: int | FromScore(t, p.value.state, score)
                                     && (forall i :: 0 <= i < |cs| && cs[i].QueueIs? ==> t.queue == cs[i].queue)
          ensures Match(p.value, t) <==>
                    InScoreRange(p.value, score) && forall i :: 0 <= i < |cs| ==> !RoundedIn(cs[i], now, score)
        {
          CursorPlanAgrees(cs, s.value, now, p.value, t, score);
        }
      }
    }
  }
}
