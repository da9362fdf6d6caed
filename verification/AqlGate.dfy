/** Which task states a query can be answered in: the field table, the gate a
    parsed query passes, and the state a listing resolves to. */
module AqlGate {
  import opened Collections

  datatype State = Pending | Active | Scheduled | Retry | Archived | Completed | Aggregating

  const STATES: seq<State> := [Pending, Active, Scheduled, Retry, Archived, Completed, Aggregating]

  /** Fields whose predicates read the task message or live worker data. */
  datatype Field =
    | Type | Id | Payload | Meta | Retries | ErrorText | PendingAge | Running | DeadlinePct
    | FailedAfter | FailedBefore | GroupAge | Orphaned

  /** A bound is an offset from now or an absolute time, in nanoseconds. */
  datatype Bound = Offset(nanos: int) | At(nanos: int)

  datatype Clause =
    | FreeText(word: string)
    | StateIs(state: State)
    | QueueIs(queue: string)
    | GroupIs(group: string)
    | NextRunUpTo(bound: Bound)
    | NextRunFrom(bound: Bound)
    | PastDue
    | Died(age: int)
    | Expires(bound: Bound)
    | Other(field: Field, value: string)

  /** The states that hold the data a field reads; None is every state. */
  function FieldStates(f: Field): Option<seq<State>> {
    match f
    case Retries => Some([Pending, Active, Scheduled, Retry, Archived, Aggregating])
    case ErrorText => Some([Retry, Archived])
    case PendingAge => Some([Pending])
    case Running => Some([Active])
    case DeadlinePct => Some([Active])
    case FailedAfter => Some([Retry, Archived])
    case FailedBefore => Some([Retry, Archived])
    case GroupAge => Some([Aggregating])
    case Orphaned => Some([Active])
    case _ => None
  }

  function ClauseStates(c: Clause): Option<seq<State>> {
    match c
    case FreeText(_) => None
    case StateIs(s) => Some([s])
    case QueueIs(_) => None
    case GroupIs(_) => Some([Aggregating])
    case NextRunUpTo(_) => Some([Scheduled, Retry])
    case NextRunFrom(_) => Some([Scheduled, Retry])
    case PastDue => Some([Scheduled, Retry])
    case Died(_) => Some([Archived])
    case Expires(_) => Some([Completed])
    case Other(f, _) => FieldStates(f)
  }

  predicate AllowedIn(c: Clause, s: State) {
    ClauseStates(c).None? || s in ClauseStates(c).value
  }

  /** A state that can answer every clause. */
  predicate Answers(cs: seq<Clause>, s: State) {
    forall i :: 0 <= i < |cs| ==> AllowedIn(cs[i], s)
  }

  ghost predicate Answerable(cs: seq<Clause>) {
    exists s: State :: Answers(cs, s)
  }

  function Place(s: State): (k: nat)
    ensures k < |STATES| && STATES[k] == s
  {
    match s
    case Pending => 0
    case Active => 1
    case Scheduled => 2
    case Retry => 3
    case Archived => 4
    case Completed => 5
    case Aggregating => 6
  }

  predicate InOrder(a: seq<State>) {
    forall i, j :: 0 <= i < j < |a| ==> Place(a[i]) < Place(a[j])
  }

  method Intersect(a: seq<State>, b: seq<State>) returns (out: seq<State>)
    requires InOrder(a)
    ensures forall s: State :: s in out <==> s in a && s in b
    ensures InOrder(out)
  {
    hide Place;
    out := [];
    for i := 0 to |a|
      invariant forall s: State :: s in out <==> s in a[..i] && s in b
      invariant InOrder(out)
    {
      assert a[..i + 1] == a[..i] + [a[i]];
      forall s | s in out
        ensures Place(s) < Place(a[i])
      {
        var k :| 0 <= k < i && a[k] == s;
      }
      if a[i] in b {
        out := out + [a[i]];
      }
    }
    assert a[..|a|] == a;
  }

  lemma EveryState()
    ensures InOrder(STATES) && forall s: State :: s in STATES
  {
    forall s: State
      ensures s in STATES
    {
      assert STATES[Place(s)] == s;
    }
  }

  lemma AnswersSnoc(cs: seq<Clause>, i: nat, s: State)
    requires i < |cs|
    ensures Answers(cs[..i + 1], s) <==> Answers(cs[..i], s) && AllowedIn(cs[i], s)
  {
    if Answers(cs[..i + 1], s) {
      forall k | 0 <= k < i
        ensures AllowedIn(cs[..i][k], s)
      {
        assert cs[..i + 1][k] == cs[..i][k];
      }
      assert cs[..i + 1][i] == cs[i];
    }
  }

  lemma PrefixAnswers(cs: seq<Clause>, n: nat)
    requires n <= |cs|
    ensures forall s: State :: Answers(cs, s) ==> Answers(cs[..n], s)
  {
  }

  /** The gate: refuse at the clause that leaves no state, which is to refuse
      exactly the queries no single state can answer. */
  method GateStates(cs: seq<Clause>) returns (refusedAt: Option<nat>)
    ensures refusedAt.None? <==> Answerable(cs)
    ensures refusedAt.Some? ==>
              refusedAt.value < |cs| && Answerable(cs[..refusedAt.value]) && !Answerable(cs[..refusedAt.value + 1])
  {
    var allowed := STATES;
    EveryState();
    for i := 0 to |cs|
      invariant forall s: State :: s in allowed <==> Answers(cs[..i], s)
      invariant allowed != [] && InOrder(allowed)
    {
      assert allowed[0] in allowed;
      forall s: State {
        AnswersSnoc(cs, i, s);
      }
      if ClauseStates(cs[i]).Some? {
        var next := Intersect(allowed, ClauseStates(cs[i]).value);
        if next == [] {
          PrefixAnswers(cs, i + 1);
          return Some(i);
        }
        allowed := next;
      }
    }
    assert cs[..|cs|] == cs && allowed[0] in allowed;
    refusedAt := None;
  }

  /** Every state that can answer the query, in order. */
  method AllowedStates(cs: seq<Clause>) returns (allowed: seq<State>)
    ensures InOrder(allowed)
    ensures forall s: State :: s in allowed <==> Answers(cs, s)
  {
    allowed := STATES;
    EveryState();
    for i := 0 to |cs|
      invariant forall s: State :: s in allowed <==> Answers(cs[..i], s)
      invariant InOrder(allowed)
    {
      forall s: State {
        AnswersSnoc(cs, i, s);
      }
      if ClauseStates(cs[i]).Some? {
        allowed := Intersect(allowed, ClauseStates(cs[i]).value);
      }
    }
    assert cs[..|cs|] == cs;
  }

  /** The state the caller shows; a name that is no state is answerable nowhere. */
  datatype Caller = NoState | Named(state: State) | Unknown

  method ExplicitState(cs: seq<Clause>) returns (s: Option<State>)
    ensures s.Some? ==> StateIs(s.value) in cs
    ensures s.None? ==> forall i :: 0 <= i < |cs| ==> !cs[i].StateIs?
  {
    for i := 0 to |cs|
      invariant forall k :: 0 <= k < i ==> !cs[k].StateIs?
    {
      if cs[i].StateIs? {
        return Some(cs[i].state);
      }
    }
    s := None;
  }

  /** The state a gated query enumerates. It can always answer the query: the
      one the query names, else the one the caller shows, else pending if that
      can answer, else the first that can. The only refusal is of a caller's
      state that cannot, in a query that names no state itself. */
  method ResolveState(cs: seq<Clause>, caller: Caller) returns (s: Option<State>)
    requires Answerable(cs)
    ensures s.Some? ==> Answers(cs, s.value)
    ensures forall i :: 0 <= i < |cs| && cs[i].StateIs? ==> s == Some(cs[i].state)
    ensures s.None? <==>
              (forall i :: 0 <= i < |cs| ==> !cs[i].StateIs?)
              && (caller == Unknown || (caller.Named? && !Answers(cs, caller.state)))
    ensures (forall i :: 0 <= i < |cs| ==> !cs[i].StateIs?) && s.Some? ==>
              match caller
              case Named(shown) => s.value == shown
              case _ => if Answers(cs, Pending) then s.value == Pending
                        else forall k :: 0 <= k < Place(s.value) ==> !Answers(cs, STATES[k])
  {
    var explicit := ExplicitState(cs);
    if explicit.Some? {
      ghost var t: State :| Answers(cs, t);
      forall i | 0 <= i < |cs| && cs[i].StateIs?
        ensures cs[i].state == t
      {
        assert AllowedIn(cs[i], t);
      }
      return explicit;
    }
    var allowed := AllowedStates(cs);
    if caller != NoState {
      return if caller.Named? && caller.state in allowed then Some(caller.state) else None;
    }
    ghost var t: State :| Answers(cs, t);
    assert t in allowed && allowed[0] in allowed;
    assert forall j :: 0 <= j < |allowed| ==> Place(allowed[0]) <= Place(allowed[j]);
    assert forall k :: 0 <= k < Place(allowed[0]) ==> Place(STATES[k]) == k && STATES[k] !in allowed;
    if |allowed| == 1 {
      return Some(allowed[0]);
    }
    s := Some(if Pending in allowed then Pending else allowed[0]);
  }
}
