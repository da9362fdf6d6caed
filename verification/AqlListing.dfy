/** A compiled query listed by cursor: what the pages show against what the
    query means. */
module AqlListing {
  import opened Collections
  import opened SortedSet
  import opened AqlGate
  import opened AqlPlan
  import AqlCursor

  /** The listing of a plan: its score range over the resolved queues' sets. */
  function ListingOf(p: Plan, queues: seq<string>, zsets: map<string, seq<Entry>>,
                     live: (string, Entry) -> bool): AqlCursor.Listing {
    AqlCursor.Listing(queues, zsets, live, p.min, p.max)
  }

  /** The tasks carry what their scores say, and lie in the queues the query names. */
  ghost predicate Told(cs: seq<Clause>, s: State, l: AqlCursor.Listing, info: (string, Entry) -> Task) {
    forall q: string, e: Entry :: q in l.queues && e in AqlCursor.Zset(l, q) ==>
      && FromScore(info(q, e), s, e.score) && info(q, e).queue == q
      && forall i :: 0 <= i < |cs| && cs[i].QueueIs? ==> q == cs[i].queue
  }

  /** A clause meets a score's range exactly when it holds of the task or its
      bound was rounded onto the score. */
  lemma RangeOrRounded(c: Clause, s: State, now: int, t: Task, score: int)
    requires AllowedIn(c, s) && Cursorable(c, s) && HasScore(s) && FromScore(t, s, score)
    requires c.QueueIs? ==> t.queue == c.queue
    ensures (IsScore(c, s) ==> InClauseRange(c, now, score)) <==> Holds(c, now, t, s) || RoundedIn(c, now, score)
  {
    if IsScore(c, s) {
      ClauseAgrees(c, s, now, t, score);
    }
  }

  /** A query over scores, listed page by page to the end: exactly the live
      tasks that meet every clause, each once and in (queue, score, id) order,
      and those whose second one of its lower bounds falls inside. */
  method ListMatching(cs: seq<Clause>, s: State, now: int, queues: seq<string>, zsets: map<string, seq<Entry>>,
                      live: (string, Entry) -> bool, ghost info: (string, Entry) -> Task, requested: int)
    returns (rows: Option<seq<AqlCursor.Row>>)
    requires AqlCursor.Valid(AqlCursor.Listing(queues, zsets, live, None, None)) && requested >= 1
    requires Told(cs, s, AqlCursor.Listing(queues, zsets, live, None, None), info)
    ensures rows.Some? <==> Answers(cs, s) && HasScore(s) && forall i :: 0 <= i < |cs| ==> Cursorable(cs[i], s)
    ensures rows.Some? ==> AqlCursor.InOrder(rows.value)
    ensures rows.Some? ==> forall r: AqlCursor.Row :: r in rows.value <==>
              && r.queue in queues && r.queue in zsets && r.entry in zsets[r.queue] && live(r.queue, r.entry)
              && forall i :: 0 <= i < |cs| ==>
                   Holds(cs[i], now, info(r.queue, r.entry), s) || RoundedIn(cs[i], now, r.entry.score)
  {
    hide Holds, RoundedIn, InClauseRange, Match, FromScore, IsScore, AllowedIn, Cursorable, HasScore, Ascending, Sorted;
    var p := Compile(cs, s, now);
    if p.None? || !p.value.cursor {
      return None;
    }
    var l := ListingOf(p.value, queues, zsets, live);
    var all, calls := AqlCursor.ListAll(l, requested);
    forall q: string, e: Entry | q in queues && e in AqlCursor.Zset(l, q)
      ensures InRange(l.min, l.max, e) <==>
                forall i :: 0 <= i < |cs| ==> Holds(cs[i], now, info(q, e), s) || RoundedIn(cs[i], now, e.score)
    {
      assert InRange(l.min, l.max, e) <==> InScoreRange(p.value, e.score);
      forall i | 0 <= i < |cs|
        ensures (IsScore(cs[i], s) ==> InClauseRange(cs[i], now, e.score)) <==>
                  Holds(cs[i], now, info(q, e), s) || RoundedIn(cs[i], now, e.score)
      {
        RangeOrRounded(cs[i], s, now, info(q, e), e.score);
      }
    }
    rows := Some(all);
  }
}
