/** One queue's tail over many sweeps: the cursor and the log that are committed
    together, and what no sweep will ever examine. */
module ErrsigQueue {
  import opened Collections
  import opened SortedSet
  import opened ErrsigTail
  import opened ErrsigArchive
  import opened ErrsigSweep

  /** The books of a run of sweeps. `ever` is everything that was ever in the
      archive, `log` what committed sweeps examined, `lost` what was removed
      before a committed sweep had read it, and `skipped` what a committed
      sweep passed over. */
  ghost predicate Books(entries: seq<Entry>, safe: int, cursor: Option<Entry>, log: seq<Entry>, ever: set<Entry>,
                        lost: set<Entry>, skipped: set<Entry>) {
    && Ascending(log)
    && cursor == (if log == [] then None else Some(log[|log| - 1]))
    && (cursor.Some? ==> cursor.value.score <= safe)
    && (forall e: Entry :: e in entries ==> e in ever && e !in lost)
    && (forall e: Entry :: e in log ==> e in ever && e !in lost)
    && (forall e: Entry :: e in skipped ==> e in ever && Upto(e, cursor) && e !in log)
    && (forall e: Entry :: e in ever && Upto(e, cursor) && e !in lost && e !in skipped ==> e in log)
    && (forall e: Entry :: e in ever && !Upto(e, cursor) && e !in lost ==> e in entries)
  }

  ghost function LostIn(removed: set<Entry>, gone: set<Entry>, cursor: Option<Entry>,
                        cursor': Option<Entry>): set<Entry> {
    set e | e in removed && !Upto(e, cursor) && (e in gone || !Upto(e, cursor'))
  }

  ghost function SkippedIn(passed: set<Entry>, cursor: Option<Entry>): set<Entry> {
    set e | e in passed && !Upto(e, cursor)
  }

  /** The archive as it stands after its sweep. */
  ghost predicate Settled(entries: seq<Entry>, start: seq<Entry>, removed: set<Entry>, safe: int) {
    && (forall e: Entry :: e in entries ==> e !in removed && (e.score <= safe ==> e in start))
    && (forall e: Entry :: e in start ==> e in entries || e in removed)
    && (forall e: Entry :: e in removed && e.score <= safe ==> e in start)
  }

  lemma LogBehind(log: seq<Entry>, cursor: Option<Entry>)
    requires Ascending(log) && cursor == (if log == [] then None else Some(log[|log| - 1]))
    ensures forall e: Entry :: e in log ==> Upto(e, cursor)
  {
    forall e: Entry | e in log
      ensures Upto(e, cursor)
    {
      var k :| 0 <= k < |log| && log[k] == e;
    }
  }

  /** A committed sweep keeps the books; one that fails keeps them too, with
      nothing examined and nothing passed over. */
  lemma SweepKeepsBooks(start: seq<Entry>, entries: seq<Entry>, removed: set<Entry>, gone: set<Entry>,
                        passed: set<Entry>,
                        safe: int, safe': int, cursor: Option<Entry>, cursor': Option<Entry>, log: seq<Entry>, seen: seq<Entry>,
                        ever: set<Entry>, lost: set<Entry>, skipped: set<Entry>)
    requires Books(start, safe, cursor, log, ever, lost, skipped) && safe <= safe'
    requires Settled(entries, start, removed, safe') && gone <= removed
    requires Examined(start, gone + passed, cursor, cursor', seen) && (forall e: Entry :: e in seen ==> e.score <= safe')
    requires forall e: Entry :: e in passed ==> e in start && Upto(e, cursor')
    ensures Books(entries, safe', cursor', log + seen, ever + Members(entries) + removed,
                  lost - Members(entries) + LostIn(removed, gone, cursor, cursor'), skipped + SkippedIn(passed, cursor))
  {
    hide Before;
    BeforeIsOrder();
    CursorGrows(start, gone + passed, cursor, cursor', seen);
    assert log != [] ==> log[|log| - 1] in log;
    assert seen != [] ==> seen[|seen| - 1] in seen;
    LogBehind(log, cursor);
  }

  /** Below the cursor, every entry that ever was in the archive was examined
      exactly once, in order, or had been removed before its turn, or was
      passed over. */
  lemma ExactlyOnce(entries: seq<Entry>, safe: int, cursor: Option<Entry>, log: seq<Entry>, ever: set<Entry>,
                    lost: set<Entry>, skipped: set<Entry>)
    requires Books(entries, safe, cursor, log, ever, lost, skipped)
    ensures forall i, j :: 0 <= i < j < |log| ==> Before(log[i], log[j]) && log[i] != log[j]
    ensures forall e: Entry :: e in log <==> e in ever && Upto(e, cursor) && e !in lost && e !in skipped
  {
    BeforeIsOrder();
    LogBehind(log, cursor);
  }

  /** What a sweep that reached its bound has not examined was lost or skipped. */
  lemma ReachedMax(start: seq<Entry>, removed: set<Entry>, gone: set<Entry>, passed: set<Entry>, cursor: Option<Entry>,
                   cursor': Option<Entry>, log: seq<Entry>, seen: seq<Entry>, safe: int,
                   ever: set<Entry>, lost: set<Entry>, skipped: set<Entry>)
    requires Books(start, safe, cursor, log, ever, lost, skipped) && gone <= removed
    requires Examined(start, gone + passed, cursor, cursor', seen)
    ensures forall e: Entry :: e in start && (Upto(e, cursor') || e in gone || e in passed) ==>
              e in log + seen || e in LostIn(removed, gone, cursor, cursor') || e in skipped + SkippedIn(passed, cursor)
  {
    assert seen != [] ==> seen[|seen| - 1] in seen;
  }

  lemma NoCursorNoEntry(start: seq<Entry>, missed: set<Entry>, cursor: Option<Entry>, cursor': Option<Entry>,
                        seen: seq<Entry>)
    requires Examined(start, missed, cursor, cursor', seen)
    ensures cursor' == if cursor'.Some? && cursor' != cursor then cursor' else cursor
  {
  }

  /** One tick of the tail: the bound its sweep stops at, and whether its merge
      is accepted. */
  datatype Tick = Tick(max: int, accepted: bool)

  /** The indexer's side of one queue: the stored cursor and what was merged. */
  class QueueTail {
    const tail: Tail
    var cursor: Option<Entry>
    ghost var log: seq<Entry>
    ghost var ever: set<Entry>
    ghost var lost: set<Entry>
    ghost var skipped: set<Entry>

    ghost predicate Valid()
      reads this, tail.archive
    {
      && tail.archive.Valid()
      && Books(tail.archive.entries, tail.archive.safe, cursor, log, ever, lost, skipped)
      && Traced()
    }

    /** What ever was in the archive was there first or was added, and what was
        lost was removed. */
    ghost predicate Traced()
      reads `ever, `lost
    {
      && (forall e: Entry :: e in ever ==> e in tail.archive.first || Add(e) in tail.archive.said)
      && (forall e: Entry :: e in lost ==> Remove(e) in tail.archive.said)
    }

    /** All that is in the archive up to `floor` has been examined. */
    ghost predicate CaughtUp(floor: int)
      reads this, tail.archive
    {
      && floor <= tail.archive.safe
      && forall e: Entry :: e in tail.archive.entries && e.score <= floor ==> e in log
    }

    constructor (tail: Tail)
      requires tail.archive.Valid()
      ensures Valid() && this.tail == tail && cursor == None && log == [] && skipped == {}
      ensures ever == Members(tail.archive.entries)
    {
      this.tail, cursor, log, ever, lost, skipped := tail, None, [], Members(tail.archive.entries), {}, {};
    }

    /** What is in the archive up to a score some sweep covered was there
        before. */
    twostate predicate NothingNewBelow()
      reads this, tail.archive
    {
      && old(tail.archive.safe) <= tail.archive.safe
      && forall e: Entry ::
           e in tail.archive.entries && e.score <= tail.archive.safe ==> e in old(tail.archive.entries)
    }

    /** Between two sweeps: the archive changes, and the indexer does nothing. */
    method Idle()
      requires Valid()
      modifies this, tail.archive
      ensures Valid() && cursor == old(cursor) && log == old(log) && skipped == old(skipped) && old(ever) <= ever
      ensures NothingNewBelow() && tail.archive.asked == old(tail.archive.asked)
    {
      hide Books, Examined, Upto, Ascending;
      ghost var a := tail.archive;
      tail.archive.Begin(ScoreOf(cursor), tail.archive.safe);
      tail.archive.Others();
      Keep(old(a.safe));
    }

    /** The books after an archive's changes that no sweep followed up. */
    ghost method Keep(safe: int)
      requires tail.archive.Valid() && safe <= tail.archive.safe && Traced()
      requires Books(tail.archive.start, safe, cursor, log, ever, lost, skipped)
      modifies `lost, `ever
      ensures Valid() && old(ever) <= ever
    {
      hide Books, Examined, Upto, Ascending;
      var a := tail.archive;
      NothingExamined(a.start, a.gone + {}, cursor);
      SweepKeepsBooks(a.start, a.entries, a.removed, a.gone, {}, safe, a.safe, cursor, cursor, log, [], ever, lost, skipped);
      assert log + [] == log && skipped + SkippedIn({}, cursor) == skipped;
      lost := lost - Members(a.entries) + LostIn(a.removed, a.gone, cursor, cursor);
      ever := ever + Members(a.entries) + a.removed;
    }

    /** The books after a committed sweep that examined `seen`. */
    ghost method Enter(cursor0: Option<Entry>, seen: seq<Entry>, safe: int)
      requires tail.archive.Valid() && safe <= tail.archive.safe && Traced()
      requires Books(tail.archive.start, safe, cursor0, log, ever, lost, skipped)
      requires Examined(tail.archive.start, tail.archive.gone + tail.archive.skipped, cursor0, cursor, seen)
      requires forall e: Entry :: e in seen ==> e.score <= tail.archive.safe
      requires forall e: Entry :: e in tail.archive.skipped ==> e in tail.archive.start && Upto(e, cursor)
      modifies `log, `skipped, `lost, `ever
      ensures Valid() && log == old(log) + seen && old(ever) <= ever
      ensures skipped == old(skipped) + SkippedIn(tail.archive.skipped, cursor0)
      ensures forall e: Entry ::
                e in tail.archive.start && (Upto(e, cursor) || e in tail.archive.gone || e in tail.archive.skipped) ==>
                  e in log || e in lost || e in skipped
    {
      hide Books, Examined, Upto, Ascending;
      var a := tail.archive;
      SweepKeepsBooks(a.start, a.entries, a.removed, a.gone, a.skipped, safe, a.safe, cursor0, cursor, log, seen, ever, lost, skipped);
      ReachedMax(a.start, a.removed, a.gone, a.skipped, cursor0, cursor, log, seen, safe, ever, lost, skipped);
      log, skipped := log + seen, skipped + SkippedIn(a.skipped, cursor0);
      lost := lost - Members(a.entries) + LostIn(a.removed, a.gone, cursor0, cursor);
      ever := ever + Members(a.entries) + a.removed;
    }

    /** One sweep, whose merge is accepted unless the fencing token was
        superseded. A failed read or a refused merge commits nothing; otherwise
        the cursor and what was examined are committed together. Entries are skipped only by a
        committed sweep during which a served tie was removed. */
    method Sweep(max: int, accepted: bool) returns (committed: bool)
      requires Valid()
      modifies this, tail.archive
      ensures committed <==> accepted && tail.archive.AnsweredSince(old(tail.archive.asked))
      ensures NothingNewBelow() && max <= tail.archive.safe && old(tail.archive.asked) <= tail.archive.asked
      ensures Valid() && old(log) <= log && old(ever) <= ever && old(skipped) <= skipped
      ensures !committed ==> cursor == old(cursor) && log == old(log)
      ensures skipped != old(skipped) ==> committed && !tail.archive.steady
      ensures tail.archive.steady ==> tail.archive.deferred == {}
      ensures committed && |log| - |old(log)| < tail.maxTail ==>
                forall e: Entry :: e in old(tail.archive.entries) && e.score <= max ==>
                  e in log || e in lost || e in skipped || e in tail.archive.deferred
    {
      hide Books, Examined, Upto, Ascending;
      ghost var a, cursor0 := tail.archive, cursor;
      tail.archive.Begin(ScoreOf(cursor), max);
      var newCur, seen, ok := tail.TailQueue(cursor, max);
      committed := ok && accepted;
      if committed {
        if newCur.Some? && newCur != cursor {
          cursor := newCur;
        }
        NoCursorNoEntry(a.start, a.gone + a.skipped, cursor0, newCur, seen);
        Enter(cursor0, seen, old(a.safe));
      } else {
        Keep(old(a.safe));
      }
    }

    /** One tick: the archive changes, then a sweep. A steady one that commits
        fills its cap or catches up with its bound, and no later one falls
        behind. */
    method Turn(tick: Tick, ghost floor: int) returns (committed: bool)
      requires Valid()
      modifies this, tail.archive
      ensures Valid() && old(log) <= log && old(ever) <= ever && old(skipped) <= skipped
      ensures skipped != old(skipped) ==> !tail.archive.steady
      ensures committed <==> tick.accepted && tail.archive.AnsweredSince(old(tail.archive.asked))
      ensures tail.archive.steady && skipped == {} && old(CaughtUp(floor)) ==> CaughtUp(floor)
      ensures tail.archive.steady && skipped == {} && committed && floor <= tick.max ==>
                CaughtUp(floor) || |log| >= |old(log)| + tail.maxTail
    {
      hide Ascending, Before, Upto, Said, Accounted;
      Idle();
      committed := Sweep(tick.max, tick.accepted);
    }

    /** Any number of ticks. */
    method Turns(ticks: seq<Tick>, ghost floor: int) returns (commits: nat, ghost steady: bool)
      requires Valid() && skipped == {}
      modifies this, tail.archive
      ensures Valid() && old(log) <= log && old(ever) <= ever && (steady ==> skipped == {})
      ensures !steady ==> exists e: Entry :: Remove(e) in tail.archive.said
      ensures commits <= |ticks|
      ensures true !in tail.archive.outage && (forall t <- ticks :: t.accepted) ==> commits == |ticks|
      ensures steady && (forall t <- ticks :: floor <= t.max) ==> CaughtUp(floor) || |log| >= commits * tail.maxTail
    {
      hide Books, Ascending, Before, Upto, Said, CaughtUp, Traced;
      commits, steady := 0, true;
      for i := 0 to |ticks|
        invariant Valid() && old(log) <= log && old(ever) <= ever && (steady ==> skipped == {})
        invariant !steady ==> exists e: Entry :: Remove(e) in tail.archive.said
        invariant commits <= i
        invariant true !in tail.archive.outage && (forall t <- ticks :: t.accepted) ==> commits == i
        invariant steady && (forall t <- ticks :: floor <= t.max) ==> CaughtUp(floor) || |log| >= commits * tail.maxTail
      {
        var committed := Turn(ticks[i], floor);
        steady := steady && tail.archive.steady;
        if committed {
          commits := commits + 1;
          assert commits * tail.maxTail == (commits - 1) * tail.maxTail + tail.maxTail;
        }
      }
    }

    /** A queue from its first sweep on: any number of sweeps, the archive
        changing before and during each, some of them committing nothing. What
        was examined by then is exactly, once and in order, what was ever in
        the archive up to the cursor and was neither removed before its turn
        nor passed over. `steady` says that no sweep saw a served tie removed:
        then nothing was passed over, and whatever is in the archive up to the
        cursor has been examined. Committed sweeps that could have examined
        more than they did have examined all that is in a steady archive up to
        the lowest of their bounds, and every sweep commits whose reads and
        merge succeed. */
    static method Run(entries: seq<Entry>, feed: seq<seq<Change>>, outage: seq<bool>, maxTail: nat, ticks: seq<Tick>,
                      ghost floor: int)
      returns (queue: QueueTail, commits: nat, ghost steady: bool)
      requires Ascending(entries)
      ensures forall i, j :: 0 <= i < j < |queue.log| ==> Before(queue.log[i], queue.log[j]) && queue.log[i] != queue.log[j]
      ensures forall e: Entry :: e in queue.log <==>
                e in queue.ever && Upto(e, queue.cursor) && e !in queue.lost && e !in queue.skipped
      ensures forall e: Entry :: e in entries || e in queue.tail.archive.entries ==> e in queue.ever
      ensures forall e: Entry :: e in queue.ever ==> e in entries || Add(e) in Said(feed)
      ensures forall e: Entry :: e in queue.lost ==> e !in queue.tail.archive.entries && Remove(e) in Said(feed)
      ensures steady ==> queue.skipped == {}
      ensures steady ==> forall e: Entry :: e in queue.tail.archive.entries && Upto(e, queue.cursor) ==> e in queue.log
      ensures !steady ==> exists e: Entry :: Remove(e) in Said(feed)
      ensures commits <= |ticks|
      ensures true !in outage && (forall t <- ticks :: t.accepted) ==> commits == |ticks|
      ensures steady && (forall t <- ticks :: floor <= t.max) && |queue.log| < commits * maxTail ==>
                forall e: Entry :: e in queue.tail.archive.entries && e.score <= floor ==> e in queue.log
    {
      hide Before, Ascending, Said, Upto;
      var archive := new Archive(entries, feed, outage);
      var tail := new Tail(archive, maxTail);
      queue := new QueueTail(tail);
      commits, steady := queue.Turns(ticks, floor);
      queue.Idle();
      ExactlyOnce(archive.entries, archive.safe, queue.cursor, queue.log, queue.ever, queue.lost, queue.skipped);
    }
  }

  // --- an entry that is passed over ---

  /** Ids in ascending order. */
  function Id(i: nat): string {
    seq(i + 1, _ => 'x')
  }

  /** Tasks that died in the same second. */
  function TieRun(n: nat): seq<Entry> {
    seq(n, (i: nat) => Entry(7, Id(i)))
  }

  lemma {:induction false} IdsAscend(i: nat, j: nat)
    requires i < j
    ensures StringBefore(Id(i), Id(j))
  {
    if i > 0 {
      IdsAscend(i - 1, j - 1);
      assert Id(i)[1..] == Id(i - 1) && Id(j)[1..] == Id(j - 1);
    } else {
      assert Id(i)[1..] == [] && |Id(j)[1..]| > 0;
    }
  }

  lemma TieRunFacts(n: nat)
    ensures |TieRun(n)| == n && Ascending(TieRun(n)) && forall i :: 0 <= i < n ==> TieRun(n)[i].score == 7
  {
    forall i, j | 0 <= i < j < n
      ensures Before(TieRun(n)[i], TieRun(n)[j])
    {
      IdsAscend(i, j);
    }
  }

  lemma {:induction false} WindowOfAll(s: seq<Entry>, min: Option<int>, max: Option<int>)
    requires forall e: Entry :: e in s ==> InRange(min, max, e)
    ensures Window(s, min, max) == s
  {
    if s != [] {
      WindowOfAll(s[..|s| - 1], min, max);
      assert s == s[..|s| - 1] + [s[|s| - 1]];
    }
  }

  lemma WithoutFirst(s: seq<Entry>)
    requires Ascending(s) && s != []
    ensures Apply(s, Remove(s[0])) == s[1..]
  {
    hide Before, Apply;
    BeforeIsOrder();
    ApplyMembers(s, Remove(s[0]));
    forall e: Entry
      ensures e in s[1..] <==> e in s && e != s[0]
    {
      if e in s && e != s[0] {
        var k :| 0 <= k < |s| && s[k] == e;
        assert s[1..][k - 1] == e;
      }
    }
    AscendingUnique(Apply(s, Remove(s[0])), s[1..]);
  }

  /** 202 tasks died in one second. The first page returns 200 of them, so the
      walk goes on at offset 200 of that second; the first of them is removed
      before the next page is read. That page holds the last task alone: the
      one before it is passed over, though it was there all along. */
  lemma OneTieRemoved()
    ensures var before := TieRun(202);
            && |before| == 202 && Ascending(before)
            && var page := Slice(Window(before, None, Some(9)), 0, TAIL_BATCH);
            && |page| == TAIL_BATCH && TrailingTies(page, 7) == 200
            && var after := Apply(before, Remove(before[0]));
            && before[200] in after
            && Slice(Window(after, Some(7), Some(9)), 200, TAIL_BATCH) == [before[201]]
            && Passed(after, None, Some(page[199]), Some(7), 9, 200) == {before[200]}
  {
    hide Filter, Before, Window, Apply, TrailingTies, TieRun;
    BeforeIsOrder();
    TieRunFacts(202);
    var before := TieRun(202);
    var after := before[1..];
    WindowOfAll(before, None, Some(9));
    WithoutFirst(before);
    WindowOfAll(after, Some(7), Some(9));
    var page := before[..200];
    assert Slice(before, 0, TAIL_BATCH) == page;
    assert forall k :: 0 <= k < 200 ==> page[k].score == 7;
    assert after[199] == before[200] && Slice(after, 200, TAIL_BATCH) == [before[201]];
    var front := after[..Min(200, |after|)];
    assert front == before[1..201];
    forall e: Entry
      ensures e in front && Unread(None, Some(page[199]), e) <==> e == before[200]
    {
      if e in front && Before(before[199], e) {
        var k :| 0 <= k < 200 && front[k] == e;
        assert e == before[k + 1];
      }
    }
  }
}
