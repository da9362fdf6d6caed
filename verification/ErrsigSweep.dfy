/** The archived-tail sweep of one queue: pages read, examined and re-anchored. */
module ErrsigSweep {
  import opened Collections
  import opened SortedSet
  import opened ErrsigTail
  import opened ErrsigArchive

  function ScoreOf(cur: Option<Entry>): Option<int> {
    if cur.Some? then Some(cur.value.score) else None
  }

  /** What a sweep from `cur` has examined once its cursor stands at `newCur`:
      all that began in the set between the two, but for those it missed. */
  ghost predicate Examined(start: seq<Entry>, missed: set<Entry>, cur: Option<Entry>, newCur: Option<Entry>,
                           seen: seq<Entry>) {
    && Ascending(seen)
    && newCur == (if seen == [] then cur else Some(seen[|seen| - 1]))
    && (forall e: Entry :: e in seen <==> e in start && !Upto(e, cur) && Upto(e, newCur) && e !in missed)
  }

  /** What is known while a page is being examined. */
  ghost predicate InPage(start: seq<Entry>, missed: set<Entry>, newCur: Option<Entry>, page: seq<Entry>, i: nat) {
    && i <= |page| && page != [] && Ascending(page)
    && (forall e: Entry :: e in page ==> e in start && (e in missed ==> Upto(e, newCur)))
    && (forall e: Entry :: e in start && e !in missed && !Upto(e, newCur) && Upto(e, Some(page[|page| - 1])) ==> e in page)
    && (forall k :: 0 <= k < i ==> Upto(page[k], newCur))
  }

  /** The archive's position is past the page and past the moving cursor. */
  ghost predicate Reached(read: Option<Entry>, cur: Option<Entry>, newCur: Option<Entry>, page: seq<Entry>) {
    && (newCur == cur || (newCur.Some? && Upto(newCur.value, read)))
    && (forall e: Entry :: e in page ==> Upto(e, read))
  }

  /** The next entry of a page is the only new one up to itself. */
  lemma NextInPage(start: seq<Entry>, missed: set<Entry>, newCur: Option<Entry>, page: seq<Entry>, i: nat, e: Entry)
    requires InPage(start, missed, newCur, page, i) && i < |page| && !Upto(page[i], newCur)
    ensures Upto(e, Some(page[i])) && e in start && e !in missed && !Upto(e, newCur) <==> e == page[i]
    ensures Upto(e, newCur) ==> Upto(e, Some(page[i])) && Before(e, page[i])
  {
    hide StringBefore;
    BeforeIsOrder();
    assert page[i] in page;
  }

  lemma CursorGrows(start: seq<Entry>, missed: set<Entry>, cur: Option<Entry>, newCur: Option<Entry>, seen: seq<Entry>)
    requires Examined(start, missed, cur, newCur, seen)
    ensures forall e: Entry :: Upto(e, cur) ==> Upto(e, newCur)
  {
    hide StringBefore;
    BeforeIsOrder();
    assert seen != [] ==> seen[|seen| - 1] in seen;
  }

  lemma NextStaysInPage(start: seq<Entry>, missed: set<Entry>, newCur: Option<Entry>, page: seq<Entry>, i: nat)
    requires InPage(start, missed, newCur, page, i) && i < |page| && !Upto(page[i], newCur)
    ensures InPage(start, missed, Some(page[i]), page, i + 1)
  {
    hide StringBefore;
    BeforeIsOrder();
  }

  lemma ExamineOne(start: seq<Entry>, missed: set<Entry>, cur: Option<Entry>, newCur: Option<Entry>,
                   page: seq<Entry>, i: nat, seen: seq<Entry>)
    requires InPage(start, missed, newCur, page, i) && i < |page| && !Upto(page[i], newCur)
    requires Examined(start, missed, cur, newCur, seen)
    ensures Examined(start, missed, cur, Some(page[i]), seen + [page[i]])
    ensures InPage(start, missed, Some(page[i]), page, i + 1)
  {
    hide Before, InPage;
    forall e: Entry
      ensures Upto(e, Some(page[i])) && e in start && e !in missed && !Upto(e, newCur) <==> e == page[i]
      ensures Upto(e, newCur) ==> Upto(e, Some(page[i])) && Before(e, page[i])
    {
      NextInPage(start, missed, newCur, page, i, e);
    }
    CursorGrows(start, missed, cur, newCur, seen);
    NextStaysInPage(start, missed, newCur, page, i);
  }

  /** Removals that a page has overtaken do not disturb what was examined. */
  lemma DriftKeeps(start: seq<Entry>, missed: set<Entry>, missed': set<Entry>, from: Option<int>, safe: int,
                   read: Entry,
                   cur: Option<Entry>, newCur: Option<Entry>, page: seq<Entry>, i: nat, seen: seq<Entry>)
    requires InPage(start, missed, newCur, page, i) && Examined(start, missed, cur, newCur, seen)
    requires Reached(Some(read), cur, newCur, page) && read.score <= safe
    requires forall e: Entry :: e.score <= safe && e in missed ==> e in missed'
    requires forall e: Entry :: e.score <= safe && e in missed' && e !in missed ==> Unread(from, Some(read), e)
    ensures InPage(start, missed', newCur, page, i) && Examined(start, missed', cur, newCur, seen)
  {
    hide StringBefore;
    BeforeIsOrder();
    forall e: Entry | Upto(e, Some(read))
      ensures e in missed <==> e in missed'
    {
    }
    assert page[|page| - 1] in page;
    forall e: Entry | Upto(e, Some(page[|page| - 1]))
      ensures Upto(e, Some(read))
    {
    }
    forall e: Entry | Upto(e, newCur) && !Upto(e, cur)
      ensures Upto(e, Some(read))
    {
    }
  }

  lemma Forward(newCur: Option<Entry>, e: Entry)
    requires !Upto(e, newCur)
    ensures forall x: Entry :: Upto(x, newCur) ==> Upto(x, Some(e))
  {
    hide StringBefore;
    BeforeIsOrder();
  }

  lemma SkipOne(start: seq<Entry>, missed: set<Entry>, newCur: Option<Entry>, page: seq<Entry>, i: nat)
    requires InPage(start, missed, newCur, page, i) && i < |page| && Upto(page[i], newCur)
    ensures InPage(start, missed, newCur, page, i + 1)
  {
    hide Upto;
  }

  /** Between pages: everything returned so far is behind the cursor, and the
      cursor's score is the window's anchor. */
  predicate Between(from: Option<int>, read: Option<Entry>, cur: Option<Entry>, newCur: Option<Entry>) {
    && (newCur == cur || newCur == read)
    && (read.None? ==> newCur == cur && from == ScoreOf(cur))
    && (read.Some? ==> Upto(read.value, newCur) && read.value.score == newCur.value.score)
  }

  /** Whatever is not unread is behind the cursor. */
  lemma BehindCursor(from: Option<int>, read: Option<Entry>, cur: Option<Entry>, newCur: Option<Entry>, e: Entry)
    requires Between(from, read, cur, newCur) && !Unread(from, read, e)
    ensures Upto(e, newCur)
  {
    hide StringBefore;
    BeforeIsOrder();
  }

  /** Nor do entries missed where no page has been yet. */
  lemma AheadKeeps(start: seq<Entry>, missed: set<Entry>, missed': set<Entry>, from: Option<int>, safe: int,
                   read: Option<Entry>, cur: Option<Entry>, newCur: Option<Entry>, seen: seq<Entry>)
    requires Between(from, read, cur, newCur) && Examined(start, missed, cur, newCur, seen)
    requires newCur.Some? ==> newCur.value.score <= safe
    requires forall e: Entry :: e.score <= safe && e in missed ==> e in missed'
    requires forall e: Entry :: e.score <= safe && e in missed' && e !in missed ==> Unread(from, read, e)
    ensures Examined(start, missed', cur, newCur, seen)
  {
    hide StringBefore;
    BeforeIsOrder();
  }

  /** The cursor after a page. */
  lemma CursorAfterPage(start: seq<Entry>, missed: set<Entry>, cur: Option<Entry>, newCur: Option<Entry>,
                        page: seq<Entry>, seen: seq<Entry>, maxTail: nat)
    requires Examined(start, missed, cur, newCur, seen) && maxTail > 0
    requires |seen| == maxTail || InPage(start, missed, newCur, page, |page|)
    ensures newCur.Some?
    ensures |seen| < maxTail ==> forall e: Entry :: e in page ==> Upto(e, newCur)
  {
    if |seen| < maxTail {
      assert Upto(page[0], newCur);
    }
  }

  /** A page read at `offset` of the window anchored on the last entry read. */
  ghost predicate ReadAt(a: Archive, read: Option<Entry>, max: int, offset: nat, page: seq<Entry>)
    reads a
  {
    && a.Valid() && max <= a.safe && (read.Some? ==> read.value.score <= max)
    && (forall e: Entry :: e in a.removed && e !in a.gone ==> !Unread(a.from, read, e))
    && page == Slice(Window(a.entries, Anchor(a.from, read), Some(max)), offset, TAIL_BATCH)
  }

  lemma EnterPage(a: Archive, read: Option<Entry>, max: int, offset: nat, newCur: Option<Entry>,
                  page: seq<Entry>, skipped: set<Entry>)
    requires ReadAt(a, read, max, offset, page) && page != []
    requires exists cur :: Between(a.from, read, cur, newCur)
    requires a.skipped == skipped + Passed(a.entries, a.from, read, Anchor(a.from, read), max, offset)
    requires forall e: Entry :: e in skipped ==> Upto(e, newCur)
    ensures InPage(a.start, a.Missed(), newCur, page, 0)
    ensures forall e: Entry :: e in page ==> e.score <= max
  {
    hide Before, Unread, TiesOf, Filter, Passed, Window, Slice;
    BeforeIsOrder();
    PageFacts(a.entries, a.from, read, max, offset);
    var cur :| Between(a.from, read, cur, newCur);
    var last := page[|page| - 1];
    assert last in page;
    forall e: Entry | e in a.start && e !in a.Missed() && !Upto(e, newCur) && Upto(e, Some(last))
      ensures e in page
    {
      assert e.score <= last.score;
      if !Unread(a.from, read, e) {
        BehindCursor(a.from, read, cur, newCur, e);
      }
    }
  }

  /** After a page the archive stands past it and past the cursor. */
  lemma PageReached(a: Archive, read: Option<Entry>, max: int, offset: nat, cur: Option<Entry>,
                    newCur: Option<Entry>, page: seq<Entry>)
    requires ReadAt(a, read, max, offset, page) && page != [] && Between(a.from, read, cur, newCur)
    requires a.read == Further(a.from, read, page[|page| - 1])
    ensures a.read.Some? && a.read.value.score <= max && Reached(a.read, cur, newCur, page)
    ensures if Unread(a.from, read, page[|page| - 1]) then a.read == Some(page[|page| - 1]) && page[|page| - 1] in a.start
            else a.read == read && forall e: Entry :: e in page ==> ServedTie(read, e)
  {
    hide StringBefore, TiesOf, Filter, Passed, Window, Slice;
    BeforeIsOrder();
    PageFacts(a.entries, a.from, read, max, offset);
    var last := page[|page| - 1];
    assert last in page;
    forall e: Entry | e in page
      ensures Upto(e, Some(last))
    {
    }
  }

  /** A page examined to its end leaves the cursor at the archive's position,
      or where it was when the whole page was already behind it. */
  lemma LeavePage(start: seq<Entry>, missed: set<Entry>, from: Option<int>, read: Option<Entry>, read': Option<Entry>,
                  cur: Option<Entry>, newCur: Option<Entry>, newCur': Option<Entry>, page: seq<Entry>)
    requires Between(from, read, cur, newCur) && InPage(start, missed, newCur', page, |page|)
    requires newCur' == newCur || (newCur'.Some? && newCur'.value in page)
    requires forall e: Entry :: Upto(e, newCur) ==> Upto(e, newCur')
    requires if Unread(from, read, page[|page| - 1]) then read' == Some(page[|page| - 1])
             else read' == read && read.Some? && forall e: Entry :: e in page ==> ServedTie(read, e)
    ensures Between(from, read', cur, newCur')
  {
    hide StringBefore;
    BeforeIsOrder();
    assert Upto(page[|page| - 1], newCur');
    if newCur' != newCur {
      assert Upto(newCur'.value, Some(page[|page| - 1])) by {
        assert page[..|page|] == page;
        FrontIsUpto(page, |page|, newCur'.value);
      }
    }
  }

  /** Every page brings the sweep closer to the end of its range: it reads
      something unread, or steps on through the served ties. */
  lemma UnreadShrinks(start: seq<Entry>, from: Option<int>, read: Option<Entry>, last: Entry, max: int)
    requires last in start && Unread(from, read, last) && last.score <= max
    ensures |UnreadOf(start, from, Some(last), max)| < |UnreadOf(start, from, read, max)|
  {
    hide StringBefore, Filter;
    BeforeIsOrder();
    FilterShrinks(start, (e: Entry) => Unread(from, read, e) && e.score <= max,
                  (e: Entry) => Unread(from, Some(last), e) && e.score <= max);
  }

  function Slack(offset: nat, ties: nat): nat {
    if offset < ties then ties - offset else 0
  }

  lemma ServedPage(a: Archive, read: Option<Entry>, max: int, offset: nat, page: seq<Entry>)
    requires ReadAt(a, read, max, offset, page) && page != []
    ensures offset < |TiesOf(a.entries, read)| || Unread(a.from, read, page[|page| - 1])
  {
    hide Before, Unread, TiesOf, Filter, Window;
    var from := a.from;
    PageSkipsFront(a.entries, from, read, max, offset);
    FilterMembers(a.entries, (e: Entry) => Unread(from, read, e) && e.score <= max);
    var unread := UnreadOf(a.entries, from, read, max);
    if offset >= |TiesOf(a.entries, read)| {
      assert page[|page| - 1] in unread;
    }
  }

  /** A page that is not full leaves nothing below `max` ahead of the cursor
      but what it holds and what it did not reach. */
  lemma ReachedEnd(a: Archive, read: Option<Entry>, max: int, offset: nat, cur: Option<Entry>, newCur: Option<Entry>,
                   page: seq<Entry>)
    requires ReadAt(a, read, max, offset, page) && Between(a.from, read, cur, newCur)
    requires var passed := Passed(a.entries, a.from, read, Anchor(a.from, read), max, offset);
             passed <= a.skipped + a.deferred
    ensures |page| < TAIL_BATCH ==>
              forall e: Entry ::
                e in a.start && e.score <= max && e !in a.Missed() && e !in a.deferred && e !in page ==> Upto(e, newCur)
  {
    hide Before, Unread, TiesOf, Filter, Passed, Window, Slice;
    PageFacts(a.entries, a.from, read, max, offset);
    forall e: Entry | e in a.start && e.score <= max && e !in a.Missed() && e !in a.deferred && !Upto(e, newCur) && |page| < TAIL_BATCH
      ensures e in page
    {
      if !Unread(a.from, read, e) {
        BehindCursor(a.from, read, cur, newCur, e);
      }
    }
  }

  /** While no served tie is removed, pages pass nothing over and the offset
      goes on counting the served ties. */
  lemma SteadyPage(a: Archive, read: Option<Entry>, max: int, offset: nat, page: seq<Entry>)
    requires ReadAt(a, read, max, offset, page) && offset == |TiesOf(a.entries, read)|
    ensures Passed(a.entries, a.from, read, Anchor(a.from, read), max, offset) == {}
    ensures page != [] ==>
              var last := page[|page| - 1];
              && Unread(a.from, read, last)
              && |TiesOf(a.entries, Some(last))| ==
                 if Anchor(a.from, read) == Some(last.score) && TrailingTies(page, last.score) == |page| then offset + |page|
                 else TrailingTies(page, last.score)
  {
    hide Before, Unread, TiesOf, Filter, Window;
    var from := a.from;
    PageSkipsFront(a.entries, from, read, max, offset);
    if page != [] {
      var unread := UnreadOf(a.entries, from, read, max);
      FilterMembers(a.entries, (e: Entry) => Unread(from, read, e) && e.score <= max);
      assert page[|page| - 1] in unread;
      TiesAfterPage(a.entries, a.from, read, max);
    }
  }

  lemma NothingNew(start: seq<Entry>, missed: set<Entry>, cur: Option<Entry>, newCur: Option<Entry>, seen: seq<Entry>)
    requires Examined(start, missed, cur, newCur, seen)
    ensures newCur == cur ==> seen == []
  {
    if seen != [] {
      assert seen[0] in seen;
    }
  }

  lemma NothingExamined(start: seq<Entry>, missed: set<Entry>, cursor: Option<Entry>)
    ensures Examined(start, missed, cursor, cursor, [])
  {
  }

  /** What a page missed lies ahead of the cursor. */
  lemma MissedAhead(a: Archive, read: Option<Entry>, missed: set<Entry>, max: int, offset: nat,
                    cur: Option<Entry>, newCur: Option<Entry>, seen: seq<Entry>)
    requires a.Valid() && max <= a.safe && Between(a.from, read, cur, newCur) && Examined(a.start, missed, cur, newCur, seen)
    requires newCur.Some? && newCur != cur ==> newCur.value.score <= max
    requires forall e: Entry :: e.score <= a.safe && e in missed ==> e in a.Missed()
    requires forall e: Entry :: e.score <= a.safe && e in a.Missed() && e !in missed ==> Unread(a.from, read, e)
    ensures Examined(a.start, a.Missed(), cur, newCur, seen)
  {
    if newCur != cur {
      AheadKeeps(a.start, missed, a.Missed(), a.from, a.safe, read, cur, newCur, seen);
    } else {
      NothingNew(a.start, missed, cur, newCur, seen);
      NothingExamined(a.start, a.Missed(), cur);
    }
  }

  lemma SkippedBehind(page: seq<Entry>, newCur: Option<Entry>, e: Entry)
    requires page != [] && forall x: Entry :: x in page ==> Before(e, x)
    requires newCur.Some? && (newCur.value in page || forall x: Entry :: x in page ==> Upto(x, newCur))
    ensures Upto(e, newCur)
  {
    hide StringBefore;
    BeforeIsOrder();
    assert page[0] in page;
  }

  lemma SeenBelow(start: seq<Entry>, missed: set<Entry>, cur: Option<Entry>, newCur: Option<Entry>, seen: seq<Entry>,
                  max: int)
    requires Examined(start, missed, cur, newCur, seen)
    requires newCur.Some? && newCur != cur ==> newCur.value.score <= max
    ensures forall e: Entry :: e in seen ==> e.score <= max
  {
    hide StringBefore;
    if newCur == cur {
      NothingNew(start, missed, cur, newCur, seen);
    }
  }

  lemma {:induction false} NoTiesYet(entries: seq<Entry>)
    ensures TiesOf(entries, None) == []
  {
    if entries != [] {
      NoTiesYet(entries[..|entries| - 1]);
    }
  }

  lemma AllTrailing(page: seq<Entry>, score: int)
    requires forall e: Entry :: e in page ==> e.score == score
    ensures TrailingTies(page, score) == |page|
  {
    assert forall k :: 0 <= k < |page| ==> page[k] in page;
  }

  /** Where a page leaves the archive's position: on its last entry, or where
      it was when the page only served ties again. */
  ghost predicate Stepped(a: Archive, read: Option<Entry>, ties: nat, max: int, offset: nat, page: seq<Entry>)
    reads a
  {
    page != [] &&
    var last := page[|page| - 1];
    if Unread(a.from, read, last) then a.read == Some(last) && last in a.start && last.score <= max
    else a.read == read && (forall e: Entry :: e in page ==> ServedTie(a.read, e))
         && offset < ties && |TiesOf(a.entries, a.read)| <= ties
  }

  /** The tail of one queue's archive. */
  class Tail {
    const archive: Archive
    const maxTail: nat

    constructor (archive: Archive, maxTail: nat)
      ensures this.archive == archive && this.maxTail == maxTail
    {
      this.archive, this.maxTail := archive, maxTail;
    }

    /** Examine one page: every entry past the cursor, in order, whether or not
        its task is still there. */
    method ExaminePage(ghost cur: Option<Entry>, newCur0: Option<Entry>, page: seq<Entry>, seen0: seq<Entry>)
      returns (newCur: Option<Entry>, seen: seq<Entry>)
      requires archive.Valid() && page != [] && archive.read.Some? && |seen0| <= maxTail
      requires Reached(archive.read, cur, newCur0, page)
      requires InPage(archive.start, archive.Missed(), newCur0, page, 0)
      requires Examined(archive.start, archive.Missed(), cur, newCur0, seen0)
      modifies archive
      ensures archive.Valid() && archive.Drifted()
      ensures Examined(archive.start, archive.Missed(), cur, newCur, seen) && seen0 <= seen && |seen| <= maxTail
      ensures |seen| == maxTail || InPage(archive.start, archive.Missed(), newCur, page, |page|)
      ensures (newCur == newCur0 && seen == seen0) || (newCur.Some? && newCur.value in page)
      ensures forall e: Entry :: Upto(e, newCur0) ==> Upto(e, newCur)
      ensures maxTail > 0 ==> newCur.Some? && (|seen| < maxTail ==> forall e: Entry :: e in page ==> Upto(e, newCur))
    {
      hide Examined, InPage, Upto, TiesOf;
      newCur, seen := newCur0, seen0;
      for i := 0 to |page|
        invariant archive.Valid() && archive.Drifted()
        invariant Examined(archive.start, archive.Missed(), cur, newCur, seen) && seen0 <= seen && |seen| <= maxTail
        invariant InPage(archive.start, archive.Missed(), newCur, page, i)
        invariant Reached(archive.read, cur, newCur, page)
        invariant (newCur == newCur0 && seen == seen0) || (newCur.Some? && newCur.value in page)
        invariant forall e: Entry :: Upto(e, newCur0) ==> Upto(e, newCur)
      {
        if |seen| >= maxTail {
          break;
        }
        if !Upto(page[i], newCur) {
          ExamineOne(archive.start, archive.Missed(), cur, newCur, page, i, seen);
          Forward(newCur, page[i]);
          newCur, seen := Some(page[i]), seen + [page[i]];
          ghost var missed := archive.Missed();
          var archived := archive.GetTaskInfo(page[i]);
          DriftKeeps(archive.start, missed, archive.Missed(), archive.from, archive.safe, archive.read.value,
                     cur, newCur, page, i + 1, seen);
        } else {
          SkipOne(archive.start, archive.Missed(), newCur, page, i);
        }
      }
      if maxTail > 0 {
        CursorAfterPage(archive.start, archive.Missed(), cur, newCur, page, seen, maxTail);
      }
    }

    /** How many entries at the end of a page share the cursor's score. */
    static method CountTies(page: seq<Entry>, score: int) returns (n: nat)
      ensures n == TrailingTies(page, score)
    {
      n := 0;
      ghost var rest := page;
      while n < |page| && page[|page| - 1 - n].score == score
        invariant n <= |page| && rest == page[..|page| - n]
        invariant TrailingTies(page, score) == n + TrailingTies(rest, score)
      {
        assert rest[..|rest| - 1] == page[..|page| - n - 1];
        rest := rest[..|rest| - 1];
        n := n + 1;
      }
    }

    /** Between pages: the cursor, what was examined and passed over so far,
        and the window of the next page. */
    ghost predicate Walking(cur: Option<Entry>, newCur: Option<Entry>, seen: seq<Entry>, max: int, min: Option<int>,
                            offset: nat)
      reads archive
    {
      && Between(archive.from, archive.read, cur, newCur)
      && (archive.read.Some? ==> archive.read.value.score <= max)
      && min == Anchor(archive.from, archive.read)
      && (archive.steady ==> offset == |TiesOf(archive.entries, archive.read)|)
    }

    /** What is known of a sweep at any time. */
    ghost predicate Kept(cur: Option<Entry>, newCur: Option<Entry>, seen: seq<Entry>, max: int)
      reads archive
    {
      && archive.Valid() && max <= archive.safe
      && Examined(archive.start, archive.Missed(), cur, newCur, seen) && |seen| <= maxTail
      && (newCur.Some? && newCur != cur ==> newCur.value.score <= max)
      && (forall e: Entry :: e in archive.skipped ==> e in archive.start && e.score <= max && Upto(e, newCur))
      && (archive.steady ==> archive.skipped == archive.deferred == {})
    }

    /** The sweep has come to the end of its range. */
    ghost predicate AtEnd(newCur: Option<Entry>, max: int)
      reads archive
    {
      forall e: Entry ::
        e in archive.start && e.score <= max && e !in archive.Missed() && e !in archive.deferred ==> Upto(e, newCur)
    }

    /** Walk the archive from `cur` up to `max`. What is examined is exactly
        what began in the set past `cur` and up to the new cursor, in order,
        but for entries removed before a page returned them and entries a page
        passed over. It fails exactly when one of its range queries does. Short of the cap and of a failed command, the walk reaches
        `max`, but for entries an empty page did not reach. Nothing is passed
        over or left while no served tie is removed. */
    method TailQueue(cur: Option<Entry>, max: int) returns (newCur: Option<Entry>, seen: seq<Entry>, ok: bool)
      requires archive.Valid() && max <= archive.safe
      requires archive.read == None && archive.from == ScoreOf(cur)
      requires archive.skipped == archive.deferred == {}
      modifies archive
      ensures archive.Valid() && archive.start == old(archive.start) && archive.safe == old(archive.safe)
      ensures Examined(archive.start, archive.gone + archive.skipped, cur, newCur, seen) && |seen| <= maxTail
      ensures forall e: Entry :: e in seen ==> e.score <= max
      ensures forall e: Entry :: e in archive.skipped ==> e in archive.start && e.score <= max && Upto(e, newCur)
      ensures archive.steady ==> archive.skipped == archive.deferred == {}
      ensures old(archive.asked) <= archive.asked && (ok <==> archive.AnsweredSince(old(archive.asked)))
      ensures ok && |seen| < maxTail ==>
                forall e: Entry ::
                  e in archive.start && e.score <= max && e !in archive.gone && e !in archive.skipped && e !in archive.deferred ==>
                    Upto(e, newCur)
    {
      hide Examined, Unread, UnreadOf, TiesOf;
      newCur, seen, ok := cur, [], true;
      NothingExamined(archive.start, archive.Missed(), cur);
      if cur.Some? && cur.value.score > max {
        return;
      }
      var min, offset, more := ScoreOf(cur), 0, true;
      NoTiesYet(archive.entries);
      while more && |seen| < maxTail
        invariant archive.start == old(archive.start) && archive.safe == old(archive.safe) && archive.from == old(archive.from)
        invariant Kept(cur, newCur, seen, max)
        invariant old(archive.asked) <= archive.asked && (ok <==> archive.AnsweredSince(old(archive.asked)))
        invariant more ==> ok && Walking(cur, newCur, seen, max, min, offset)
        invariant ok && !more && |seen| < maxTail ==> AtEnd(newCur, max)
        decreases more, |UnreadOf(archive.start, archive.from, archive.read, max)|, Slack(offset, |TiesOf(archive.entries, archive.read)|)
      {
        newCur, seen, min, offset, ok, more := NextPage(cur, newCur, seen, max, min, offset);
      }
      SeenBelow(archive.start, archive.Missed(), cur, newCur, seen, max);
    }

    /** Read a page. */
    method ReadPage(ghost cur: Option<Entry>, ghost newCur: Option<Entry>, ghost seen: seq<Entry>,
                    max: int, min: Option<int>, offset: nat)
      returns (answer: Option<seq<Entry>>)
      requires Kept(cur, newCur, seen, max) && Walking(cur, newCur, seen, max, min, offset)
      modifies archive
      ensures archive.start == old(archive.start) && archive.safe == old(archive.safe) && archive.from == old(archive.from)
      ensures archive.asked == old(archive.asked) + 1 && (answer.None? <==> archive.Fails(old(archive.asked)))
      ensures archive.Valid() && Examined(archive.start, archive.Missed(), cur, newCur, seen)
      ensures forall e: Entry :: e in archive.skipped ==>
                && e in archive.start && e.score <= max
                && (Upto(e, newCur) || (answer.Some? && answer.value != [] && forall x: Entry :: x in answer.value ==> Before(e, x)))
      ensures archive.steady ==> archive.skipped == archive.deferred == {}
      ensures answer.None? || answer.value == [] ==> archive.skipped == old(archive.skipped)
      ensures answer.Some? && |answer.value| < TAIL_BATCH ==>
                forall e: Entry ::
                  e in archive.start && e.score <= max && e !in archive.Missed() && e !in archive.deferred && e !in answer.value ==>
                    Upto(e, newCur)
      ensures answer.Some? && answer.value != [] ==>
                var page, last := answer.value, answer.value[|answer.value| - 1];
                && InPage(archive.start, archive.Missed(), newCur, page, 0) && (forall e: Entry :: e in page ==> e.score <= max)
                && archive.read.Some? && archive.read.value.score <= max && Reached(archive.read, cur, newCur, page)
                && (if Unread(archive.from, old(archive.read), last) then archive.read == Some(last) && last in archive.start
                    else archive.read == old(archive.read) && (forall e: Entry :: e in page ==> ServedTie(archive.read, e))
                         && offset < |TiesOf(archive.entries, archive.read)| <= |TiesOf(old(archive.entries), archive.read)|)
                && (archive.steady ==>
                      |TiesOf(archive.entries, archive.read)| ==
                      if min == Some(last.score) && TrailingTies(page, last.score) == |page| then offset + |page|
                      else TrailingTies(page, last.score))
    {
      hide Upto, Unread, TiesOf, Window, Examined, InPage, Between, Anchor, TrailingTies, Ascending, Slice, Passed, Before;
      ghost var read, missed, skipped := archive.read, archive.Missed(), archive.skipped;
      answer := archive.RangeByScore(min, max, offset);
      PageFacts(archive.entries, archive.from, read, max, offset);
      MissedAhead(archive, read, missed, max, offset, cur, newCur, seen);
      if answer.Some? {
        ghost var page := answer.value;
        assert ReadAt(archive, read, max, offset, page);
        ReachedEnd(archive, read, max, offset, cur, newCur, page);
        if page != [] {
          EnterPage(archive, read, max, offset, newCur, page, skipped);
          PageReached(archive, read, max, offset, cur, newCur, page);
          ServedPage(archive, read, max, offset, page);
        }
        if archive.steady {
          SteadyPage(archive, read, max, offset, page);
        }
      }
    }

    /** Re-anchor the window on the cursor's score: a page that was all ties of
        the current anchor only extends the offset. */
    static method ReAnchor(page: seq<Entry>, score: int, min0: Option<int>, offset0: nat) returns (min: Option<int>,
                           offset: nat)
      ensures min == Some(score)
      ensures offset == if Some(score) == min0 && TrailingTies(page, score) == |page| then offset0 + |page|
                        else TrailingTies(page, score)
    {
      var sameScore := CountTies(page, score);
      if Some(score) == min0 && sameScore == |page| {
        min, offset := min0, offset0 + |page|;
      } else {
        min, offset := Some(score), sameScore;
      }
    }

    /** Read and examine a page. */
    method TakePage(ghost cur: Option<Entry>, newCur0: Option<Entry>, seen0: seq<Entry>, max: int, min: Option<int>,
                    offset: nat)
      returns (newCur: Option<Entry>, seen: seq<Entry>, answer: Option<seq<Entry>>)
      requires Kept(cur, newCur0, seen0, max) && Walking(cur, newCur0, seen0, max, min, offset) && |seen0| < maxTail
      modifies archive
      ensures archive.start == old(archive.start) && archive.safe == old(archive.safe) && archive.from == old(archive.from)
      ensures Kept(cur, newCur, seen, max)
      ensures archive.asked == old(archive.asked) + 1 && (answer.None? <==> archive.Fails(old(archive.asked)))
      ensures answer.Some? && |answer.value| < TAIL_BATCH && |seen| < maxTail ==> AtEnd(newCur, max)
      ensures answer.Some? && answer.value != [] ==>
                var page, last := answer.value, answer.value[|answer.value| - 1];
                && newCur.Some? && archive.read.Some? && archive.read.value.score <= max
                && (|seen| < maxTail ==> Between(archive.from, archive.read, cur, newCur))
                && Stepped(archive, old(archive.read), |old(TiesOf(archive.entries, archive.read))|, max, offset, page)
                && (archive.steady ==>
                      |TiesOf(archive.entries, archive.read)| ==
                      if min == Some(last.score) && TrailingTies(page, last.score) == |page| then offset + |page|
                      else TrailingTies(page, last.score))
    {
      hide Before, Unread, UnreadOf, TiesOf, Examined, InPage, TrailingTies, Upto, Between, Anchor;
      newCur, seen := newCur0, seen0;
      ghost var read := archive.read;
      answer := ReadPage(cur, newCur, seen, max, min, offset);
      if answer.None? || answer.value == [] {
        return;
      }
      var page := answer.value;
      newCur, seen := ExaminePage(cur, newCur, page, seen);
      forall e: Entry | e in archive.skipped
        ensures Upto(e, newCur)
      {
        if !Upto(e, newCur0) {
          SkippedBehind(page, newCur, e);
        }
      }
      if |seen| < maxTail {
        LeavePage(archive.start, archive.Missed(), archive.from, read, archive.read, cur, newCur0, newCur, page);
      }
    }

    /** One turn of the walk: take a page and re-anchor the window on the cursor. */
    method NextPage(ghost cur: Option<Entry>, newCur0: Option<Entry>, seen0: seq<Entry>, max: int, min0: Option<int>,
                    offset0: nat)
      returns (newCur: Option<Entry>, seen: seq<Entry>, min: Option<int>, offset: nat, ok: bool, more: bool)
      requires Kept(cur, newCur0, seen0, max) && Walking(cur, newCur0, seen0, max, min0, offset0) && |seen0| < maxTail
      modifies archive
      ensures archive.start == old(archive.start) && archive.safe == old(archive.safe) && archive.from == old(archive.from)
      ensures Kept(cur, newCur, seen, max)
      ensures archive.asked == old(archive.asked) + 1 && (ok <==> !archive.Fails(old(archive.asked)))
      ensures ok && !more && |seen| < maxTail ==> AtEnd(newCur, max)
      ensures more ==> ok && |seen| < maxTail && Walking(cur, newCur, seen, max, min, offset)
      ensures more ==>
                var before, after := |UnreadOf(archive.start, archive.from, old(archive.read), max)|,
                                     |UnreadOf(archive.start, archive.from, archive.read, max)|;
                after < before || (after == before && Slack(offset, |TiesOf(archive.entries, archive.read)|)
                                                      < Slack(offset0, |TiesOf(old(archive.entries), old(archive.read))|))
    {
      hide Before, Unread, UnreadOf, TiesOf, Examined, InPage, TrailingTies, Upto, AtEnd, Kept;
      var answer;
      min, offset, ok, more := min0, offset0, true, false;
      ghost var read := archive.read;
      newCur, seen, answer := TakePage(cur, newCur0, seen0, max, min, offset);
      if answer.None? {
        ok := false;
        return;
      }
      var page := answer.value;
      if |page| < TAIL_BATCH {
        return;
      }
      ghost var last := page[|page| - 1];
      min, offset := ReAnchor(page, newCur.value.score, min, offset);
      more := |seen| < maxTail;
      if more {
        assert last in page;
        if Unread(archive.from, read, last) {
          UnreadShrinks(archive.start, archive.from, read, last, max);
        } else {
          AllTrailing(page, newCur.value.score);
        }
      }
    }
  }
}
