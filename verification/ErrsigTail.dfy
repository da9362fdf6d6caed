/** The archived tail: a sorted set walked by score windows that are re-anchored
    on the rolling cursor, while entries are added and trimmed in between. */
module ErrsigTail {
  import opened Collections
  import opened SortedSet

  const TAIL_BATCH: nat := 200

  ghost function Members(s: seq<Entry>): set<Entry> {
    set e | e in s
  }

  // --- positions in the set ---

  /** An entry no page of this sweep has returned yet. A sweep starts at the
      score of its stored cursor, or at the very bottom. */
  predicate Unread(from: Option<int>, read: Option<Entry>, e: Entry) {
    match read
    case Some(r) => Before(r, e)
    case None => from.None? || from.value <= e.score
  }

  /** An entry already returned that shares the score of the last one returned. */
  predicate ServedTie(read: Option<Entry>, e: Entry) {
    read.Some? && e.score == read.value.score && Upto(e, read)
  }

  function UnreadOf(entries: seq<Entry>, from: Option<int>, read: Option<Entry>, max: int): seq<Entry> {
    Filter(entries, (e: Entry) => Unread(from, read, e) && e.score <= max)
  }

  function TiesOf(entries: seq<Entry>, read: Option<Entry>): seq<Entry> {
    Filter(entries, (e: Entry) => ServedTie(read, e))
  }

  /** Where the window starts: at the last score read, else where the sweep began. */
  function Anchor(from: Option<int>, read: Option<Entry>): Option<int> {
    match read
    case Some(r) => Some(r.score)
    case None => from
  }

  /** The window is the served ties followed by everything unread. */
  lemma WindowSplits(entries: seq<Entry>, from: Option<int>, read: Option<Entry>, max: int)
    requires Ascending(entries) && (read.Some? ==> read.value.score <= max)
    ensures Window(entries, Anchor(from, read), Some(max)) == TiesOf(entries, read) + UnreadOf(entries, from, read, max)
  {
    hide StringBefore, Filter;
    BeforeIsOrder();
    var min := Anchor(from, read);
    FilterMembers(entries, (e: Entry) => InRange(min, Some(max), e));
    FilterMembers(entries, (e: Entry) => Unread(from, read, e) && e.score <= max);
    FilterMembers(entries, (e: Entry) => ServedTie(read, e));
    var ties, unread := TiesOf(entries, read), UnreadOf(entries, from, read, max);
    JoinAscending(ties, unread);
    AscendingUnique(Window(entries, min, Some(max)), ties + unread);
  }

  /** A page at `offset` starts with the first unread entry exactly when the
      offset counts the served ties still in the set. */
  lemma PageIsNextIff(entries: seq<Entry>, from: Option<int>, read: Option<Entry>, max: int, offset: nat)
    requires Ascending(entries) && (read.Some? ==> read.value.score <= max)
    ensures var unread := UnreadOf(entries, from, read, max);
            && (offset == |TiesOf(entries, read)| ==>
                  Slice(Window(entries, Anchor(from, read), Some(max)), offset, TAIL_BATCH) == Slice(unread, 0, TAIL_BATCH))
            && (unread != [] && Slice(Window(entries, Anchor(from, read), Some(max)), offset, TAIL_BATCH) == Slice(unread, 0, TAIL_BATCH) ==>
                  offset == |TiesOf(entries, read)|)
  {
    hide Filter, Before;
    WindowSplits(entries, from, read, max);
    var ties, unread := TiesOf(entries, read), UnreadOf(entries, from, read, max);
    var w := Window(entries, Anchor(from, read), Some(max));
    if unread != [] && Slice(w, offset, TAIL_BATCH) == Slice(unread, 0, TAIL_BATCH) {
      assert w[offset] == unread[0] == w[|ties|];
      FilterMembers(entries, (e: Entry) => InRange(Anchor(from, read), Some(max), e));
      BeforeIsOrder();
    }
  }

  /** How many entries at the end of a page have the given score. */
  function TrailingTies(page: seq<Entry>, score: int): (n: nat)
    ensures n <= |page|
    ensures forall k :: |page| - n <= k < |page| ==> page[k].score == score
    ensures n < |page| ==> page[|page| - n - 1].score != score
  {
    if page == [] || page[|page| - 1].score != score then 0 else 1 + TrailingTies(page[..|page| - 1], score)
  }

  /** The unread entries a page at `offset` starts behind: the page after it
      is anchored past them. */
  ghost function Passed(entries: seq<Entry>, from: Option<int>, read: Option<Entry>, min: Option<int>, max: int,
                        offset: nat): set<Entry> {
    var w := Window(entries, min, Some(max));
    set e | e in w[..Min(offset, |w|)] && Unread(from, read, e)
  }

  /** How many unread entries that is: as many as served ties are gone from
      the front of the window. */
  function Gap(offset: nat, ties: nat, unread: nat): nat {
    if offset <= ties then 0 else Min(offset - ties, unread)
  }

  lemma SliceOfTwo<T>(a: seq<T>, b: seq<T>, offset: nat, limit: nat)
    ensures Slice(a + b, offset, limit) == if offset < |a| then Slice(a[offset..] + b, 0, limit) else Slice(b, offset - |a|, limit)
  {
    if offset < |a| {
      assert (a + b)[offset..] == a[offset..] + b;
    }
  }

  lemma FrontOfTwo<T>(a: seq<T>, b: seq<T>, n: nat)
    ensures (a + b)[..Min(n, |a + b|)] == if n <= |a| then a[..n] else a + b[..Gap(n, |a|, |b|)]
  {
  }

  lemma ServedIsRead(from: Option<int>, read: Option<Entry>, e: Entry)
    requires ServedTie(read, e)
    ensures !Unread(from, read, e)
  {
    BeforeIsOrder();
  }

  /** A page at an offset above the number of served ties skips as many of the
      unread entries, the first ones, and these alone: it skips none if and
      only if the ties its offset counts are all still there, or nothing is
      unread. */
  lemma PageSkipsFront(entries: seq<Entry>, from: Option<int>, read: Option<Entry>, max: int, offset: nat)
    requires Ascending(entries) && (read.Some? ==> read.value.score <= max)
    ensures var ties, unread := TiesOf(entries, read), UnreadOf(entries, from, read, max);
            var min := Anchor(from, read);
            var k := Gap(offset, |ties|, |unread|);
            && Passed(entries, from, read, min, max, offset) == Members(unread[..k])
            && (Passed(entries, from, read, min, max, offset) == {} <==> offset <= |ties| || unread == [])
            && (offset >= |ties| ==>
                  Slice(Window(entries, min, Some(max)), offset, TAIL_BATCH) == Slice(unread, offset - |ties|, TAIL_BATCH))
            && (offset < |ties| ==>
                  Slice(Window(entries, min, Some(max)), offset, TAIL_BATCH) == Slice(ties[offset..] + unread, 0, TAIL_BATCH))
  {
    hide Filter, Before, Slice, Unread;
    WindowSplits(entries, from, read, max);
    var ties, unread := TiesOf(entries, read), UnreadOf(entries, from, read, max);
    SliceOfTwo(ties, unread, offset, TAIL_BATCH);
    var w, k := ties + unread, Gap(offset, |ties|, |unread|);
    FilterMembers(entries, (e: Entry) => Unread(from, read, e) && e.score <= max);
    FilterMembers(entries, (e: Entry) => ServedTie(read, e));
    var front := w[..Min(offset, |w|)];
    FrontOfTwo(ties, unread, offset);
    forall e: Entry
      ensures e in front && Unread(from, read, e) <==> e in unread[..k]
    {
      if e in ties {
        ServedIsRead(from, read, e);
      }
      assert e in front ==> e in ties || e in unread[..k];
      assert e in unread[..k] ==> e in front && e in unread;
    }
    assert k > 0 ==> unread[..k][0] in Members(unread[..k]);
  }

  lemma UnreadInRange(from: Option<int>, read: Option<Entry>, e: Entry)
    requires Unread(from, read, e)
    ensures InRange(Anchor(from, read), None, e)
  {
  }

  /** A page of an ascending window comes after what is in front of it, and
      holds the rest up to its last entry. */
  lemma PageOfWindow(w: seq<Entry>, offset: nat)
    requires Ascending(w)
    ensures var page, front := Slice(w, offset, TAIL_BATCH), w[..Min(offset, |w|)];
            && Ascending(page) && |page| <= TAIL_BATCH
            && (forall e: Entry :: e in page ==> e in w)
            && (page != [] ==> forall e: Entry :: e in w && Upto(e, Some(page[|page| - 1])) ==> e in page || e in front)
            && (|page| < TAIL_BATCH ==> forall e: Entry :: e in w ==> e in page || e in front)
            && (forall e, x: Entry :: e in front && x in page ==> Before(e, x))
  {
    hide Before;
    BeforeIsOrder();
    var page := Slice(w, offset, TAIL_BATCH);
    if offset < |w| {
      assert page == w[offset..offset + |page|];
      assert w[..offset + |page|] == w[..offset] + page;
      forall e: Entry | e in w && Upto(e, Some(page[|page| - 1]))
        ensures e in page || e in w[..offset]
      {
        FrontIsUpto(w, offset + |page|, e);
      }
      if |page| < TAIL_BATCH {
        assert w == w[..offset] + page;
      }
    } else {
      assert w[..|w|] == w;
    }
  }

  lemma PageFacts(entries: seq<Entry>, from: Option<int>, read: Option<Entry>, max: int, offset: nat)
    requires Ascending(entries)
    ensures var page := Slice(Window(entries, Anchor(from, read), Some(max)), offset, TAIL_BATCH);
            var passed := Passed(entries, from, read, Anchor(from, read), max, offset);
            && Ascending(page) && |page| <= TAIL_BATCH
            && (forall e: Entry :: e in page ==> e in entries && InRange(Anchor(from, read), Some(max), e))
            && (page != [] ==> forall e: Entry ::
                  e in entries && e.score <= max && Unread(from, read, e) && Upto(e, Some(page[|page| - 1])) ==> e in page || e in passed)
            && (|page| < TAIL_BATCH ==> forall e: Entry ::
                  e in entries && e.score <= max && Unread(from, read, e) ==> e in page || e in passed)
            && (forall e: Entry :: e in passed ==> e in entries && e.score <= max && Unread(from, read, e))
            && (forall e, x: Entry :: e in passed && x in page ==> Before(e, x))
  {
    hide Filter, Before, Slice, Ascending;
    var min := Anchor(from, read);
    FilterMembers(entries, (e: Entry) => InRange(min, Some(max), e));
    var w := Window(entries, min, Some(max));
    PageOfWindow(w, offset);
    var front := w[..Min(offset, |w|)];
    assert forall e: Entry :: e in front ==> e in w;
    assert forall e: Entry :: e in Passed(entries, from, read, min, max, offset) <==> e in front && Unread(from, read, e);
    forall e: Entry | e in entries && e.score <= max && Unread(from, read, e)
      ensures e in w
    {
      UnreadInRange(from, read, e);
    }
  }

  lemma NextPageFacts(entries: seq<Entry>, from: Option<int>, read: Option<Entry>, max: int)
    requires Ascending(entries) && UnreadOf(entries, from, read, max) != []
    ensures var page := Slice(UnreadOf(entries, from, read, max), 0, TAIL_BATCH);
            && page != [] && Ascending(page)
            && forall e: Entry ::
                 e in page <==> e in entries && Unread(from, read, e) && Upto(e, Some(page[|page| - 1]))
  {
    hide Filter, StringBefore, Unread;
    BeforeIsOrder();
    var unread := UnreadOf(entries, from, read, max);
    var page := Slice(unread, 0, TAIL_BATCH);
    FilterMembers(entries, (e: Entry) => Unread(from, read, e) && e.score <= max);
    assert page == unread[..|page|];
    assert page[|page| - 1] in unread;
    forall e: Entry
      ensures e in page <==> e in unread && Upto(e, Some(page[|page| - 1]))
    {
      FrontIsUpto(unread, |page|, e);
    }
  }

  lemma TieContinues(from: Option<int>, read: Option<Entry>, last: Entry, e: Entry)
    requires Anchor(from, read) == Some(last.score) && Unread(from, read, last)
    ensures ServedTie(Some(last), e) <==> ServedTie(read, e) || (Unread(from, read, e) && Upto(e, Some(last)))
  {
    hide StringBefore;
    BeforeIsOrder();
  }

  lemma PageAfterTies(from: Option<int>, read: Option<Entry>, ties: seq<Entry>, page: seq<Entry>, last: Entry)
    requires Anchor(from, read) == Some(last.score) && page != [] && last == page[|page| - 1]
    requires forall e: Entry :: e in page ==> Unread(from, read, e) && Upto(e, Some(last))
    requires forall e: Entry :: e in ties ==> ServedTie(read, e)
    ensures forall x, y :: x in ties && y in page ==> Before(x, y)
    ensures TrailingTies(page, last.score) == |page|
  {
    hide StringBefore;
    BeforeIsOrder();
    forall k | 0 <= k < |page|
      ensures page[k].score == last.score
    {
      assert page[k] in page;
    }
  }

  /** A page that continues the score of the window's anchor adds all of
      itself to the served ties. */
  lemma TiesContinue(entries: seq<Entry>, from: Option<int>, read: Option<Entry>, page: seq<Entry>, last: Entry)
    requires Ascending(entries) && Ascending(page) && page != [] && last == page[|page| - 1]
    requires forall e: Entry ::
               e in page <==> e in entries && Unread(from, read, e) && Upto(e, Some(last))
    requires Anchor(from, read) == Some(last.score)
    ensures TrailingTies(page, last.score) == |page|
    ensures TiesOf(entries, Some(last)) == TiesOf(entries, read) + page
  {
    hide Filter, Before, TrailingTies, ServedTie, Unread;
    FilterMembers(entries, (e: Entry) => ServedTie(read, e));
    FilterMembers(entries, (e: Entry) => ServedTie(Some(last), e));
    var ties, ties' := TiesOf(entries, read), TiesOf(entries, Some(last));
    forall e: Entry
      ensures e in ties' <==> e in ties + page
    {
      TieContinues(from, read, last, e);
    }
    PageAfterTies(from, read, ties, page, last);
    JoinAscending(ties, page);
    AscendingUnique(ties', ties + page);
  }

  lemma ScoresAscend(s: seq<Entry>)
    requires Ascending(s)
    ensures forall i, j :: 0 <= i <= j < |s| ==> s[i].score <= s[j].score
  {
    hide StringBefore;
  }

  lemma TailIsTies(page: seq<Entry>, e: Entry)
    requires Ascending(page) && page != []
    ensures var last := page[|page| - 1];
            e in page[|page| - TrailingTies(page, last.score)..] <==> e in page && e.score == last.score
  {
    ScoresAscend(page);
    hide Ascending, TrailingTies;
    var n := TrailingTies(page, page[|page| - 1].score);
    if e in page && e.score == page[|page| - 1].score {
      var k :| 0 <= k < |page| && page[k] == e;
      assert k >= |page| - n;
      assert page[|page| - n..][k - (|page| - n)] == e;
    }
  }

  /** A page that reaches a new score leaves as served ties its own tail. */
  lemma TiesRestart(entries: seq<Entry>, from: Option<int>, read: Option<Entry>, page: seq<Entry>, last: Entry)
    requires Ascending(entries) && Ascending(page) && page != [] && last == page[|page| - 1]
    requires forall e: Entry ::
               e in page <==> e in entries && Unread(from, read, e) && Upto(e, Some(last))
    requires Anchor(from, read) != Some(last.score)
    ensures |TiesOf(entries, Some(last))| == TrailingTies(page, last.score)
  {
    hide Filter, StringBefore;
    BeforeIsOrder();
    FilterMembers(entries, (e: Entry) => ServedTie(Some(last), e));
    var tail := page[|page| - TrailingTies(page, last.score)..];
    assert Unread(from, read, last);
    forall e: Entry
      ensures e in tail <==> e in TiesOf(entries, Some(last))
    {
      TailIsTies(page, e);
    }
    AscendingUnique(TiesOf(entries, Some(last)), tail);
  }

  /** The ties served once a page has been read: the ties before it as well
      when the page continues their score, else those at its end. */
  lemma TiesAfterPage(entries: seq<Entry>, from: Option<int>, read: Option<Entry>, max: int)
    requires Ascending(entries) && UnreadOf(entries, from, read, max) != []
    ensures var page := Slice(UnreadOf(entries, from, read, max), 0, TAIL_BATCH);
            var last := page[|page| - 1];
            if Anchor(from, read) == Some(last.score)
            then TrailingTies(page, last.score) == |page|
                 && |TiesOf(entries, Some(last))| == |TiesOf(entries, read)| + |page|
            else |TiesOf(entries, Some(last))| == TrailingTies(page, last.score)
  {
    hide Filter, StringBefore, TiesOf, UnreadOf, Unread;
    BeforeIsOrder();
    NextPageFacts(entries, from, read, max);
    var page := Slice(UnreadOf(entries, from, read, max), 0, TAIL_BATCH);
    var last := page[|page| - 1];
    assert last in page;
    forall e | e in page
      ensures Upto(e, Some(last))
    {
    }
    if Anchor(from, read) == Some(last.score) {
      TiesContinue(entries, from, read, page, last);
    } else {
      TiesRestart(entries, from, read, page, last);
    }
  }
}
