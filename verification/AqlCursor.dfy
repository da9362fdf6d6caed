/** Cursor listings: pages of the live tasks of a score range, resumed from the
    last (queue, score, id) returned. */
module AqlCursor {
  import opened Collections
  import opened SortedSet

  const MAX_PAGE_SIZE: nat := 1000
  const HEADROOM: nat := 16

  /** A fixed store: the resolved queues, one sorted set each, which entries
      still have a task in the listed state, and the plan's score range. */
  datatype Listing = Listing(
    queues: seq<string>, zsets: map<string, seq<Entry>>, live: (string, Entry) -> bool,
    min: Option<int>, max: Option<int>)

  datatype Row = Row(queue: string, entry: Entry)

  ghost predicate Valid(l: Listing) {
    Sorted(l.queues) && "" !in l.queues && forall q <- l.zsets :: Ascending(l.zsets[q])
  }

  function Zset(l: Listing, q: string): seq<Entry> {
    if q in l.zsets then l.zsets[q] else []
  }

  /** Not returned by the pages up to the cursor. */
  predicate Unserved(cur: Option<Row>, q: string, e: Entry) {
    cur.None? || StringBefore(cur.value.queue, q) || (q == cur.value.queue && Before(cur.value.entry, e))
  }

  /** Resuming inside a queue moves the window's lower bound to the cursor. */
  function Low(l: Listing, cur: Option<Row>, q: string): Option<int> {
    if cur.Some? && q == cur.value.queue then Some(cur.value.entry.score) else l.min
  }

  predicate Listed(l: Listing, cur: Option<Row>, q: string, e: Entry) {
    InRange(Low(l, cur, q), l.max, e) && l.live(q, e) && Unserved(cur, q, e)
  }

  function AsRows(q: string, es: seq<Entry>): (r: seq<Row>)
    ensures |r| == |es| && forall i :: 0 <= i < |es| ==> r[i] == Row(q, es[i])
  {
    seq(|es|, i requires 0 <= i < |es| => Row(q, es[i]))
  }

  function QueueRows(l: Listing, cur: Option<Row>, q: string): seq<Row> {
    AsRows(q, Filter(Zset(l, q), (e: Entry) => Listed(l, cur, q, e)))
  }

  function RowsFrom(l: Listing, cur: Option<Row>, k: nat): seq<Row>
    decreases |l.queues| - k
  {
    if k >= |l.queues| then [] else QueueRows(l, cur, l.queues[k]) + RowsFrom(l, cur, k + 1)
  }

  /** Everything a listing still has to return after a cursor: the live tasks
      in range, ordered by (queue, score, id). */
  function RowsAfter(l: Listing, cur: Option<Row>): seq<Row> {
    RowsFrom(l, cur, 0)
  }

  // --- what the rows are ---

  predicate RowBefore(a: Row, b: Row) {
    StringBefore(a.queue, b.queue) || (a.queue == b.queue && Before(a.entry, b.entry))
  }

  /** The rows are exactly the live, in-range entries of the listed queues past
      the cursor, each once and in (queue, score, id) order. */
  lemma {:induction false} RowsExact(l: Listing, cur: Option<Row>, k: nat)
    requires Valid(l)
    ensures forall r: Row :: r in RowsFrom(l, cur, k) <==>
              (exists i :: k <= i < |l.queues| && l.queues[i] == r.queue)
              && r.entry in Zset(l, r.queue) && Listed(l, cur, r.queue, r.entry)
    ensures forall i, j :: 0 <= i < j < |RowsFrom(l, cur, k)| ==> RowBefore(RowsFrom(l, cur, k)[i], RowsFrom(l, cur, k)[j])
    decreases |l.queues| - k
  {
    hide Listed, Before, StringBefore, Filter;
    if k < |l.queues| {
      var q := l.queues[k];
      RowsExact(l, cur, k + 1);
      FilterMembers(Zset(l, q), (e: Entry) => Listed(l, cur, q, e));
      var here, later := QueueRows(l, cur, q), RowsFrom(l, cur, k + 1);
      var es := Filter(Zset(l, q), (e: Entry) => Listed(l, cur, q, e));
      forall r: Row
        ensures r in here <==> r.queue == q && r.entry in Zset(l, q) && Listed(l, cur, q, r.entry)
      {
        if r.queue == q && r.entry in es {
          var i :| 0 <= i < |es| && es[i] == r.entry;
          assert here[i] == r;
        }
      }
      forall r | r in later
        ensures StringBefore(q, r.queue)
      {
      }
    }
  }

  lemma RowOrder()
    ensures forall a: Row, b: Row :: a == b || RowBefore(a, b) || RowBefore(b, a)
    ensures forall a: Row, b: Row :: !(RowBefore(a, b) && RowBefore(b, a))
    ensures forall a: Row, b: Row, c: Row {:trigger RowBefore(a, b), RowBefore(b, c)} ::
              RowBefore(a, b) && RowBefore(b, c) ==> RowBefore(a, c)
  {
    hide Before;
    BeforeIsOrder();
    forall a: Row, b: Row
      ensures (a == b || RowBefore(a, b) || RowBefore(b, a)) && !(RowBefore(a, b) && RowBefore(b, a))
    {
      StringTotal(a.queue, b.queue);
    }
    forall a: Row, b: Row, c: Row | RowBefore(a, b) && RowBefore(b, c)
      ensures RowBefore(a, c)
    {
      if StringBefore(a.queue, b.queue) && StringBefore(b.queue, c.queue) {
        StringTransitive(a.queue, b.queue, c.queue);
      }
    }
  }

  predicate InOrder(s: seq<Row>) {
    forall i, j :: 0 <= i < j < |s| ==> RowBefore(s[i], s[j])
  }

  lemma FirstIsApart(s: seq<Row>, r: Row)
    requires InOrder(s) && s != []
    ensures r in s[1..] <==> r in s && r != s[0]
  {
    hide RowBefore;
    RowOrder();
    if r in s && r != s[0] {
      var k :| 0 <= k < |s| && s[k] == r;
      assert s[1..][k - 1] == r;
    }
  }

  lemma {:induction false} InOrderUnique(s: seq<Row>, t: seq<Row>)
    requires InOrder(s) && InOrder(t)
    requires forall r: Row :: r in s <==> r in t
    ensures s == t
  {
    hide RowBefore;
    RowOrder();
    assert (s != [] ==> s[0] in t) && (t != [] ==> t[0] in s);
    if s != [] && t != [] {
      assert s[0] == t[0];
      forall r: Row
        ensures r in s[1..] <==> r in t[1..]
      {
        FirstIsApart(s, r);
        FirstIsApart(t, r);
      }
      InOrderUnique(s[1..], t[1..]);
      assert s == [s[0]] + s[1..] && t == [t[0]] + t[1..];
    }
  }

  lemma RestIsPast(all: seq<Row>, n: nat, r: Row)
    requires InOrder(all) && 0 < n <= |all|
    ensures r in all[n..] <==> r in all && RowBefore(all[n - 1], r)
  {
    hide RowBefore;
    RowOrder();
    if r in all && RowBefore(all[n - 1], r) {
      var k :| 0 <= k < |all| && all[k] == r;
      assert k >= n;
      assert all[n..][k - n] == r;
    }
  }

  /** A row is listed past a listed row exactly when it is listed and comes later. */
  lemma ListedPast(l: Listing, cur: Option<Row>, last: Row, r: Row)
    requires Listed(l, cur, last.queue, last.entry)
    ensures Listed(l, Some(last), r.queue, r.entry) <==> Listed(l, cur, r.queue, r.entry) && RowBefore(last, r)
  {
    hide StringBefore;
    BeforeIsOrder();
    StringTotal(last.queue, r.queue);
    if cur.Some? {
      StringTotal(cur.value.queue, last.queue);
      StringTotal(cur.value.queue, r.queue);
      if StringBefore(cur.value.queue, last.queue) && StringBefore(last.queue, r.queue) {
        StringTransitive(cur.value.queue, last.queue, r.queue);
      }
    }
  }

  /** Past the n-th row of a listing there is exactly what follows its first n rows. */
  lemma ResumeIsRest(l: Listing, cur: Option<Row>, n: nat)
    requires Valid(l) && 0 < n <= |RowsAfter(l, cur)|
    ensures RowsAfter(l, Some(RowsAfter(l, cur)[n - 1])) == RowsAfter(l, cur)[n..]
  {
    hide RowsFrom, Before, StringBefore, Zset;
    RowOrder();
    RowsExact(l, cur, 0);
    var all := RowsAfter(l, cur);
    var last := all[n - 1];
    RowsExact(l, Some(last), 0);
    forall r: Row
      ensures r in all[n..] <==> r in RowsAfter(l, Some(last))
    {
      RestIsPast(all, n, r);
      ListedPast(l, cur, last, r);
    }
    InOrderUnique(RowsAfter(l, Some(last)), all[n..]);
  }

  // --- one page ---

  /** Not a tie of the cursor that an earlier page has returned. */
  predicate Eligible(cur: Option<Row>, resuming: bool, e: Entry) {
    !(resuming && cur.Some? && e.score == cur.value.entry.score
      && (e.id == cur.value.entry.id || StringBefore(e.id, cur.value.entry.id)))
  }

  predicate Kept(l: Listing, cur: Option<Row>, resuming: bool, q: string, e: Entry) {
    Eligible(cur, resuming, e) && l.live(q, e)
  }

  function KeptRows(l: Listing, cur: Option<Row>, q: string, es: seq<Entry>): seq<Row> {
    AsRows(q, Filter(es, (e: Entry) => Kept(l, cur, cur.Some? && q == cur.value.queue, q, e)))
  }

  lemma KeptRowsConcat(l: Listing, cur: Option<Row>, q: string, a: seq<Entry>, b: seq<Entry>)
    ensures KeptRows(l, cur, q, a + b) == KeptRows(l, cur, q, a) + KeptRows(l, cur, q, b)
  {
    FilterConcat(a, b, (e: Entry) => Kept(l, cur, cur.Some? && q == cur.value.queue, q, e));
  }

  lemma EmptyAscends()
    ensures Ascending([])
  {
  }

  /** The re-based window and the tie filter together list what the queue owes. */
  lemma WindowRows(l: Listing, cur: Option<Row>, q: string)
    requires Valid(l) && (cur.Some? ==> !StringBefore(q, cur.value.queue))
    ensures KeptRows(l, cur, q, Window(Zset(l, q), Low(l, cur, q), l.max)) == QueueRows(l, cur, q)
  {
    hide Filter, StringBefore, Ascending;
    var resuming := cur.Some? && q == cur.value.queue;
    var w := Window(Zset(l, q), Low(l, cur, q), l.max);
    assert Ascending(Zset(l, q)) by {
      EmptyAscends();
    }
    FilterMembers(Zset(l, q), (e: Entry) => InRange(Low(l, cur, q), l.max, e));
    FilterMembers(w, (e: Entry) => Kept(l, cur, resuming, q, e));
    FilterMembers(Zset(l, q), (e: Entry) => Listed(l, cur, q, e));
    forall e: Entry
      ensures InRange(Low(l, cur, q), l.max, e) && Kept(l, cur, resuming, q, e) <==> Listed(l, cur, q, e)
    {
      if cur.Some? {
        StringTotal(e.id, cur.value.entry.id);
        StringTotal(q, cur.value.queue);
      }
    }
    AscendingUnique(Filter(w, (e: Entry) => Kept(l, cur, resuming, q, e)),
                    Filter(Zset(l, q), (e: Entry) => Listed(l, cur, q, e)));
  }

  lemma SkippedQueue(l: Listing, cur: Option<Row>, q: string)
    requires Valid(l) && cur.Some? && StringBefore(q, cur.value.queue)
    ensures QueueRows(l, cur, q) == []
  {
    StringTotal(q, cur.value.queue);
    FilterMembers(Zset(l, q), (e: Entry) => Listed(l, cur, q, e));
    assert Ascending(Zset(l, q)) && Ascending([]) by {
      EmptyAscends();
    }
    AscendingUnique(Filter(Zset(l, q), (e: Entry) => Listed(l, cur, q, e)), []);
  }

  /** Fetch the tasks of a range read, in order; None for one that is gone or
      has left the listed state. */
  function Fetched(l: Listing, q: string, es: seq<Entry>): (infos: seq<Option<Row>>)
    ensures |infos| == |es|
    ensures forall i :: 0 <= i < |es| ==> infos[i] == if l.live(q, es[i]) then Some(Row(q, es[i])) else None
  {
    seq(|es|, i requires 0 <= i < |es| => if l.live(q, es[i]) then Some(Row(q, es[i])) else None)
  }

  function LiveRows(l: Listing, q: string, es: seq<Entry>): seq<Row> {
    AsRows(q, Filter(es, (e: Entry) => l.live(q, e)))
  }

  lemma NoLiveRows(l: Listing, q: string)
    ensures LiveRows(l, q, []) == []
  {
  }

  lemma EligibleThenLive(l: Listing, cur: Option<Row>, q: string, entries: seq<Entry>, eligible: seq<Entry>)
    requires eligible == Filter(entries, (e: Entry) => Eligible(cur, cur.Some? && q == cur.value.queue, e))
    ensures LiveRows(l, q, eligible) == KeptRows(l, cur, q, entries)
  {
    var resuming := cur.Some? && q == cur.value.queue;
    FilterTwice(entries, (e: Entry) => Eligible(cur, resuming, e), (e: Entry) => l.live(q, e),
                (e: Entry) => Kept(l, cur, resuming, q, e));
  }

  method DropServedTies(cur: Option<Row>, resuming: bool, entries: seq<Entry>) returns (eligible: seq<Entry>)
    ensures eligible == Filter(entries, (e: Entry) => Eligible(cur, resuming, e))
  {
    eligible := [];
    for i := 0 to |entries|
      invariant eligible == Filter(entries[..i], (e: Entry) => Eligible(cur, resuming, e))
    {
      assert entries[..i + 1][..i] == entries[..i];
      if Eligible(cur, resuming, entries[i]) {
        eligible := eligible + [entries[i]];
      }
    }
    assert entries[..|entries|] == entries;
  }

  lemma LiveRowsSplit(l: Listing, q: string, es: seq<Entry>, i: nat)
    requires i < |es|
    ensures LiveRows(l, q, es[..i]) <= LiveRows(l, q, es)
    ensures LiveRows(l, q, es[..i + 1]) == LiveRows(l, q, es[..i]) + if l.live(q, es[i]) then [Row(q, es[i])] else []
  {
    FilterConcat(es[..i], es[i..], (e: Entry) => l.live(q, e));
    assert es[..i] + es[i..] == es && es[..i + 1][..i] == es[..i];
  }

  /** Append the live tasks of one range read until the page is full. */
  method TakeEntries(l: Listing, cur: Option<Row>, q: string, entries: seq<Entry>, size: nat, rows0: seq<Row>)
    returns (rows: seq<Row>)
    requires |rows0| < size
    ensures rows == Slice(rows0 + KeptRows(l, cur, q, entries), 0, size)
  {
    hide KeptRows, LiveRows, Filter, Eligible;
    var resuming := cur.Some? && q == cur.value.queue;
    var eligible := DropServedTies(cur, resuming, entries);
    var infos := Fetched(l, q, eligible);
    EligibleThenLive(l, cur, q, entries, eligible);
    rows := rows0;
    assert eligible[..0] == [];
    NoLiveRows(l, q);
    for i := 0 to |eligible|
      invariant rows == rows0 + LiveRows(l, q, eligible[..i]) && |rows| <= size
    {
      LiveRowsSplit(l, q, eligible, i);
      if |rows| >= size {
        return;
      }
      if infos[i].Some? {
        rows := rows + [infos[i].value];
      }
    }
    assert eligible[..|eligible|] == eligible;
  }

  lemma KeptNone(l: Listing, cur: Option<Row>, q: string)
    ensures KeptRows(l, cur, q, []) == []
  {
  }

  /** Walk one queue by score window and offset until the page is full or the
      window is exhausted. */
  method ListQueue(l: Listing, cur: Option<Row>, q: string, size: nat, rows0: seq<Row>) returns (rows: seq<Row>)
    requires Valid(l) && (cur.Some? ==> !StringBefore(q, cur.value.queue)) && |rows0| < size
    ensures rows == Slice(rows0 + QueueRows(l, cur, q), 0, size)
  {
    hide KeptRows, QueueRows, Filter;
    var w := Window(Zset(l, q), Low(l, cur, q), l.max);
    ghost var all := rows0 + QueueRows(l, cur, q);
    WindowRows(l, cur, q);
    rows := rows0;
    var offset := 0;
    assert w[0..] == w;
    while |rows| < size
      invariant offset <= |w| && |rows| <= size && rows <= all
      invariant |rows| < size ==> all == rows + KeptRows(l, cur, q, w[offset..])
      decreases |rows| < size, |w| - offset
    {
      var want := size - |rows| + HEADROOM;
      var entries := Slice(w, offset, want);
      if entries == [] {
        KeptNone(l, cur, q);
        assert w[offset..] == [];
        return;
      }
      assert w[offset..] == entries + w[offset + |entries|..];
      KeptRowsConcat(l, cur, q, entries, w[offset + |entries|..]);
      rows := TakeEntries(l, cur, q, entries, size, rows);
      if |rows| >= size {
        return;
      }
      offset := offset + |entries|;
      if |entries| < want {
        KeptNone(l, cur, q);
        return;
      }
    }
  }

  lemma RowNamed(l: Listing, cur: Option<Row>, r: Row)
    requires Valid(l)
    ensures r in RowsFrom(l, cur, 0) ==> r.queue != ""
  {
    RowsExact(l, cur, 0);
  }

  lemma AllRows(l: Listing, cur: Option<Row>)
    ensures RowsAfter(l, cur) == RowsFrom(l, cur, 0)
  {
  }

  /** Queue by queue, past those already served, until the page is full. */
  method ListQueues(l: Listing, cur: Option<Row>, size: nat) returns (rows: seq<Row>, exhausted: bool)
    requires Valid(l)
    ensures rows == Slice(RowsAfter(l, cur), 0, size)
    ensures exhausted == (size == 0 || |rows| < size)
  {
    hide QueueRows, StringBefore, RowsAfter;
    rows := [];
    exhausted := true;
    ghost var all := RowsFrom(l, cur, 0);
    assert RowsAfter(l, cur) == all by {
      AllRows(l, cur);
    }
    for k := 0 to |l.queues|
      invariant |rows| <= size && rows <= all
      invariant |rows| < size ==> all == rows + RowsFrom(l, cur, k)
      invariant exhausted == (size == 0 || |rows| < size)
    {
      var q := l.queues[k];
      if cur.Some? && StringBefore(q, cur.value.queue) {
        SkippedQueue(l, cur, q);
        assert [] + RowsFrom(l, cur, k + 1) == RowsFrom(l, cur, k + 1);
      } else {
        if |rows| >= size {
          break;
        }
        ghost var here := rows + QueueRows(l, cur, q);
        assert all == here + RowsFrom(l, cur, k + 1);
        rows := ListQueue(l, cur, q, size, rows);
        assert rows <= here && (|rows| < size ==> rows == here);
        if |rows| >= size {
          exhausted := false;
          break;
        }
      }
    }
  }

  /** One page of a listing: the first `size` rows past the cursor, with a
      cursor to resume from unless fewer are left. The requested size is
      clamped; a page of size zero lists nothing and ends the listing. */
  method ListPage(l: Listing, cur: Option<Row>, requested: int) returns (rows: seq<Row>, next: Option<Row>)
    requires Valid(l)
    ensures var size := if requested < 0 then 0 else Min(requested, MAX_PAGE_SIZE);
            && rows == Slice(RowsAfter(l, cur), 0, size)
            && next == (if size > 0 && |rows| == size then Some(rows[size - 1]) else None)
  {
    hide RowsFrom;
    var size := if requested < 0 then 0 else Min(requested, MAX_PAGE_SIZE);
    var exhausted;
    rows, exhausted := ListQueues(l, cur, size);
    next := None;
    if !exhausted {
      RowNamed(l, cur, rows[|rows| - 1]);
      if rows[|rows| - 1].queue != "" {
        next := Some(rows[|rows| - 1]);
      }
    }
  }

  lemma PageThenRest(l: Listing, cur: Option<Row>, page: seq<Row>, next: Option<Row>, size: nat)
    requires Valid(l) && size > 0
    requires page == Slice(RowsAfter(l, cur), 0, size)
    requires next == if |page| == size then Some(page[size - 1]) else None
    ensures |page| <= size
    ensures RowsAfter(l, cur) == if next.Some? then page + RowsAfter(l, next) else page
  {
    hide RowsAfter;
    if next.Some? {
      ResumeIsRest(l, cur, size);
    }
  }

  /** A listing without a cursor owes every live task in range, once, in order. */
  lemma WholeListing(l: Listing)
    requires Valid(l)
    ensures InOrder(RowsAfter(l, None))
    ensures forall r: Row :: r in RowsAfter(l, None) <==>
              r.queue in l.queues && r.entry in Zset(l, r.queue) && InRange(l.min, l.max, r.entry) && l.live(r.queue, r.entry)
  {
    hide RowBefore, Zset, RowsFrom;
    RowsExact(l, None, 0);
  }

  /** Following `next` until there is none returns every live task in range
      exactly once, ordered by (queue, score, id), in at most one call more
      than full pages. */
  method ListAll(l: Listing, requested: int) returns (all: seq<Row>, calls: nat)
    requires Valid(l) && requested >= 1
    ensures all == RowsAfter(l, None) && InOrder(all)
    ensures forall r: Row :: r in all <==>
              r.queue in l.queues && r.entry in Zset(l, r.queue) && InRange(l.min, l.max, r.entry) && l.live(r.queue, r.entry)
    ensures (calls - 1) * Min(requested, MAX_PAGE_SIZE) <= |all|
  {
    hide RowsAfter, Valid, InOrder, Zset, InRange, Slice;
    var size := Min(requested, MAX_PAGE_SIZE);
    var cur: Option<Row>;
    all, cur := ListPage(l, None, requested);
    calls := 1;
    ghost var rows := RowsAfter(l, None);
    PageThenRest(l, None, all, cur, size);
    while cur.Some?
      invariant calls >= 1 && all <= rows
      invariant if cur.Some? then |all| == calls * size && rows == all + RowsAfter(l, cur)
                else (calls - 1) * size <= |all| && rows == all
      decreases |rows| - |all|, cur.Some?
    {
      var page, next := ListPage(l, cur, requested);
      PageThenRest(l, cur, page, next, size);
      all, cur, calls := all + page, next, calls + 1;
    }
    WholeListing(l);
  }
}
