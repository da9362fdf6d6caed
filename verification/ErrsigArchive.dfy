/** One queue's archived sorted set, shared with workers that archive, trims,
    deletions and re-runs, and the sweep that tails it. */
module ErrsigArchive {
  import opened Collections
  import opened SortedSet
  import opened ErrsigTail

  datatype Change = Add(e: Entry) | Remove(e: Entry)

  function Apply(entries: seq<Entry>, c: Change): seq<Entry> {
    match c
    case Add(e) => Insert(entries, e)
    case Remove(e) => Filter(entries, (x: Entry) => x != e)
  }

  /** Nothing is archived at or below a score some sweep has already covered:
      a score is the second its task died in, and a sweep stops short of the
      second that is still running. Anything may be removed at any time. */
  predicate Timely(c: Change, safe: int) {
    c.Add? ==> c.e.score > safe
  }

  /** The change takes out an entry already returned that shares the score of
      the last one returned. */
  predicate RemovesTie(c: Change, entries: seq<Entry>, read: Option<Entry>) {
    c.Remove? && c.e in entries && ServedTie(read, c.e)
  }

  lemma ApplyMembers(entries: seq<Entry>, c: Change)
    requires Ascending(entries)
    ensures Ascending(Apply(entries, c))
    ensures forall x: Entry :: x in Apply(entries, c) <==>
              if c.Add? then x == c.e || x in entries else x in entries && x != c.e
  {
    hide Filter, Before, Insert;
    match c
    case Add(e) => InsertMembers(entries, e);
    case Remove(e) => FilterMembers(entries, (x: Entry) => x != e);
  }

  lemma TiesShrink(entries: seq<Entry>, e: Entry, read: Option<Entry>)
    ensures |TiesOf(Apply(entries, Remove(e)), read)| <= |TiesOf(entries, read)|
  {
    var kept, tie, both := (x: Entry) => x != e, (x: Entry) => ServedTie(read, x), (x: Entry) => x != e && ServedTie(read, x);
    hide ServedTie, Filter;
    FilterTwice(entries, kept, tie, both);
    FilterShrinks(entries, tie, both);
  }

  /** A change leaves the served ties as they are if and only if it is not the
      removal of one of them, and it never adds to them. */
  lemma TiesKeptIff(entries: seq<Entry>, c: Change, read: Option<Entry>, safe: int)
    requires Ascending(entries) && Timely(c, safe) && (read.Some? ==> read.value.score <= safe)
    ensures TiesOf(Apply(entries, c), read) == TiesOf(entries, read) <==> !RemovesTie(c, entries, read)
    ensures |TiesOf(Apply(entries, c), read)| <= |TiesOf(entries, read)|
  {
    hide Filter, Before, Apply;
    ApplyMembers(entries, c);
    FilterMembers(entries, (e: Entry) => ServedTie(read, e));
    FilterMembers(Apply(entries, c), (e: Entry) => ServedTie(read, e));
    if RemovesTie(c, entries, read) {
      TiesShrink(entries, c.e, read);
      assert c.e in TiesOf(entries, read) && c.e !in TiesOf(Apply(entries, c), read);
    } else {
      AscendingUnique(TiesOf(Apply(entries, c), read), TiesOf(entries, read));
    }
  }

  /** The furthest entry returned so far. */
  function Further(from: Option<int>, read: Option<Entry>, last: Entry): Option<Entry> {
    if Unread(from, read, last) then Some(last) else read
  }

  lemma ReadForward(from: Option<int>, read: Option<Entry>, last: Entry)
    ensures forall e: Entry :: Unread(from, Further(from, read, last), e) ==> Unread(from, read, e)
  {
    hide StringBefore;
    BeforeIsOrder();
  }

  lemma WindowTop(entries: seq<Entry>, min: Option<int>, max: int, offset: nat)
    ensures var page := Slice(Window(entries, min, Some(max)), offset, TAIL_BATCH);
            page != [] ==> page[|page| - 1].score <= max
  {
    FilterMembers(entries, (x: Entry) => InRange(min, Some(max), x));
    var w := Window(entries, min, Some(max));
    if offset < |w| {
      assert w[Min(offset + TAIL_BATCH, |w|) - 1] in w;
    }
  }

  /** Everything a feed says. */
  ghost function Said(feed: seq<seq<Change>>): set<Change> {
    set acts, c | acts in feed && c in acts :: c
  }

  /** Whatever is or was here came and went by the changes there were. */
  ghost predicate Accounted(entries: seq<Entry>, start: seq<Entry>, removed: set<Entry>, steady: bool,
                            first: seq<Entry>, said: set<Change>) {
    && (forall e: Entry :: e in entries || e in start || e in removed ==> e in first || Add(e) in said)
    && (forall e: Entry :: e in removed ==> Remove(e) in said)
    && (!steady ==> exists e: Entry :: Remove(e) in said)
  }

  lemma AccountedBegin(entries: seq<Entry>, start: seq<Entry>, removed: set<Entry>, steady: bool,
                       first: seq<Entry>, said: set<Change>)
    requires Accounted(entries, start, removed, steady, first, said)
    ensures Accounted(entries, entries, {}, true, first, said)
  {
  }

  lemma AccountedChange(entries: seq<Entry>, start: seq<Entry>, removed: set<Entry>, steady: bool,
                        first: seq<Entry>, said: set<Change>, c: Change, ties: bool)
    requires Ascending(entries) && c in said && Accounted(entries, start, removed, steady, first, said)
    ensures c.Add? ==> Accounted(Apply(entries, c), start, removed - {c.e}, steady, first, said)
    ensures c.Remove? ==>
              Accounted(Apply(entries, c), start, if c.e in entries then removed + {c.e} else removed, steady && ties, first, said)
  {
    hide Apply;
    ApplyMembers(entries, c);
  }

  /** The sorted set, and what the current sweep has had of it. `feed` is what
      everyone else does at each of the sweep's commands, and `outage` tells
      which of the range queries fail. */
  class Archive {
    const outage: seq<bool>
    var entries: seq<Entry>
    var feed: seq<seq<Change>>
    var asked: nat                   // range queries sent so far
    var safe: int
    var from: Option<int>
    var read: Option<Entry>
    ghost var start: seq<Entry>      // the set when the sweep began
    ghost var removed: set<Entry>    // removed since then
    ghost var gone: set<Entry>       // of those, removed before a page returned them
    ghost var skipped: set<Entry>    // in the set, but passed over by a page
    ghost var deferred: set<Entry>   // in the set, but not reached by an empty page
    ghost var steady: bool           // no served tie was removed since the sweep began
    ghost const first: seq<Entry>    // the set at the very beginning
    ghost const said: set<Change>    // every change there will ever be

    ghost predicate Valid()
      reads this
    {
      && Ascending(entries) && Ascending(start)
      && (read.Some? ==> read.value.score <= safe)
      && gone <= removed
      && (forall e: Entry :: e in entries ==> e !in removed)
      && (forall e: Entry :: e.score <= safe ==> (e in entries <==> e in start && e !in removed))
      && (forall e: Entry :: e in start ==> e in entries || e in removed)
      && (forall e: Entry :: e in removed && e.score <= safe ==> e in start)
      && (forall e: Entry :: e in removed && e !in gone ==> !Unread(from, read, e))
      && Said(feed) <= said && Accounted(entries, start, removed, steady, first, said)
    }

    /** The range query sent after `i` others fails. */
    predicate Fails(i: nat) {
      i < |outage| && outage[i]
    }

    /** No range query failed since `since` of them had been sent. */
    ghost predicate AnsweredSince(since: nat)
      reads `asked
    {
      forall i :: since <= i < asked ==> !Fails(i)
    }

    /** What no page of this sweep has returned nor will. */
    ghost function Missed(): set<Entry>
      reads this
    {
      gone + skipped
    }

    /** What may change while the sweep waits for a command. */
    twostate predicate Drifted()
      reads this
    {
      && safe == old(safe) && from == old(from) && read == old(read) && start == old(start)
      && skipped == old(skipped) && deferred == old(deferred) && asked == old(asked)
      && |TiesOf(entries, read)| <= |TiesOf(old(entries), read)|
      && (steady ==> old(steady) && TiesOf(entries, read) == TiesOf(old(entries), read))
      && (forall e: Entry :: e.score <= safe && e in old(gone) ==> e in gone)
      && (forall e: Entry :: e.score <= safe && e in gone && e !in old(gone) ==> Unread(from, read, e))
    }

    constructor (entries: seq<Entry>, feed: seq<seq<Change>>, outage: seq<bool>)
      requires Ascending(entries)
      ensures Valid() && this.entries == start == first == entries && removed == {} && said == Said(feed)
      ensures this.outage == outage && asked == 0
    {
      this.entries, this.feed, this.outage, this.start, asked := entries, feed, outage, entries, 0;
      safe, from, read, removed, gone := 0, None, None, {}, {};
      skipped, deferred, steady, first, said := {}, {}, true, entries, Said(feed);
    }

    /** Everyone else acts. */
    method Others()
      requires Valid()
      modifies this
      ensures Valid() && Drifted()
    {
      var acts := [];
      if feed != [] {
        acts, feed := feed[0], feed[1..];
        assert forall c <- acts :: c in Said(old(feed));
      }
      for i := 0 to |acts|
        invariant Valid() && Drifted() && forall c <- acts :: c in said
      {
        if Timely(acts[i], safe) {
          Change(acts[i]);
        }
      }
    }

    method Change(c: Change)
      requires Valid() && Timely(c, safe) && c in said
      modifies this
      ensures Valid() && Drifted() && feed == old(feed)
      ensures entries == Apply(old(entries), c)
      ensures steady <==> old(steady) && !RemovesTie(c, old(entries), old(read))
    {
      hide Ascending, Before, Apply, TiesOf, Unread, Said, Accounted;
      AccountedChange(entries, start, removed, steady, first, said, c, !RemovesTie(c, entries, read));
      ApplyMembers(entries, c);
      TiesKeptIff(entries, c, read, safe);
      hide ServedTie;
      steady := steady && !RemovesTie(c, entries, read);
      match c {
        case Add(e) =>
          removed, gone := removed - {e}, gone - {e};
        case Remove(e) =>
          if e in entries {
            removed := removed + {e};
            if Unread(from, read, e) {
              gone := gone + {e};
            }
          }
      }
      entries := Apply(entries, c);
    }

    /** A new sweep, starting at score `from` and stopping at `max`. */
    method Begin(from: Option<int>, max: int)
      requires Valid()
      modifies this
      ensures Valid() && entries == start == old(entries) && removed == gone == {} && feed == old(feed)
      ensures skipped == deferred == {} && steady
      ensures asked == old(asked) && this.from == from && read == None && safe == if max > old(safe) then max else old(safe)
    {
      hide Ascending, TiesOf, Unread, Said, Accounted;
      AccountedBegin(entries, start, removed, steady, first, said);
      this.from, read, start, removed, gone := from, None, entries, {}, {};
      skipped, deferred, steady := {}, {}, true;
      safe := if max > safe then max else safe;
    }

    /** One range query: at most TAIL_BATCH entries of the score window, from
        `offset` on; None exactly when the command fails. Everyone else acts first.
        Unread entries in front of the offset are passed over by the page, or
        just not reached when the page is empty. */
    method RangeByScore(min: Option<int>, max: int, offset: nat) returns (page: Option<seq<Entry>>)
      requires Valid() && max <= safe
      modifies this
      ensures Valid() && safe == old(safe) && from == old(from) && start == old(start)
      ensures asked == old(asked) + 1 && (page == None <==> Fails(old(asked)))
      ensures |TiesOf(entries, old(read))| <= old(|TiesOf(entries, read)|)
      ensures steady ==> old(steady) && TiesOf(entries, old(read)) == old(TiesOf(entries, read))
      ensures forall e: Entry :: e.score <= safe && e in old(gone) ==> e in gone
      ensures forall e: Entry :: e.score <= safe && e in gone && e !in old(gone) ==> Unread(from, old(read), e)
      ensures forall e: Entry :: e in removed && e !in gone ==> !Unread(from, old(read), e)
      ensures page.Some? ==> page.value == Slice(Window(entries, min, Some(max)), offset, TAIL_BATCH)
      ensures read == if page.Some? && page.value != [] then Further(from, old(read), page.value[|page.value| - 1]) else old(read)
      ensures var passed := Passed(entries, from, old(read), min, max, offset);
              && skipped == old(skipped) + (if page.Some? && page.value != [] then passed else {})
              && deferred == old(deferred) + (if page == Some([]) then passed else {})
    {
      hide Before, TiesOf, Unread, Passed, Filter, Window, Accounted, Slice, Ascending, Said;
      Others();
      asked := asked + 1;
      if Fails(asked - 1) {
        return None;
      }
      var ps := Slice(Window(entries, min, Some(max)), offset, TAIL_BATCH);
      ghost var passed := Passed(entries, from, read, min, max, offset);
      if ps != [] {
        WindowTop(entries, min, max, offset);
        ReadForward(from, read, ps[|ps| - 1]);
        read := Further(from, read, ps[|ps| - 1]);
        skipped := skipped + passed;
      } else {
        deferred := deferred + passed;
      }
      page := Some(ps);
    }

    /** Fetch one task: everyone else acts meanwhile, and the task may be gone. */
    method GetTaskInfo(e: Entry) returns (archived: bool)
      requires Valid()
      modifies this
      ensures Valid() && Drifted()
    {
      Others();
      archived := *;
    }
  }
}
