/** Every action keeps the invariant of JobInvariant. */
module JobSteps {
  import opened Collections
  import opened JobStore
  import opened Listings
  import opened JobProtocol
  import opened JobInvariant

  // --- enumeration ---

  lemma NothingCounted()
    ensures ActedIn([]) == SkippedIn([], []) == FailedIn([], []) == 0
  {
  }

  lemma FromTheStart(cfg: Cfg, verb: Verb)
    ensures StoredRest(cfg, NewHash(verb)) == AllTasks(cfg.scope)
  {
    RestFresh(cfg.scope, 0, 0);
  }

  lemma InitOk(cfg: Cfg, verb: Verb)
    ensures Inv(cfg, Init(verb))
  {
    hide ActedIn, SkippedIn, FailedIn, Rest, AllTasks;
    NothingCounted();
    assert AllTasks(cfg.scope)[..0] == [];
    assert StoredRest(cfg, NewHash(verb)) == AllTasks(cfg.scope) by {
      FromTheStart(cfg, verb);
    }
    assert EnumOk(cfg, NewKeys(verb), false);
  }

  lemma NothingPushed(k: Keys)
    ensures k.candidates + [] == k.candidates
    ensures PushCapped(k.sample, [], SAMPLE_SIZE) == k.sample
    ensures PushCapped(k.failures, [], MAX_FAILURE_REPORT) == k.failures
  {
  }

  /** Freezing the queue list moves neither the cursor nor the lists. */
  lemma FreezeQueuesOk(cfg: Cfg, s: Sys, t: nat, j: Hash)
    requires Inv(cfg, s) && t in s.sessions && s.sessions[t].pc == EnumEntry(j)
    requires j.queues.None? && s.keys.hash.fence == t
    ensures Inv(cfg, AdvanceSession(cfg, s, t))
  {
    hide Rest, AllTasks, RefsOf, Tiles, Decided, ActedIn, SkippedIn, FailedIn;
    assert SessionOk(cfg, s.keys, s.hist, t, s.sessions[t].pc);
    var h, k := s.keys.hash, Progress(s.keys, t, Write(NO_FIELDS.(queues := Some(cfg.scope.queues)), [], [], []));
    NothingPushed(s.keys);
    assert k == s.keys.(hash := h.(queues := Some(cfg.scope.queues)));
    assert EnumOk(cfg, k, s.hist.dropped);
    var w := StartWalk(j.(queues := Some(cfg.scope.queues)));
    StartRest(cfg, j.(queues := Some(cfg.scope.queues)));
    assert WalkOk(cfg, k.hash, w);
    CurrentWrite(cfg, s, t, k, s.hist, Walking(w));
  }

  /** Entering the loops from a stored cursor. */
  lemma StartWalkOk(cfg: Cfg, s: Sys, t: nat, j: Hash)
    requires Inv(cfg, s) && t in s.sessions && s.sessions[t].pc == EnumEntry(j) && j.queues.Some?
    ensures Inv(cfg, SetPc(s, t, Walking(StartWalk(j))))
  {
    hide Rest, WalkRest, AllTasks, RefsOf;
    assert SessionOk(cfg, s.keys, s.hist, t, s.sessions[t].pc);
    StartRest(cfg, j);
    LocalStep(cfg, s, t, Walking(StartWalk(j)));
  }

  lemma StaleEnterQueue(cfg: Cfg, s: Sys, t: nat, w: Walk)
    requires Inv(cfg, s) && t in s.sessions && s.sessions[t].pc == Walking(w) && s.keys.hash.fence != t
    requires w.qi < |Or(w.j.queues, [])|
    ensures Inv(cfg, EnterQueue(cfg, s, t, w))
  {
    hide KeysOk, RefsOf, AllTasks, PushCapped, Rest;
    assert SessionOk(cfg, s.keys, s.hist, t, Walking(w));
    var pc := EnterQueue(cfg, s, t, w).sessions[t].pc;
    assert EnterQueue(cfg, s, t, w) == SetPc(s, t, pc);
    LocalStep(cfg, s, t, pc);
  }

  /** The stored start of a queue is where a walk that enters it stands. */
  lemma FrozenRest(cfg: Cfg, w: Walk, gs: seq<string>)
    requires cfg.scope.aggregating && w.qi < |cfg.scope.queues|
    requires w.qi == w.startQ ==> w.startG == 0 && w.startPage == 1
    ensures Rest(cfg.scope, w.qi, Some(gs), 0, 1) == WalkRest(cfg, InQueue(w, gs))
  {
  }

  /** Freezing the group list of the queue about to be walked. */
  lemma FreezeGroupsOk(cfg: Cfg, s: Sys, t: nat, w: Walk, q: string)
    requires Inv(cfg, s) && t in s.sessions && s.sessions[t].pc == Walking(w) && s.keys.hash.fence == t
    requires w.qi < |Or(w.j.queues, [])| && w.groups.None? && q == Or(w.j.queues, [])[w.qi]
    requires cfg.scope.aggregating && q in cfg.scope.groups && !(w.qi == w.startQ && w.j.groups.Some?)
    ensures Inv(cfg, EnterQueue(cfg, s, t, w))
  {
    hide WalkRest, AllTasks, RefsOf, QueuesFrom, GroupsRest, GroupsFrom, ActedIn, SkippedIn, FailedIn, Tiles, Decided;
    assert SessionOk(cfg, s.keys, s.hist, t, Walking(w));
    var gs := cfg.scope.groups[q];
    var k := Progress(s.keys, t, FreezeGroups(w.qi, gs));
    NothingPushed(s.keys);
    EnterRest(cfg, w);
    FrozenRest(cfg, w, gs);
    assert EnumOk(cfg, k, s.hist.dropped);
    CurrentWrite(cfg, s, t, k, s.hist, Walking(InQueue(w, gs)));
  }

  lemma EnterQueueOk(cfg: Cfg, s: Sys, t: nat, w: Walk)
    requires Inv(cfg, s) && t in s.sessions && s.sessions[t].pc == Walking(w)
    requires w.qi < |Or(w.j.queues, [])| && w.groups.None?
    ensures Inv(cfg, EnterQueue(cfg, s, t, w))
  {
    hide Rest, WalkRest, AllTasks, RefsOf;
    var q := Or(w.j.queues, [])[w.qi];
    assert SessionOk(cfg, s.keys, s.hist, t, Walking(w));
    if s.keys.hash.fence != t {
      StaleEnterQueue(cfg, s, t, w);
    } else {
      EnterRest(cfg, w);
      if !cfg.scope.aggregating {
        LocalStep(cfg, s, t, Walking(InQueue(w, [""])));
      } else if w.qi == w.startQ && w.j.groups.Some? {
        LocalStep(cfg, s, t, Walking(InQueue(w, w.j.groups.value)));
      } else if q !in cfg.scope.groups {
        LocalStep(cfg, s, t, Walking(NextQueue(w)));
      } else {
        FreezeGroupsOk(cfg, s, t, w, q);
      }
    }
  }

  lemma CutFront<T>(all: seq<T>, n: nat, front: seq<T>, rest: seq<T>)
    requires n <= |all| && all[n..] == front + rest
    ensures n + |front| <= |all|
    ensures all[n + |front|..] == rest
    ensures all[..n + |front|] == all[..n] + front
  {
    assert |all[n..]| == |front| + |rest|;
    assert all == all[..n] + (front + rest);
  }

  /** The bookkeeping of one page: what it scans is what the cursor passes,
      and what it pushes is what it matches. */
  lemma PageBookkeeping(cfg: Cfg, n: nat, batch: seq<Task>, rest: seq<Task>)
    requires n <= |AllTasks(cfg.scope)| && AllTasks(cfg.scope)[n..] == batch + rest
    ensures n + |batch| <= |AllTasks(cfg.scope)|
    ensures AllTasks(cfg.scope)[n + |batch|..] == rest
    ensures RefsOf(cfg.scope, AllTasks(cfg.scope)[..n + |batch|]) == RefsOf(cfg.scope, AllTasks(cfg.scope)[..n]) + RefsOf(cfg.scope, batch)
  {
    var all := AllTasks(cfg.scope);
    CutFront(all, n, batch, rest);
    RefsOfConcat(cfg.scope, all[..n], batch);
  }

  lemma SampleGrows(found: seq<Ref>, refs: seq<Ref>)
    ensures PushCapped(found[..Min(|found|, SAMPLE_SIZE)], refs[..Min(|refs|, SAMPLE_SIZE)], SAMPLE_SIZE)
            == (found + refs)[..Min(|found + refs|, SAMPLE_SIZE)]
  {
  }

  /** The lists after a page, whether or not the candidates were dropped. */
  lemma PageLists(cfg: Cfg, k: Keys, t: nat, dropped: bool, w: Walk, gs: seq<string>, batch: seq<Task>, found: seq<Ref>)
    requires k.hash.fence == t && SameScan(w.j, k.hash) && ListsOk(found, k, dropped)
    ensures ListsOk(found + RefsOf(cfg.scope, batch), Progress(k, t, PageWrite(cfg, w, gs, batch)), dropped)
  {
    SampleGrows(found, RefsOf(cfg.scope, batch));
  }

  /** A page is the front of what the walk will still visit. */
  lemma PageIsFront(cfg: Cfg, w: Walk, gs: seq<string>, batch: seq<Task>)
    requires w.qi < |cfg.scope.queues| && w.groups == Some(gs) && w.gi < |gs|
    requires Page(cfg.scope, cfg.scope.queues[w.qi], gs[w.gi], w.page) == Some(batch)
    ensures WalkRest(cfg, w) == batch + WalkRest(cfg, AfterPage(cfg, w, |batch|, |RefsOf(cfg.scope, batch)|))
  {
    hide GroupsRest, GroupsFrom, QueuesFrom, RefsOf, Rest;
    var q := cfg.scope.queues[w.qi];
    var w' := AfterPage(cfg, w, |batch|, |RefsOf(cfg.scope, batch)|);
    GroupsRestStep(cfg.scope, q, gs, w.gi, w.page);
    ConcatAssoc(batch, GroupsRest(cfg.scope, q, gs, w'.gi, w'.page), QueuesFrom(cfg.scope, w.qi + 1));
  }

  function PageHash(cfg: Cfg, h: Hash, w: Walk, gs: seq<string>, batch: seq<Task>): Hash {
    var last := |batch| < cfg.scope.pageSize;
    var leaves := last && w.gi + 1 >= |gs|;
    h.(candidates := w.j.candidates + |RefsOf(cfg.scope, batch)|, scanned := w.j.scanned + |batch|,
    qidx := if leaves then w.qi + 1 else w.qi,
    gidx := if leaves then 0 else if last then w.gi + 1 else w.gi,
    page := if last then 1 else w.page + 1,
    groups := if leaves then None else h.groups)
  }

  /** The hash after a page, field by field. */
  lemma PageHashIs(cfg: Cfg, k: Keys, w: Walk, gs: seq<string>, batch: seq<Task>)
    ensures Progress(k, k.hash.fence, PageWrite(cfg, w, gs, batch)).hash == PageHash(cfg, k.hash, w, gs, batch)
  {
    NothingPushed(k);
  }

  /** The cursor a page stores is where its walk stands: in the same queue, ... */
  lemma CursorInQueue(cfg: Cfg, h: Hash, w: Walk, gs: seq<string>, gi: nat, page: pos, h': Hash)
    requires WalkOk(cfg, h, w) && w.groups == Some(gs) && gi < |gs| && w.gi < |gs|
    requires h'.queues == h.queues && h'.groups == h.groups
    requires h'.qidx == w.qi && h'.gidx == gi && h'.page == page
    ensures StoredRest(cfg, h') == GroupsRest(cfg.scope, cfg.scope.queues[w.qi], gs, gi, page) + QueuesFrom(cfg.scope, w.qi + 1)
  {
    hide AllTasks, WalkRest, GroupsRest, QueuesFrom;
  }

  /** ... or at the start of the next one. */
  lemma CursorNextQueue(cfg: Cfg, w: Walk, h': Hash)
    requires h'.qidx == w.qi + 1 && h'.gidx == 0 && h'.groups == None && h'.page == 1
    ensures StoredRest(cfg, h') == QueuesFrom(cfg.scope, w.qi + 1)
  {
    hide Rest, QueuesFrom;
    RestFresh(cfg.scope, w.qi + 1, 1);
  }

  lemma PageCursor(cfg: Cfg, h: Hash, w: Walk, gs: seq<string>, n: nat, m: nat, h': Hash)
    requires WalkOk(cfg, h, w) && w.groups == Some(gs) && w.gi < |gs| && CursorOk(cfg, h)
    requires h'.queues == h.queues
    requires h'.page == if n < cfg.scope.pageSize then 1 else w.page + 1
    requires if n < cfg.scope.pageSize && w.gi + 1 >= |gs|
             then h'.qidx == w.qi + 1 && h'.gidx == 0 && h'.groups == None
             else h'.qidx == w.qi && h'.gidx == (if n < cfg.scope.pageSize then w.gi + 1 else w.gi) && h'.groups == h.groups
    ensures StoredRest(cfg, h') == WalkRest(cfg, AfterPage(cfg, w, n, m)) && CursorOk(cfg, h')
  {
    hide AllTasks, GroupsFrom, QueuesFrom, Rest;
    if n < cfg.scope.pageSize && w.gi + 1 >= |gs| {
      CursorNextQueue(cfg, w, h');
      assert [] + QueuesFrom(cfg.scope, w.qi + 1) == QueuesFrom(cfg.scope, w.qi + 1);
    } else {
      CursorInQueue(cfg, h, w, gs, h'.gidx, h'.page, h');
    }
  }

  /** Cursor, count and walk after a page. */
  lemma PageScanOk(cfg: Cfg, h: Hash, w: Walk, gs: seq<string>, batch: seq<Task>)
    requires CursorOk(cfg, h) && WalkOk(cfg, h, w)
    requires w.groups == Some(gs) && w.gi < |gs|
    requires Page(cfg.scope, cfg.scope.queues[w.qi], gs[w.gi], w.page) == Some(batch)
    ensures var h' := PageHash(cfg, h, w, gs, batch);
            CursorOk(cfg, h') && h'.scanned <= |AllTasks(cfg.scope)|
            && StoredRest(cfg, h') == AllTasks(cfg.scope)[h'.scanned..]
            && FoundSoFar(cfg, h') == FoundSoFar(cfg, h) + RefsOf(cfg.scope, batch)
            && WalkRest(cfg, AfterPage(cfg, w, |batch|, |RefsOf(cfg.scope, batch)|)) == AllTasks(cfg.scope)[h'.scanned..]
  {
    hide WalkRest, AllTasks, RefsOf, Rest, Page;
    var w' := AfterPage(cfg, w, |batch|, |RefsOf(cfg.scope, batch)|);
    PageIsFront(cfg, w, gs, batch);
    PageCursor(cfg, h, w, gs, |batch|, |RefsOf(cfg.scope, batch)|, PageHash(cfg, h, w, gs, batch));
    PageBookkeeping(cfg, h.scanned, batch, WalkRest(cfg, w'));
  }

  /** The stored enumeration after an accepted page. */
  lemma PageEnumOk(cfg: Cfg, k: Keys, dropped: bool, w: Walk, gs: seq<string>, batch: seq<Task>)
    requires EnumOk(cfg, k, dropped) && Scanning(k.hash) && WalkOk(cfg, k.hash, w)
    requires w.groups == Some(gs) && w.gi < |gs|
    requires Page(cfg.scope, cfg.scope.queues[w.qi], gs[w.gi], w.page) == Some(batch)
    ensures var k' := Progress(k, k.hash.fence, PageWrite(cfg, w, gs, batch));
            k'.hash == PageHash(cfg, k.hash, w, gs, batch) && EnumOk(cfg, k', dropped)
  {
    PageHashIs(cfg, k, w, gs, batch);
    PageScanOk(cfg, k.hash, w, gs, batch);
    PageLists(cfg, k, k.hash.fence, dropped, w, gs, batch, FoundSoFar(cfg, k.hash));
  }

  lemma PageWalkOk(cfg: Cfg, h: Hash, w: Walk, gs: seq<string>, batch: seq<Task>)
    requires CursorOk(cfg, h) && WalkOk(cfg, h, w)
    requires w.groups == Some(gs) && w.gi < |gs|
    requires Page(cfg.scope, cfg.scope.queues[w.qi], gs[w.gi], w.page) == Some(batch)
    ensures WalkOk(cfg, PageHash(cfg, h, w, gs, batch), AfterPage(cfg, w, |batch|, |RefsOf(cfg.scope, batch)|))
  {
    PageScanOk(cfg, h, w, gs, batch);
  }

  lemma PageKeysOk(cfg: Cfg, k: Keys, hist: Hist, w: Walk, gs: seq<string>, batch: seq<Task>)
    requires KeysOk(cfg, k, hist) && Scanning(k.hash) && WalkOk(cfg, k.hash, w)
    requires w.groups == Some(gs) && w.gi < |gs|
    requires Page(cfg.scope, cfg.scope.queues[w.qi], gs[w.gi], w.page) == Some(batch)
    ensures var k' := Progress(k, k.hash.fence, PageWrite(cfg, w, gs, batch));
            KeysOk(cfg, k', hist)
            && WalkOk(cfg, k'.hash, AfterPage(cfg, w, |batch|, |RefsOf(cfg.scope, batch)|))
  {
    PageEnumOk(cfg, k, hist.dropped, w, gs, batch);
    PageWalkOk(cfg, k.hash, w, gs, batch);
    NothingPushed(k);
  }

  lemma PageWritten(cfg: Cfg, s: Sys, t: nat, w: Walk, gs: seq<string>, batch: seq<Task>)
    requires Inv(cfg, s) && t in s.sessions && s.sessions[t].pc == Walking(w) && s.keys.hash.fence == t
    requires w.qi < |Or(w.j.queues, [])| && w.groups == Some(gs) && w.gi < |gs|
    requires Page(cfg.scope, Or(w.j.queues, [])[w.qi], gs[w.gi], w.page) == Some(batch)
    ensures Inv(cfg, WalkPage(cfg, s, t, w, gs))
  {
    hide RefsOf, Rest, WalkRest, AllTasks, EnumOk, Tiles;
    assert SessionOk(cfg, s.keys, s.hist, t, Walking(w));
    var k := Progress(s.keys, t, PageWrite(cfg, w, gs, batch));
    var w' := AfterPage(cfg, w, |batch|, |RefsOf(cfg.scope, batch)|);
    PageKeysOk(cfg, s.keys, s.hist, w, gs, batch);
    CurrentWrite(cfg, s, t, k, s.hist,
                 if w'.j.candidates > MAX_CANDIDATES then Finalizing(Failed, true) else CheckWalk(w'));
  }

  lemma WalkPageOk(cfg: Cfg, s: Sys, t: nat, w: Walk, gs: seq<string>)
    requires Inv(cfg, s) && t in s.sessions && s.sessions[t].pc == Walking(w)
    requires w.qi < |Or(w.j.queues, [])| && w.groups == Some(gs) && w.gi < |gs|
    ensures Inv(cfg, WalkPage(cfg, s, t, w, gs))
  {
    hide WalkRest, AllTasks, RefsOf, Rest;
    assert SessionOk(cfg, s.keys, s.hist, t, Walking(w));
    var q := Or(w.j.queues, [])[w.qi];
    match Page(cfg.scope, q, gs[w.gi], w.page) {
      case None =>
        if s.keys.hash.fence == t {
          SkipGroupRest(cfg, w);
        }
        LocalStep(cfg, s, t, Walking(w.(gi := w.gi + 1, page := 1)));
      case Some(batch) =>
        if s.keys.hash.fence == t {
          PageWritten(cfg, s, t, w, gs, batch);
        } else {
          LocalStep(cfg, s, t, Releasing);
        }
    }
  }

  lemma WalkRestEmpty(cfg: Cfg, w: Walk)
    requires w.qi >= |cfg.scope.queues|
    ensures WalkRest(cfg, w) == []
  {
  }

  lemma WalkStepOk(cfg: Cfg, s: Sys, t: nat, w: Walk)
    requires Inv(cfg, s) && t in s.sessions && s.sessions[t].pc == Walking(w)
    ensures Inv(cfg, WalkStep(cfg, s, t, w))
  {
    hide WalkRest, RefsOf, Rest, WalkPage, EnterQueue;
    assert SessionOk(cfg, s.keys, s.hist, t, Walking(w));
    if w.qi >= |Or(w.j.queues, [])| {
      if s.keys.hash.fence == t {
        WalkRestEmpty(cfg, w);
      }
      LocalStep(cfg, s, t, Completing);
    } else if w.groups.None? {
      EnterQueueOk(cfg, s, t, w);
    } else if w.gi >= |w.groups.value| {
      if s.keys.hash.fence == t {
        LeaveRest(cfg, w);
      }
      LocalStep(cfg, s, t, Walking(NextQueue(w)));
    } else {
      WalkPageOk(cfg, s, t, w, w.groups.value);
    }
  }

  // --- the other round trips of a session ---

  lemma CompletePreviewOk(cfg: Cfg, s: Sys, t: nat)
    requires Inv(cfg, s) && t in s.sessions && s.sessions[t].pc == Completing
    ensures Inv(cfg, AdvanceSession(cfg, s, t))
  {
    hide AllTasks, Rest, RefsOf, Tiles, Decided, ActedIn, SkippedIn, FailedIn;
    assert SessionOk(cfg, s.keys, s.hist, t, Completing);
    if s.keys.hash.fence == t {
      CurrentWrite(cfg, s, t, CompletePreview(s.keys, t), s.hist, Reloading);
    } else {
      LocalStep(cfg, s, t, Releasing);
    }
  }

  lemma FetchingOk(cfg: Cfg, s: Sys, t: nat, j: Hash)
    requires Inv(cfg, s) && t in s.sessions && s.sessions[t].pc == Fetching(j)
    ensures Inv(cfg, AdvanceSession(cfg, s, t))
  {
    hide AllTasks, Rest, RefsOf, WalkRest, Tiles, Decided, ActedIn, SkippedIn, FailedIn;
    assert SessionOk(cfg, s.keys, s.hist, t, Fetching(j));
    var refs := Slice(s.keys.candidates, j.actCursor, cfg.execBatch);
    LocalStep(cfg, s, t, if refs == [] then Finalizing(Done, false) else Acting(j, refs));
  }

  /** A write that only sets the state and clears the control flag. */
  lemma StateWriteOk(cfg: Cfg, s: Sys, t: nat, target: State, pc: Pc)
    requires Inv(cfg, s) && t in s.sessions && s.keys.hash.fence == t
    requires target.IsTerminal() || target == Paused
    requires target == Done ==> AllDecided(s.keys.hash, s.hist.dropped)
    requires pc == Releasing || (pc == Dropping && s.keys.hash.candidates > MAX_CANDIDATES)
    ensures Inv(cfg, SetPc(s.(keys := Progress(s.keys, t, FinalWrite(target))), t, pc))
  {
    hide AllTasks, Rest, RefsOf, WalkRest, Tiles, Decided, ActedIn, SkippedIn, FailedIn;
    assert SessionOk(cfg, s.keys, s.hist, t, s.sessions[t].pc);
    NothingPushed(s.keys);
    var k := Progress(s.keys, t, FinalWrite(target));
    assert EnumOk(cfg, k, s.hist.dropped);
    CurrentWrite(cfg, s, t, k, s.hist, pc);
  }

  /** A session that only winds down relies on nothing. */
  lemma WindDown(cfg: Cfg, s: Sys, t: nat, pc: Pc)
    requires Inv(cfg, s) && t in s.sessions && (pc == Releasing || pc == Ended)
    ensures Inv(cfg, SetPc(s, t, pc))
  {
    hide KeysOk;
    assert SessionOk(cfg, s.keys, s.hist, t, s.sessions[t].pc);
    LocalStep(cfg, s, t, pc);
  }

  lemma DropOk(cfg: Cfg, s: Sys)
    requires Inv(cfg, s) && s.keys.hash.candidates > MAX_CANDIDATES
    ensures Inv(cfg, s.(keys := s.keys.(candidates := []), hist := s.hist.(dropped := true)))
  {
    hide AllTasks, Rest, RefsOf, Tiles, Decided, ActedIn, SkippedIn, FailedIn, QueuesKnown, WalkRest;
    var k, hist := s.keys.(candidates := []), s.hist.(dropped := true);
    assert KeysOk(cfg, k, hist);
    forall u <- s.sessions
      ensures SessionOk(cfg, k, hist, u, s.sessions[u].pc)
    {
      assert SessionOk(cfg, s.keys, s.hist, u, s.sessions[u].pc);
    }
  }

  lemma DroppingOk(cfg: Cfg, s: Sys, t: nat)
    requires Inv(cfg, s) && t in s.sessions && s.sessions[t].pc == Dropping
    ensures Inv(cfg, AdvanceSession(cfg, s, t))
  {
    hide KeysOk;
    assert SessionOk(cfg, s.keys, s.hist, t, Dropping);
    DropOk(cfg, s);
    WindDown(cfg, s.(keys := s.keys.(candidates := []), hist := s.hist.(dropped := true)), t, Releasing);
  }

  /** A superseded session's round trips change nothing but its own place,
      its lease, and, when its own page went over the cap, the list. */
  lemma StaleAdvance(cfg: Cfg, s: Sys, t: nat)
    requires t in s.sessions && s.keys.hash.fence != t
    requires s.sessions[t].pc != Dropping && s.sessions[t].pc != Releasing
    ensures AdvanceSession(cfg, s, t) == SetPc(s, t, AdvanceSession(cfg, s, t).sessions[t].pc)
  {
  }

  lemma StaleNeverDrops(cfg: Cfg, s: Sys, t: nat)
    requires t in s.sessions && s.keys.hash.fence != t
    ensures WillDrop(AdvanceSession(cfg, s, t).sessions[t].pc) ==> WillDrop(s.sessions[t].pc)
  {
  }

  lemma StaleAdvanceOk(cfg: Cfg, s: Sys, t: nat)
    requires Inv(cfg, s) && t in s.sessions && s.keys.hash.fence != t
    requires s.sessions[t].pc != Dropping && s.sessions[t].pc != Releasing
    ensures Inv(cfg, AdvanceSession(cfg, s, t))
  {
    hide Live, StoredRest, ListsOk, ReportOk, CountsOk, CursorTiles;
    assert SessionOk(cfg, s.keys, s.hist, t, s.sessions[t].pc);
    var pc := AdvanceSession(cfg, s, t).sessions[t].pc;
    StaleNeverDrops(cfg, s, t);
    StaleAdvance(cfg, s, t);
    LocalStep(cfg, s, t, pc);
  }

  predicate Storing(pc: Pc) {
    pc.EnumEntry? || pc.Walking? || pc.Completing? || pc.Pausing? || pc.Finalizing?
  }

  lemma WritingOk(cfg: Cfg, s: Sys, t: nat)
    requires Inv(cfg, s) && t in s.sessions && s.keys.hash.fence == t && Storing(s.sessions[t].pc)
    ensures Inv(cfg, AdvanceSession(cfg, s, t))
  {
    assert SessionOk(cfg, s.keys, s.hist, t, s.sessions[t].pc);
    match s.sessions[t].pc {
      case EnumEntry(j) =>
        if j.queues.None? { FreezeQueuesOk(cfg, s, t, j); } else { StartWalkOk(cfg, s, t, j); }
      case Walking(w) => WalkStepOk(cfg, s, t, w);
      case Completing => CompletePreviewOk(cfg, s, t);
      case Pausing => StateWriteOk(cfg, s, t, Paused, Releasing);
      case Finalizing(target, drop) => StateWriteOk(cfg, s, t, target, if drop then Dropping else Releasing);
    }
  }

  lemma CheckWalkOk(cfg: Cfg, s: Sys, t: nat, w: Walk)
    requires Inv(cfg, s) && t in s.sessions && s.keys.hash.fence == t && s.sessions[t].pc == CheckWalk(w)
    ensures Inv(cfg, AdvanceSession(cfg, s, t))
  {
    hide AllTasks, RefsOf, Rest, QueuesFrom, GroupsRest;
    var h := s.keys.hash;
    assert SessionOk(cfg, s.keys, s.hist, t, CheckWalk(w));
    assert WalkRest(cfg, w.(j := h)) == WalkRest(cfg, w);
    LocalStep(cfg, s, t, Checked(h, Walking(w.(j := h))));
  }

  lemma ReadingOk(cfg: Cfg, s: Sys, t: nat)
    requires Inv(cfg, s) && t in s.sessions && s.keys.hash.fence == t && !Storing(s.sessions[t].pc)
    requires s.sessions[t].pc != Dropping && s.sessions[t].pc != Releasing
    ensures Inv(cfg, AdvanceSession(cfg, s, t))
  {
    hide AllTasks, Rest, RefsOf, WalkRest, Tiles, Decided, ActedIn, SkippedIn, FailedIn;
    var h := s.keys.hash;
    assert SessionOk(cfg, s.keys, s.hist, t, s.sessions[t].pc);
    match s.sessions[t].pc {
      case Claimed => LocalStep(cfg, s, t, Loaded(h));
      case CheckWalk(w) => CheckWalkOk(cfg, s, t, w);
      case Reloading =>
        LocalStep(cfg, s, t, if h.phase == Execute && h.state == Running then ExecEntry(h) else Releasing);
      case ExecEntry(j) => LocalStep(cfg, s, t, ExecTop(j));
      case ExecTop(j) =>
        LocalStep(cfg, s, t, if s.keys.lease == Some(s.sessions[t].inst) then Fetching(j) else Releasing);
      case Fetching(j) => FetchingOk(cfg, s, t, j);
      case CheckExec => LocalStep(cfg, s, t, Checked(h, ExecTop(h)));
      case Acting(_, _) =>
      case Ended =>
    }
  }

  /** The lease carries no part of the invariant: the fence is the gate. */
  lemma LeaseOk(cfg: Cfg, s: Sys, lease: Option<string>)
    requires Inv(cfg, s)
    ensures Inv(cfg, s.(keys := s.keys.(lease := lease)))
  {
    hide AllTasks, Rest, RefsOf, Tiles, Decided, ActedIn, SkippedIn, FailedIn;
    var k := s.keys.(lease := lease);
    assert KeysOk(cfg, k, s.hist);
    forall u <- s.sessions
      ensures SessionOk(cfg, k, s.hist, u, s.sessions[u].pc)
    {
      assert SessionOk(cfg, s.keys, s.hist, u, s.sessions[u].pc);
    }
  }

  lemma ReleasingOk(cfg: Cfg, s: Sys, t: nat)
    requires Inv(cfg, s) && t in s.sessions && s.sessions[t].pc == Releasing
    ensures Inv(cfg, AdvanceSession(cfg, s, t))
  {
    hide Inv;
    WindDown(cfg, s, t, Ended);
    LeaseOk(cfg, SetPc(s, t, Ended), Release(s.keys, s.sessions[t].inst).lease);
  }

  lemma {:induction false} AdvanceOk(cfg: Cfg, s: Sys, t: nat)
    requires Inv(cfg, s) && t in s.sessions
    ensures Inv(cfg, AdvanceSession(cfg, s, t))
  {
    hide Inv, AdvanceSession;
    var pc := s.sessions[t].pc;
    if pc == Dropping {
      DroppingOk(cfg, s, t);
    } else if pc == Releasing {
      ReleasingOk(cfg, s, t);
    } else if s.keys.hash.fence != t {
      StaleAdvanceOk(cfg, s, t);
    } else if Storing(pc) {
      WritingOk(cfg, s, t);
    } else {
      ReadingOk(cfg, s, t);
    }
  }
}
