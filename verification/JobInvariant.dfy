/** What every reachable state of a bulk job satisfies whatever its state field
    says, and the framing lemmas that keep it: a session may write only while
    its token is current, so no other session's view can be the current one. */
module JobInvariant {
  import opened Collections
  import opened JobStore
  import opened Listings
  import opened JobProtocol

  // --- the stored job ---

  /** Counting jobs never execute; an incomplete preview is executed only with
      an acknowledgement, and never for delete. */
  ghost predicate MayExecute(h: Hash, proceed: bool) {
    h.verb != Count && (h.previewComplete || (h.verb != Delete && proceed))
  }

  ghost function StoredRest(cfg: Cfg, h: Hash): seq<Task> {
    Rest(cfg.scope, h.qidx, h.groups, h.gidx, h.page)
  }

  /** The cursor belongs to the frozen queue list, and a cursor without a
      frozen group list stands at the start of its queue. */
  ghost predicate CursorOk(cfg: Cfg, h: Hash) {
    && (h.queues.None? ==> h.qidx == 0 && h.gidx == 0 && h.page == 0 && h.groups.None?)
    && (h.queues.Some? ==> h.queues.value == cfg.scope.queues)
    && (cfg.scope.aggregating && h.groups.None? ==> h.gidx == 0 && h.page <= 1)
  }

  ghost function FoundSoFar(cfg: Cfg, h: Hash): seq<Ref>
    requires h.scanned <= |AllTasks(cfg.scope)|
  {
    RefsOf(cfg.scope, AllTasks(cfg.scope)[..h.scanned])
  }

  ghost predicate ListsOk(found: seq<Ref>, k: Keys, dropped: bool) {
    && k.hash.candidates == |found|
    && k.sample == found[..Min(|found|, SAMPLE_SIZE)]
    && |k.candidates| <= k.hash.candidates
    && (if dropped then k.hash.candidates > MAX_CANDIDATES else k.candidates == found)
  }

  /** What the cursor leaves is exactly what has not been scanned, and the
      lists hold exactly the matches of what has. */
  ghost predicate EnumOk(cfg: Cfg, k: Keys, dropped: bool) {
    var h := k.hash;
    && CursorOk(cfg, h)
    && h.scanned <= |AllTasks(cfg.scope)|
    && StoredRest(cfg, h) == AllTasks(cfg.scope)[h.scanned..]
    && (h.previewComplete ==> h.scanned == |AllTasks(cfg.scope)|)
    && ListsOk(FoundSoFar(cfg, h), k, dropped)
  }

  ghost function Decided(full: seq<Batch>): seq<Ref> {
    if full == [] then [] else Decided(full[..|full| - 1]) + full[|full| - 1].refs
  }

  /** Each full batch starts where the one before it ended, and batches of an
      older claim never follow those of a newer one. */
  ghost predicate Tiles(full: seq<Batch>) {
    full == [] ||
    var n := |full| - 1;
    && Tiles(full[..n])
    && full[n].refs != []
    && full[n].lo == |Decided(full[..n])|
    && (n > 0 ==> full[n - 1].token <= full[n].token)
  }

  /** The report is the front of everything that failed. */
  ghost predicate ReportOk(k: Keys, failures: seq<Failure>) {
    && k.hash.failed == |failures|
    && k.failures == failures[..Min(|failures|, MAX_FAILURE_REPORT)]
    && k.hash.overflow == |failures| - |k.failures|
  }

  ghost predicate CountsOk(h: Hash, hist: Hist) {
    && h.acted == ActedIn(hist.decisions)
    && h.skipped == SkippedIn(hist.answers, hist.decisions)
    && h.failed == FailedIn(hist.answers, hist.decisions)
    && h.acted + h.skipped + h.failed == h.actCursor + hist.partial
  }

  /** No task that had stopped matching was acted on. */
  ghost predicate TouchedOk(cfg: Cfg, hist: Hist) {
    forall t <- hist.touched :: cfg.scope.matches(t)
  }

  ghost predicate CursorTiles(k: Keys, hist: Hist) {
    && Tiles(hist.full)
    && |Decided(hist.full)| == k.hash.actCursor
    && (hist.full != [] ==> hist.full[|hist.full| - 1].token <= k.hash.fence)
    && k.hash.actCursor <= k.hash.candidates
    && (k.hash.actCursor > 0 ==> k.hash.previewComplete)
    && (!hist.dropped ==> Decided(hist.full) <= k.candidates)
  }

  /** Everything there was to act on has been decided. */
  ghost predicate AllDecided(h: Hash, dropped: bool) {
    h.previewComplete && (dropped || h.actCursor == h.candidates)
  }

  ghost predicate KeysOk(cfg: Cfg, k: Keys, hist: Hist) {
    && (k.hash.phase == Execute ==> MayExecute(k.hash, k.hash.proceedOnPartial))
    && EnumOk(cfg, k, hist.dropped)
    && ReportOk(k, hist.failures)
    && CountsOk(k.hash, hist)
    && TouchedOk(cfg, hist)
    && CursorTiles(k, hist)
    && (k.hash.state == Done ==> AllDecided(k.hash, hist.dropped))
  }

  // --- the sessions ---

  /** What a walk will still visit. */
  ghost function WalkRest(cfg: Cfg, w: Walk): seq<Task> {
    if w.qi >= |cfg.scope.queues| then []
    else if w.groups.None? then
      if w.qi == w.startQ then Rest(cfg.scope, w.qi, w.j.groups, w.startG, w.startPage) else QueuesFrom(cfg.scope, w.qi)
    else GroupsRest(cfg.scope, cfg.scope.queues[w.qi], w.groups.value, w.gi, w.page) + QueuesFrom(cfg.scope, w.qi + 1)
  }

  /** The group list a walk uses in the queue it is about to enter. */
  ghost function GroupsFor(cfg: Cfg, w: Walk): Option<seq<string>>
    requires w.qi < |cfg.scope.queues|
  {
    if cfg.scope.aggregating && w.qi == w.startQ && w.j.groups.Some? then w.j.groups else GroupsOf(cfg.scope, cfg.scope.queues[w.qi])
  }

  lemma StartRest(cfg: Cfg, j: Hash)
    ensures WalkRest(cfg, StartWalk(j)) == StoredRest(cfg, j)
  {
  }

  /** Entering a queue, and passing over one that is gone, skips nothing. */
  lemma EnterRest(cfg: Cfg, w: Walk)
    requires w.startQ <= w.qi < |cfg.scope.queues| && w.groups.None?
    ensures match GroupsFor(cfg, w)
            case Some(gs) => WalkRest(cfg, InQueue(w, gs)) == WalkRest(cfg, w)
            case None => WalkRest(cfg, NextQueue(w)) == WalkRest(cfg, w)
  {
    hide GroupsRest, GroupsFrom;
    if GroupsFor(cfg, w).Some? {
      GroupsRestFresh(cfg.scope, cfg.scope.queues[w.qi], GroupsFor(cfg, w).value, 0);
    } else {
      assert [] + QueuesFrom(cfg.scope, w.qi + 1) == QueuesFrom(cfg.scope, w.qi + 1);
    }
  }

  /** Leaving a queue, and passing over a group that is gone, skips nothing. */
  lemma LeaveRest(cfg: Cfg, w: Walk)
    requires w.startQ <= w.qi < |cfg.scope.queues| && w.groups.Some? && w.gi >= |w.groups.value|
    ensures WalkRest(cfg, NextQueue(w)) == WalkRest(cfg, w)
  {
    assert [] + QueuesFrom(cfg.scope, w.qi + 1) == QueuesFrom(cfg.scope, w.qi + 1);
  }

  lemma SkipGroupRest(cfg: Cfg, w: Walk)
    requires w.qi < |cfg.scope.queues| && w.groups.Some? && w.gi < |w.groups.value|
    requires Page(cfg.scope, cfg.scope.queues[w.qi], w.groups.value[w.gi], w.page).None?
    ensures WalkRest(cfg, w.(gi := w.gi + 1, page := 1)) == WalkRest(cfg, w)
  {
    GroupsRestStep(cfg.scope, cfg.scope.queues[w.qi], w.groups.value, w.gi, w.page);
  }

  ghost predicate SameScan(j: Hash, h: Hash) {
    j.candidates == h.candidates && j.scanned == h.scanned && j.queues == h.queues
  }

  ghost predicate WalkOk(cfg: Cfg, h: Hash, w: Walk) {
    && SameScan(w.j, h) && h.queues == Some(cfg.scope.queues)
    && w.startQ <= w.qi
    && h.scanned <= |AllTasks(cfg.scope)|
    && WalkRest(cfg, w) == AllTasks(cfg.scope)[h.scanned..]
    && (match w.groups
        case None =>
          w.qi == w.startQ ==>
            w.j.groups == h.groups && w.startG == h.gidx && w.startPage == StartPage(h.page)
        case Some(gs) =>
          && w.qi < |cfg.scope.queues|
          && (!cfg.scope.aggregating ==> gs == [""])
          && (cfg.scope.aggregating && w.gi < |gs| ==> h.groups == w.groups))
  }

  ghost predicate Scanning(h: Hash) {
    !h.previewComplete
  }

  ghost predicate ExecOk(j: Hash, h: Hash) {
    && h.previewComplete
    && j.acted == h.acted && j.skipped == h.skipped && j.failed == h.failed && j.actCursor == h.actCursor
  }

  ghost predicate RefsOk(k: Keys, dropped: bool, refs: seq<Ref>) {
    var c := k.hash.actCursor;
    && refs != [] && c + |refs| <= k.hash.candidates
    && (!dropped ==> c + |refs| <= |k.candidates| && refs == k.candidates[c..c + |refs|])
  }

  /** What the session holding the current token knows. */
  ghost predicate Live(cfg: Cfg, k: Keys, hist: Hist, pc: Pc) {
    var h := k.hash;
    match pc
    case EnumEntry(j) =>
      Scanning(h) && SameScan(j, h) && j.groups == h.groups && j.qidx == h.qidx && j.gidx == h.gidx && j.page == h.page
    case Walking(w) => Scanning(h) && WalkOk(cfg, h, w)
    case CheckWalk(w) => Scanning(h) && w.groups.Some? && WalkOk(cfg, h, w)
    case Completing => Scanning(h) && h.scanned == |AllTasks(cfg.scope)|
    case Reloading => h.previewComplete
    case ExecEntry(j) => ExecOk(j, h)
    case ExecTop(j) => ExecOk(j, h)
    case Fetching(j) => ExecOk(j, h)
    case Acting(j, refs) => ExecOk(j, h) && RefsOk(k, hist.dropped, refs)
    case CheckExec => h.previewComplete
    case Finalizing(target, _) => target.IsTerminal() && (target == Done ==> AllDecided(h, hist.dropped))
    case _ => true
  }

  /** Only a session whose own page write went over the cap may drop the list. */
  predicate WillDrop(pc: Pc) {
    pc == Dropping || (pc.Finalizing? && pc.drop)
  }

  /** A runner enumerates only over the frozen queue list. */
  ghost predicate QueuesKnown(cfg: Cfg, h: Hash, pc: Pc) {
    match pc
    case EnumEntry(j) => j.queues.Some? ==> j.queues == h.queues == Some(cfg.scope.queues)
    case Walking(w) => w.j.queues == h.queues == Some(cfg.scope.queues)
    case CheckWalk(w) => w.j.queues == h.queues == Some(cfg.scope.queues)
    case _ => true
  }

  ghost predicate SessionOk(cfg: Cfg, k: Keys, hist: Hist, t: nat, pc: Pc) {
    && 1 <= t <= k.hash.fence
    && QueuesKnown(cfg, k.hash, pc)
    && (WillDrop(pc) ==> k.hash.candidates > MAX_CANDIDATES)
    && (t == k.hash.fence ==> Live(cfg, k, hist, pc))
  }

  ghost predicate OpOk(h: Hash, op: Op) {
    match op
    case ExecuteGated(proceed) => MayExecute(h, proceed)
    case _ => true
  }

  ghost predicate Inv(cfg: Cfg, s: Sys) {
    && KeysOk(cfg, s.keys, s.hist)
    && (forall t <- s.sessions :: SessionOk(cfg, s.keys, s.hist, t, s.sessions[t].pc))
    && (forall o <- s.ops :: OpOk(s.keys.hash, s.ops[o]))
  }

  // --- framing ---

  /** A session moved without writing. */
  lemma LocalStep(cfg: Cfg, s: Sys, t: nat, pc: Pc)
    requires Inv(cfg, s) && t in s.sessions
    requires SessionOk(cfg, s.keys, s.hist, t, pc)
    ensures Inv(cfg, SetPc(s, t, pc))
  {
    hide KeysOk, Live;
  }

  /** What a session's write leaves to the operators and to older sessions. */
  ghost predicate Grows(h: Hash, h': Hash) {
    && h'.fence == h.fence && h'.verb == h.verb
    && (h.previewComplete ==> h'.previewComplete)
    && h.candidates <= h'.candidates
    && (h.queues.Some? ==> h'.queues == h.queues)
  }

  lemma CurrentWrite(cfg: Cfg, s: Sys, t: nat, k: Keys, hist: Hist, pc: Pc)
    requires Inv(cfg, s) && t in s.sessions && t == s.keys.hash.fence
    requires Grows(s.keys.hash, k.hash)
    requires KeysOk(cfg, k, hist) && SessionOk(cfg, k, hist, t, pc)
    ensures Inv(cfg, SetPc(s.(keys := k, hist := hist), t, pc))
  {
    hide KeysOk, Live;
  }

  /** What an operator may change under a working session. */
  ghost predicate OperatorMay(h: Hash, h': Hash) {
    && h' == h.(state := h'.state, phase := h'.phase, ctl := h'.ctl, proceedOnPartial := h'.proceedOnPartial)
    && (h'.state == Done ==> h.state == Done)
    && (h'.phase == Execute ==> MayExecute(h', h'.proceedOnPartial))
  }

  lemma OperatorWrite(cfg: Cfg, s: Sys, h: Hash)
    requires Inv(cfg, s) && OperatorMay(s.keys.hash, h)
    ensures Inv(cfg, SetHash(s, h))
  {
    hide Rest, AllTasks;
    var k := s.keys.(hash := h);
    assert KeysOk(cfg, k, s.hist);
    forall t <- s.sessions
      ensures SessionOk(cfg, k, s.hist, t, s.sessions[t].pc)
    {
      assert SessionOk(cfg, s.keys, s.hist, t, s.sessions[t].pc);
    }
    forall o <- s.ops
      ensures OpOk(h, s.ops[o])
    {
      assert OpOk(s.keys.hash, s.ops[o]);
    }
  }
}
