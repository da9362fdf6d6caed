/** The candidate cap as an exact limit: a job can end done without having
    decided every match exactly when its scope holds more matches than the cap. */
module JobCap {
  import opened Collections
  import opened JobStore
  import opened Listings
  import opened JobProtocol
  import opened JobInvariant
  import opened JobSteps
  import opened JobActs
  import opened JobTheorems
  import opened JobLimits

  /** Some runner stands before the final write of an over-cap preview. */
  ghost predicate HasDropper(s: Sys) {
    exists d :: d in s.sessions && s.sessions[d].pc == Finalizing(Failed, true)
  }

  /** The current session walks an unpaused preview; every page that went over
      the cap left its runner stalled before the final write. */
  ghost predicate Cruising(cfg: Cfg, s: Sys, t: nat, w: Walk) {
    && Inv(cfg, s) && t in s.sessions && t == s.keys.hash.fence && s.sessions[t].pc == Walking(w)
    && s.keys.hash.ctl == NoCtl && s.keys.hash.state == Previewing && s.keys.hash.phase == Preview
    && (s.keys.hash.candidates > MAX_CANDIDATES ==> HasDropper(s))
  }

  /** The preview is complete and nothing has been executed. */
  ghost predicate Previewed(cfg: Cfg, s: Sys) {
    && Inv(cfg, s) && s.keys.hash.state == PreviewReady && s.keys.hash.phase == Preview && s.keys.hash.ctl == NoCtl
    && s.keys.hash.previewComplete
    && s.keys.hash.actCursor == 0
    && (s.keys.hash.candidates > MAX_CANDIDATES ==> HasDropper(s))
  }

  function PageRank(cfg: Cfg, w: Walk): nat {
    if w.groups.None? || w.gi >= |w.groups.value| || w.qi >= |cfg.scope.queues| then 0 else
      var n := |Listed(cfg.scope, cfg.scope.queues[w.qi], w.groups.value[w.gi])|;
      if Offset(cfg.scope, w.page) >= n then 0 else n - Offset(cfg.scope, w.page)
  }

  function QueueRank(cfg: Cfg, w: Walk): nat {
    if w.qi >= |cfg.scope.queues| then 0 else |cfg.scope.queues| - w.qi
  }

  function GroupRank(w: Walk): nat {
    if w.groups.None? || w.gi >= |w.groups.value| then 0 else |w.groups.value| - w.gi
  }

  lemma DropperKept(s: Sys, s': Sys, t: nat)
    requires HasDropper(s) && t in s.sessions && s.sessions[t].pc != Finalizing(Failed, true)
    requires forall d :: d in s.sessions && d != t ==> d in s'.sessions && s'.sessions[d] == s.sessions[d]
    ensures HasDropper(s')
  {
    var d :| d in s.sessions && s.sessions[d].pc == Finalizing(Failed, true);
    assert d in s'.sessions;
  }

  /** A step of the walk that writes no page. */
  lemma IdleStep(cfg: Cfg, s: Sys, t: nat, w: Walk) returns (w': Walk)
    requires Cruising(cfg, s, t, w) && w.qi < |cfg.scope.queues|
    requires w.groups.None? || w.gi >= |w.groups.value|
             || Page(cfg.scope, cfg.scope.queues[w.qi], w.groups.value[w.gi], w.page).None?
    ensures Cruising(cfg, Next(cfg, s, Advance(t)), t, w')
    ensures w' == if w.groups.None? then w' else if w.gi >= |w.groups.value| then NextQueue(w)
                  else w.(gi := w.gi + 1, page := 1)
    ensures w.groups.None? ==> w' == NextQueue(w) || (w'.groups.Some? && w' == InQueue(w, w'.groups.value))
    ensures w.groups.None? && w.qi == w.startQ && w.j.groups.Some? && cfg.scope.aggregating ==> w'.groups == w.j.groups
    ensures w.groups.None? && !cfg.scope.aggregating ==> w'.groups == Some([""])
  {
    hide EnumOk, WalkRest, Rest, CountsOk, CursorTiles, RefsOf, AllTasks, OperatorStep, ActBatch;
    assert SessionOk(cfg, s.keys, s.hist, t, Walking(w));
    NextOk(cfg, s, Advance(t));
    NothingPushed(s.keys);
    var s' := Next(cfg, s, Advance(t));
    w' := s'.sessions[t].pc.w;
    if HasDropper(s) {
      DropperKept(s, s', t);
    }
  }

  /** The lease runs out and another runner claims the job. */
  lemma Reclaim(cfg: Cfg, s: Sys) returns (s': Sys, t: nat, actions: seq<Action>)
    requires Inv(cfg, s)
    ensures s' == After(cfg, s, actions) && Inv(cfg, s')
    ensures t == s.keys.hash.fence + 1 && t !in s.sessions
    ensures s' == s.(keys := s.keys.(lease := Some("b"), hash := s.keys.hash.(fence := t)),
                     sessions := s.sessions[t := Session("b", Claimed)])
  {
    hide KeysOk, Live;
    var s1 := Next(cfg, s, LeaseExpires);
    s' := Next(cfg, s1, TakeClaim("b"));
    t := s'.keys.hash.fence;
    AfterTwo(cfg, s, LeaseExpires, TakeClaim("b"));
    actions := [LeaseExpires, TakeClaim("b")];
    NextOk(cfg, s, LeaseExpires);
    NextOk(cfg, s1, TakeClaim("b"));
    forall u <- s.sessions
      ensures u < t
    {
      assert SessionOk(cfg, s.keys, s.hist, u, s.sessions[u].pc);
    }
  }

  lemma LoadAndWalk(cfg: Cfg, s: Sys, t: nat) returns (s': Sys, actions: seq<Action>)
    requires Inv(cfg, s) && s.keys.hash.queues.Some? && s.keys.hash.state == Previewing && !s.keys.hash.previewComplete
    requires t in s.sessions && s.sessions[t].pc == Claimed
    ensures s' == After(cfg, s, actions) && Inv(cfg, s')
    ensures s' == SetPc(s, t, Walking(StartWalk(s.keys.hash)))
  {
    hide EnumOk, Live;
    var s1 := Next(cfg, s, Advance(t));
    assert s1 == SetPc(s, t, EnumEntry(s.keys.hash));
    s' := Next(cfg, s1, Advance(t));
    NextOk(cfg, s, Advance(t));
    NextOk(cfg, s1, Advance(t));
    AfterTwo(cfg, s, Advance(t), Advance(t));
    actions := [Advance(t), Advance(t)];
  }

  /** A runner claims the stalled job and reaches the stored cursor. */
  lemma Successor(cfg: Cfg, s: Sys) returns (s': Sys, t: nat, w: Walk, actions: seq<Action>)
    requires Inv(cfg, s) && s.keys.hash.queues.Some?
    requires s.keys.hash.ctl == NoCtl && s.keys.hash.state == Previewing && s.keys.hash.phase == Preview && HasDropper(s)
    requires !s.keys.hash.previewComplete
    ensures s' == After(cfg, s, actions) && Cruising(cfg, s', t, w)
    ensures s'.keys.hash == s.keys.hash.(fence := s.keys.hash.fence + 1) && w == StartWalk(s'.keys.hash)
  {
    var s2, more;
    s2, t, actions := Reclaim(cfg, s);
    w := StartWalk(s2.keys.hash);
    s', more := LoadAndWalk(cfg, s2, t);
    AfterConcat(cfg, s, actions, more);
    actions := actions + more;
    var d :| d in s.sessions && s.sessions[d].pc == Finalizing(Failed, true);
    assert d in s'.sessions && s'.sessions[d] == s.sessions[d];
  }

  /** The last store round trip of an enumeration. */
  lemma FinishWalk(cfg: Cfg, s: Sys, t: nat, w: Walk) returns (s': Sys, actions: seq<Action>)
    requires Cruising(cfg, s, t, w) && w.qi >= |cfg.scope.queues|
    ensures s' == After(cfg, s, actions) && Previewed(cfg, s')
  {
    hide RefsOf, OperatorStep, ActBatch, Tiles;
    assert SessionOk(cfg, s.keys, s.hist, t, Walking(w));
    var s1 := Next(cfg, s, Advance(t));
    assert s1 == SetPc(s, t, Completing);
    s' := Next(cfg, s1, Advance(t));
    NextOk(cfg, s, Advance(t));
    NextOk(cfg, s1, Advance(t));
    AfterTwo(cfg, s, Advance(t), Advance(t));
    actions := [Advance(t), Advance(t)];
    if HasDropper(s) {
      DropperKept(s, s', t);
    }
  }

  lemma CheckStep(cfg: Cfg, s: Sys, t: nat, w: Walk)
    requires t in s.sessions && s.sessions[t].pc == CheckWalk(w) && s.keys.hash.ctl == NoCtl
    ensures Next(cfg, s, Advance(t)) == SetPc(s, t, Walking(w.(j := s.keys.hash)))
  {
  }

  /** A page under the cap: write it, check the flag, walk on. */
  lemma PageUnderCap(cfg: Cfg, s: Sys, t: nat, w: Walk, batch: seq<Task>) returns (s': Sys, w': Walk,
                     actions: seq<Action>)
    requires Cruising(cfg, s, t, w) && w.qi < |cfg.scope.queues|
    requires w.groups.Some? && w.gi < |w.groups.value|
    requires Page(cfg.scope, cfg.scope.queues[w.qi], w.groups.value[w.gi], w.page) == Some(batch)
    requires w.j.candidates + |RefsOf(cfg.scope, batch)| <= MAX_CANDIDATES
    ensures s' == After(cfg, s, actions) && Cruising(cfg, s', t, w')
    ensures w' == AfterPage(cfg, w, |batch|, |RefsOf(cfg.scope, batch)|).(j := w'.j)
  {
    assert SessionOk(cfg, s.keys, s.hist, t, Walking(w));
    PageStep(cfg, s, t, w, w.groups.value, batch);
    var s1 := Next(cfg, s, Advance(t));
    CheckStep(cfg, s1, t, AfterPage(cfg, w, |batch|, |RefsOf(cfg.scope, batch)|));
    s' := Next(cfg, s1, Advance(t));
    w' := AfterPage(cfg, w, |batch|, |RefsOf(cfg.scope, batch)|).(j := s1.keys.hash);
    NextOk(cfg, s, Advance(t));
    NextOk(cfg, s1, Advance(t));
    AfterTwo(cfg, s, Advance(t), Advance(t));
    actions := [Advance(t), Advance(t)];
  }

  /** A page that goes over the cap leaves its runner before the final write. */
  lemma PageWentOver(cfg: Cfg, s: Sys, t: nat, w: Walk, batch: seq<Task>) returns (s1: Sys)
    requires Cruising(cfg, s, t, w) && w.qi < |cfg.scope.queues|
    requires w.groups.Some? && w.gi < |w.groups.value|
    requires Page(cfg.scope, cfg.scope.queues[w.qi], w.groups.value[w.gi], w.page) == Some(batch)
    requires w.j.candidates + |RefsOf(cfg.scope, batch)| > MAX_CANDIDATES
    ensures s1 == After(cfg, s, [Advance(t)]) && Inv(cfg, s1) && HasDropper(s1)
    ensures var h, h1 := s.keys.hash, s1.keys.hash;
            && h1.queues.Some? && h1.ctl == NoCtl && h1.state == Previewing && h1.phase == Preview && !h1.previewComplete
            && (var leaves := |batch| < cfg.scope.pageSize && w.gi + 1 >= |w.groups.value|;
                && h1.qidx == (if leaves then w.qi + 1 else w.qi)
                && h1.groups == (if leaves then None else h.groups)
                && (!leaves ==> h1.gidx == (if |batch| < cfg.scope.pageSize then w.gi + 1 else w.gi)
                                && h1.page == if |batch| < cfg.scope.pageSize then 1 else w.page + 1)
                && (!leaves && cfg.scope.aggregating ==> h1.groups == w.groups)
                && (!cfg.scope.aggregating ==> w.groups == Some([""])))
  {
    hide CountsOk, CursorTiles, RefsOf, Rest, WalkRest, AllTasks, Offset;
    assert SessionOk(cfg, s.keys, s.hist, t, Walking(w));
    PageStep(cfg, s, t, w, w.groups.value, batch);
    s1 := Next(cfg, s, Advance(t));
    NextOk(cfg, s, Advance(t));
    assert s1.sessions[t].pc == Finalizing(Failed, true);
    AfterOne(cfg, s, Advance(t));
  }

  /** A page over the cap: its runner stalls before the final write, and a
      successor resumes at the cursor the page stored. */
  lemma PageOverCap(cfg: Cfg, s: Sys, t: nat, w: Walk, batch: seq<Task>)
    returns (s': Sys, t': nat, w': Walk, actions: seq<Action>)
    requires Cruising(cfg, s, t, w) && w.qi < |cfg.scope.queues|
    requires w.groups.Some? && w.gi < |w.groups.value|
    requires Page(cfg.scope, cfg.scope.queues[w.qi], w.groups.value[w.gi], w.page) == Some(batch)
    requires w.j.candidates + |RefsOf(cfg.scope, batch)| > MAX_CANDIDATES
    ensures s' == After(cfg, s, actions) && Cruising(cfg, s', t', w')
    ensures var v := AfterPage(cfg, w, |batch|, |RefsOf(cfg.scope, batch)|);
            (w'.qi == w.qi + 1 && w'.groups.None?)
            || (w'.qi == w.qi && w'.groups == w.groups && w'.gi == v.gi && w'.page == v.page)
  {
    hide Inv, After, Next, RefsOf;
    var s1 := PageWentOver(cfg, s, t, w, batch);
    var more;
    s', t', w', more := Successor(cfg, s1);
    AfterConcat(cfg, s, [Advance(t)], more);
    actions := [Advance(t)] + more;
    if w'.qi == w.qi {
      w' := IdleStep(cfg, s', t', w');
      AfterSnoc(cfg, s, actions, Advance(t'));
      s', actions := Next(cfg, s', Advance(t')), actions + [Advance(t')];
    }
  }

  ghost predicate Closer(cfg: Cfg, w': Walk, w: Walk) {
    || QueueRank(cfg, w') < QueueRank(cfg, w)
    || (QueueRank(cfg, w') == QueueRank(cfg, w) && w'.groups.Some? &&
        (w.groups.None? || GroupRank(w') < GroupRank(w)
         || (GroupRank(w') == GroupRank(w) && PageRank(cfg, w') < PageRank(cfg, w))))
  }

  lemma PageRankFalls(cfg: Cfg, w: Walk, batch: seq<Task>)
    requires w.qi < |cfg.scope.queues| && w.groups.Some? && w.gi < |w.groups.value|
    requires Page(cfg.scope, cfg.scope.queues[w.qi], w.groups.value[w.gi], w.page) == Some(batch)
    ensures var w' := AfterPage(cfg, w, |batch|, |RefsOf(cfg.scope, batch)|);
            GroupRank(w') < GroupRank(w)
            || (GroupRank(w') == GroupRank(w) && PageRank(cfg, w') < PageRank(cfg, w))
  {
    if |batch| == cfg.scope.pageSize {
      assert Offset(cfg.scope, w.page + 1) == Offset(cfg.scope, w.page) + cfg.scope.pageSize;
    }
  }

  lemma DrivePage(cfg: Cfg, s: Sys, t: nat, w: Walk, batch: seq<Task>)
    returns (s': Sys, t': nat, w': Walk, actions: seq<Action>)
    requires Cruising(cfg, s, t, w) && w.qi < |cfg.scope.queues|
    requires w.groups.Some? && w.gi < |w.groups.value|
    requires Page(cfg.scope, cfg.scope.queues[w.qi], w.groups.value[w.gi], w.page) == Some(batch)
    ensures s' == After(cfg, s, actions) && Cruising(cfg, s', t', w')
    ensures w'.qi == w.qi + 1 || (w'.qi == w.qi && w'.groups.Some? && GroupRank(w') < GroupRank(w))
            || (w'.qi == w.qi && w'.groups.Some? && GroupRank(w') == GroupRank(w) && PageRank(cfg, w') < PageRank(cfg, w))
  {
    hide Inv, After, Next, Offset, RefsOf;
    PageRankFalls(cfg, w, batch);
    if w.j.candidates + |RefsOf(cfg.scope, batch)| <= MAX_CANDIDATES {
      t' := t;
      s', w', actions := PageUnderCap(cfg, s, t, w, batch);
    } else {
      s', t', w', actions := PageOverCap(cfg, s, t, w, batch);
    }
  }

  /** One step closer to the end, with or without a page. */
  lemma DriveStep(cfg: Cfg, s: Sys, t: nat, w: Walk) returns (s': Sys, t': nat, w': Walk, actions: seq<Action>)
    requires Cruising(cfg, s, t, w) && w.qi < |cfg.scope.queues|
    ensures s' == After(cfg, s, actions) && Cruising(cfg, s', t', w') && Closer(cfg, w', w)
  {
    hide Inv, Next, After, Offset, Listed, RefsOf;
    if w.groups.None? || w.gi >= |w.groups.value|
       || Page(cfg.scope, cfg.scope.queues[w.qi], w.groups.value[w.gi], w.page).None? {
      t' := t;
      w' := IdleStep(cfg, s, t, w);
      AfterOne(cfg, s, Advance(t));
      s', actions := Next(cfg, s, Advance(t)), [Advance(t)];
    } else {
      var batch := Page(cfg.scope, cfg.scope.queues[w.qi], w.groups.value[w.gi], w.page).value;
      s', t', w', actions := DrivePage(cfg, s, t, w, batch);
    }
  }

  /** From any cursor, some schedule completes the preview. */
  lemma {:induction false} Drive(cfg: Cfg, s: Sys, t: nat, w: Walk) returns (s': Sys, actions: seq<Action>)
    requires Cruising(cfg, s, t, w)
    ensures s' == After(cfg, s, actions) && Previewed(cfg, s')
    decreases QueueRank(cfg, w), w.groups.None?, GroupRank(w), PageRank(cfg, w)
  {
    hide Inv, After, Next, QueueRank, GroupRank, PageRank;
    if w.qi >= |cfg.scope.queues| {
      s', actions := FinishWalk(cfg, s, t, w);
    } else {
      var s1, t1, w1, first := DriveStep(cfg, s, t, w);
      var more;
      s', more := Drive(cfg, s1, t1, w1);
      AfterConcat(cfg, s, first, more);
      actions := first + more;
    }
  }

  /** A first runner loads the new job and freezes its queue list. */
  lemma FreezeStep(cfg: Cfg, s: Sys, t: nat) returns (s': Sys, w: Walk, actions: seq<Action>)
    requires Inv(cfg, s) && t in s.sessions && s.sessions[t].pc == Claimed
    requires t == s.keys.hash.fence && s.keys.hash.state == Previewing && s.keys.hash.queues.None?
    requires s.keys.hash.phase == Preview && !s.keys.hash.previewComplete
    requires s.keys.hash.ctl == NoCtl && s.keys.hash.candidates == 0
    ensures s' == After(cfg, s, actions) && Cruising(cfg, s', t, w)
  {
    var h := s.keys.hash;
    var s1 := Next(cfg, s, Advance(t));
    assert s1 == SetPc(s, t, EnumEntry(h));
    NextOk(cfg, s, Advance(t));
    NothingPushed(s.keys);
    s' := Next(cfg, s1, Advance(t));
    w := StartWalk(h.(queues := Some(cfg.scope.queues)));
    assert s'.sessions[t].pc == Walking(w) && s'.keys.hash == h.(queues := Some(cfg.scope.queues));
    NextOk(cfg, s1, Advance(t));
    AfterTwo(cfg, s, Advance(t), Advance(t));
    actions := [Advance(t), Advance(t)];
  }

  lemma PreviewFromFresh(cfg: Cfg, s0: Sys) returns (s: Sys, actions: seq<Action>)
    requires Inv(cfg, s0) && s0.keys.hash.state == Previewing && s0.keys.hash.queues.None?
    requires s0.keys.hash.phase == Preview && !s0.keys.hash.previewComplete
    requires s0.keys.hash.ctl == NoCtl && s0.keys.hash.candidates == 0
    ensures s == After(cfg, s0, actions) && Previewed(cfg, s)
  {
    var s1, t, a1 := Reclaim(cfg, s0);
    var s2, w, a2 := FreezeStep(cfg, s1, t);
    var a3;
    s, a3 := Drive(cfg, s2, t, w);
    AfterConcat(cfg, s0, a1, a2);
    AfterConcat(cfg, s0, a1 + a2, a3);
    actions := a1 + a2 + a3;
  }

  /** Some schedule from the job's creation completes its preview. */
  lemma {:induction false} SomePreviewCompletes(cfg: Cfg, verb: Verb) returns (s: Sys, actions: seq<Action>)
    ensures s == After(cfg, Init(verb), actions) && Previewed(cfg, s)
  {
    hide Inv, After, Previewed;
    InitOk(cfg, verb);
    s, actions := PreviewFromFresh(cfg, Init(verb));
  }

  lemma RequestExecute(cfg: Cfg, s: Sys) returns (s': Sys, actions: seq<Action>)
    requires Inv(cfg, s) && s.keys.hash.state == PreviewReady && s.keys.hash.verb != Count
    requires s.keys.hash.phase == Preview && s.keys.hash.previewComplete
    ensures s' == After(cfg, s, actions) && Inv(cfg, s')
    ensures s'.sessions == s.sessions && s'.hist == s.hist
    ensures s'.keys == s.keys.(hash := s.keys.hash.(phase := Execute, state := Running, proceedOnPartial := true))
  {
    hide EnumOk, Live;
    var s1 := Next(cfg, s, ExecuteRead(0, true));
    assert s1 == s.(ops := s.ops[0 := ExecuteGated(true)]);
    NextOk(cfg, s, ExecuteRead(0, true));
    s' := Next(cfg, s1, ExecuteWrite(0));
    NextOk(cfg, s1, ExecuteWrite(0));
    AfterTwo(cfg, s, ExecuteRead(0, true), ExecuteWrite(0));
    actions := [ExecuteRead(0, true), ExecuteWrite(0)];
  }

  /** The stalled runner's final write is refused, and its drop is not. */
  lemma StaleDrop(cfg: Cfg, s: Sys, d: nat) returns (s': Sys, actions: seq<Action>)
    requires d in s.sessions && s.sessions[d].pc == Finalizing(Failed, true) && s.keys.hash.fence != d
    ensures s' == After(cfg, s, actions)
    ensures s' == SetPc(s.(keys := s.keys.(candidates := []), hist := s.hist.(dropped := true)), d, Releasing)
  {
    actions := [Advance(d), Advance(d)];
    AfterTwo(cfg, s, Advance(d), Advance(d));
    var s1 := Next(cfg, s, Advance(d));
    assert s1 == SetPc(s, d, Dropping);
    s' := Next(cfg, s1, Advance(d));
  }

  /** A runner that finds no candidates finishes the job. */
  lemma FinishEmpty(cfg: Cfg, s: Sys, t: nat) returns (s': Sys, actions: seq<Action>)
    requires t in s.sessions && s.sessions[t] == Session("b", Claimed) && s.keys.hash.fence == t
    requires s.keys.lease == Some("b") && s.keys.candidates == [] && s.keys.hash.previewComplete
    requires s.keys.hash.phase == Execute && s.keys.hash.state == Running
    ensures s' == After(cfg, s, actions)
    ensures s'.keys.hash == s.keys.hash.(state := Done, ctl := NoCtl)
  {
    var h := s.keys.hash;
    var s1 := Next(cfg, s, Advance(t));
    assert s1 == SetPc(s, t, ExecEntry(h));
    var s2 := Next(cfg, s1, Advance(t));
    assert s2 == SetPc(s, t, ExecTop(h));
    AfterTwo(cfg, s, Advance(t), Advance(t));
    var s3 := Next(cfg, s2, Advance(t));
    assert s3 == SetPc(s, t, Fetching(h));
    var s4 := Next(cfg, s3, Advance(t));
    assert s4 == SetPc(s, t, Finalizing(Done, false));
    AfterTwo(cfg, s2, Advance(t), Advance(t));
    StateStep(cfg, s4, t);
    s' := Next(cfg, s4, Advance(t));
    AfterConcat(cfg, s, [Advance(t), Advance(t)], [Advance(t), Advance(t)]);
    actions := [Advance(t), Advance(t)] + [Advance(t), Advance(t)];
    AfterSnoc(cfg, s, actions, Advance(t));
    actions := actions + [Advance(t)];
  }

  /** A scope above the cap has a schedule that ends done with nothing decided. */
  lemma {:induction false} OverCapDoneUndecided(cfg: Cfg, verb: Verb) returns (actions: seq<Action>)
    requires verb != Count && |AllRefs(cfg.scope)| > MAX_CANDIDATES
    ensures var h := After(cfg, Init(verb), actions).keys.hash; h.state == Done && h.actCursor == 0
  {
    var s0 := Init(verb);
    var s1, a1 := SomePreviewCompletes(cfg, verb);
    CompletePreviewIsExact(cfg, verb, a1);
    VerbKept(cfg, s0, a1);
    var d :| d in s1.sessions && s1.sessions[d].pc == Finalizing(Failed, true);
    var s2, a2 := RequestExecute(cfg, s1);
    AfterConcat(cfg, s0, a1, a2);
    var s3, t, a3 := Reclaim(cfg, s2);
    AfterConcat(cfg, s0, a1 + a2, a3);
    var s4, a4 := StaleDrop(cfg, s3, d);
    AfterConcat(cfg, s0, a1 + a2 + a3, a4);
    var s5, a5 := FinishEmpty(cfg, s4, t);
    AfterConcat(cfg, s0, a1 + a2 + a3 + a4, a5);
    actions := a1 + a2 + a3 + a4 + a5;
  }

  ghost predicate DoneDecidesEverything(cfg: Cfg, verb: Verb) {
    forall actions: seq<Action> ::
      var h := After(cfg, Init(verb), actions).keys.hash;
      h.state == Done ==> h.actCursor == |AllRefs(cfg.scope)|
  }

  /** Done means every match was decided, under every schedule, exactly when
      the scope's matches fit the candidate cap. */
  lemma {:induction false} DoneIsExactIffUnderCap(cfg: Cfg, verb: Verb)
    requires verb != Count
    ensures DoneDecidesEverything(cfg, verb) <==> |AllRefs(cfg.scope)| <= MAX_CANDIDATES
  {
    if |AllRefs(cfg.scope)| <= MAX_CANDIDATES {
      forall actions: seq<Action> | After(cfg, Init(verb), actions).keys.hash.state == Done
        ensures After(cfg, Init(verb), actions).keys.hash.actCursor == |AllRefs(cfg.scope)|
      {
        DoneMeansAllDecided(cfg, verb, actions);
      }
    } else {
      var actions := OverCapDoneUndecided(cfg, verb);
      assert After(cfg, Init(verb), actions).keys.hash.state == Done;
    }
  }
}
