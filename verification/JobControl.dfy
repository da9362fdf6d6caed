/** What a runner's own round trips may change, when a job fails, and how a
    pending pause or cancel ends the session that reads it. */
module JobControl {
  import opened Collections
  import opened JobStore
  import opened Listings
  import opened JobProtocol
  import opened JobInvariant
  import opened JobStates
  import opened JobSteps
  import opened JobTheorems

  /** What none of a session's writes names. */
  lemma OwnFields(k: Keys, t: nat, w: Write)
    requires w.fields.ctl == None || w.fields.ctl == Some(NoCtl)
    ensures var h, h' := k.hash, Progress(k, t, w).hash;
            && h'.phase == h.phase && h'.fence == h.fence && (h.ctl == NoCtl ==> h'.ctl == NoCtl)
            && Progress(k, t, w).lease == k.lease
  {
  }

  lemma OwnWalk(cfg: Cfg, s: Sys, t: nat, w: Walk)
    requires t in s.sessions
    ensures var h, s' := s.keys.hash, WalkStep(cfg, s, t, w);
            && s'.keys.hash.fence == h.fence && s'.keys.hash.phase == h.phase
            && (h.ctl == NoCtl ==> s'.keys.hash.ctl == NoCtl) && s'.keys.lease == s.keys.lease
  {
    forall w: Write | w.fields.ctl == None || w.fields.ctl == Some(NoCtl)
      ensures var h, h' := s.keys.hash, Progress(s.keys, t, w).hash;
              && h'.phase == h.phase && h'.fence == h.fence && (h.ctl == NoCtl ==> h'.ctl == NoCtl)
              && Progress(s.keys, t, w).lease == s.keys.lease
    {
      OwnFields(s.keys, t, w);
    }
    hide Progress, RefsOf, Page;
  }

  /** A session's own round trip before it unwinds. */
  lemma OwnAdvance(cfg: Cfg, s: Sys, t: nat)
    requires t in s.sessions
    ensures var h, s' := s.keys.hash, AdvanceSession(cfg, s, t);
            && s'.keys.hash.fence == h.fence && s'.keys.hash.phase == h.phase
            && (h.ctl == NoCtl ==> s'.keys.hash.ctl == NoCtl)
            && (s.sessions[t].pc != Releasing ==> s'.keys.lease == s.keys.lease)
  {
    hide WalkStep, PushCapped;
    if s.sessions[t].pc.Walking? {
      OwnWalk(cfg, s, t, s.sessions[t].pc.w);
    }
  }

  lemma AdvanceIsOwn(cfg: Cfg, s: Sys, t: nat)
    requires t in s.sessions
    ensures var s' := AdvanceSession(cfg, s, t);
            s'.ops == s.ops && s'.sessions == s.sessions[t := s.sessions[t].(pc := s'.sessions[t].pc)]
  {
    hide Progress, PageWrite, RefsOf;
  }

  lemma ActIsOwn(cfg: Cfg, s: Sys, a: Action)
    requires a.Act? && a.token in s.sessions
    ensures var s' := Next(cfg, s, a);
            s'.ops == s.ops && a.token in s'.sessions
            && s'.sessions == s.sessions[a.token := s.sessions[a.token].(pc := s'.sessions[a.token].pc)]
  {
    hide Progress, ActFields, ActHist, BatchFailures, FoundTasks;
  }

  // --- why a job fails ---

  ghost predicate SetupFailed(actions: seq<Action>) {
    exists n :: 0 <= n < |actions| && actions[n].FailSetup?
  }

  /** Some runner is about to write, or has written, that the job failed. */
  ghost predicate Failing(s: Sys) {
    || s.keys.hash.state == Failed
    || exists t :: t in s.sessions && s.sessions[t].pc.Finalizing? && s.sessions[t].pc.target == Failed
  }

  lemma OperatorsLeaveSessions(s: Sys, a: Action)
    ensures OperatorStep(s, a).sessions == s.sessions
  {
  }

  lemma AdvanceFails(cfg: Cfg, s: Sys, t: nat)
    requires t in s.sessions && AdvanceSession(cfg, s, t).sessions[t].pc == Finalizing(Failed, false)
    ensures s.sessions[t].pc == Finalizing(Failed, false)
  {
    hide Progress, PageWrite, RefsOf, Page;
  }

  /** Only a failed setup, or a page over the cap, sends a runner there. */
  lemma FailingPc(cfg: Cfg, s: Sys, a: Action, t: nat)
    requires t in Next(cfg, s, a).sessions && Next(cfg, s, a).sessions[t].pc == Finalizing(Failed, false)
    ensures a == FailSetup(t) || (t in s.sessions && s.sessions[t].pc == Finalizing(Failed, false))
  {
    hide AdvanceSession, BatchFits, ActFields, ActHist, BatchFailures, Progress, OperatorStep;
    OperatorsLeaveSessions(s, a);
    if a.Advance? && a.token in s.sessions {
      AdvanceIsOwn(cfg, s, a.token);
      if a.token == t {
        AdvanceFails(cfg, s, t);
      }
    }
  }

  lemma WithinCap(cfg: Cfg, s: Sys)
    requires Inv(cfg, s)
    ensures s.keys.hash.candidates <= |AllRefs(cfg.scope)|
  {
    FoundIsPrefix(cfg, s.keys.hash.scanned);
  }

  lemma FailingSession(cfg: Cfg, s: Sys, a: Action, t: nat)
    requires Inv(cfg, Next(cfg, s, a)) && |AllRefs(cfg.scope)| <= MAX_CANDIDATES && !a.FailSetup?
    requires var s' := Next(cfg, s, a);
             t in s'.sessions && s'.sessions[t].pc.Finalizing? && s'.sessions[t].pc.target == Failed
    ensures t in s.sessions && s.sessions[t].pc.Finalizing? && s.sessions[t].pc.target == Failed
  {
    hide KeysOk, Live, Next;
    var s' := Next(cfg, s, a);
    assert SessionOk(cfg, s'.keys, s'.hist, t, s'.sessions[t].pc);
    WithinCap(cfg, s');
    FailingPc(cfg, s, a, t);
  }

  /** Whoever sends a runner there, but a failed setup, found one there. */
  lemma FailingStep(cfg: Cfg, s: Sys, a: Action)
    requires Inv(cfg, Next(cfg, s, a)) && |AllRefs(cfg.scope)| <= MAX_CANDIDATES && !a.FailSetup?
    requires Failing(Next(cfg, s, a))
    ensures Failing(s)
  {
    hide AdvanceSession, ActHist, ActFields, BatchFailures, FoundTasks, Inv;
    var s' := Next(cfg, s, a);
    if s'.keys.hash.state == Failed {
      if a.Advance? && a.token in s.sessions {
        AdvanceState(cfg, s, a.token);
      } else if a.Act? {
        ActStates(cfg, s, a);
      }
    } else {
      var t :| t in s'.sessions && s'.sessions[t].pc.Finalizing? && s'.sessions[t].pc.target == Failed;
      FailingSession(cfg, s, a, t);
    }
  }

  /** A job whose scope fits the cap fails only when some runner's setup did. */
  lemma {:induction false} FailedMeansSetup(cfg: Cfg, verb: Verb, actions: seq<Action>)
    requires |AllRefs(cfg.scope)| <= MAX_CANDIDATES && Failing(After(cfg, Init(verb), actions))
    ensures SetupFailed(actions)
  {
    hide Next, Inv;
    if actions != [] {
      var n := |actions| - 1;
      if !actions[n].FailSetup? {
        Reachable(cfg, verb, actions);
        FailingStep(cfg, After(cfg, Init(verb), actions[..n]), actions[n]);
        FailedMeansSetup(cfg, verb, actions[..n]);
        var m :| 0 <= m < n && actions[..n][m].FailSetup?;
        assert actions[m].FailSetup?;
      }
    }
  }

  // --- a pending pause or cancel ---

  /** The session is on its way out with at most a write of `target` to make. */
  predicate Leaving(pc: Pc, target: State) {
    || pc == Finalizing(target, false) || (target == Paused && pc == Pausing)
    || pc == Releasing || pc == Ended
  }

  lemma LeavingAdvance(cfg: Cfg, s: Sys, t: nat, target: State)
    requires t in s.sessions && Leaving(s.sessions[t].pc, target)
    ensures var s' := AdvanceSession(cfg, s, t); t in s'.sessions && Leaving(s'.sessions[t].pc, target)
  {
    hide Progress;
  }

  lemma LeavingStays(cfg: Cfg, s: Sys, a: Action, t: nat, target: State)
    requires t in s.sessions && t <= s.keys.hash.fence && Leaving(s.sessions[t].pc, target)
    ensures var s' := Next(cfg, s, a);
            t in s'.sessions && t <= s'.keys.hash.fence && Leaving(s'.sessions[t].pc, target)
  {
    hide AdvanceSession, ActBatch, OperatorStep, BatchFits;
    OperatorsLeaveSessions(s, a);
    FenceStep(cfg, s, a);
    if a.Advance? && a.token in s.sessions {
      AdvanceIsOwn(cfg, s, a.token);
      LeavingAdvance(cfg, s, t, target);
    } else if a.Act? && a.token in s.sessions {
      ActIsOwn(cfg, s, a);
    }
  }

  lemma StateWriteOnly(k: Keys, t: nat, w: Write)
    requires w == PAUSE_WRITE || (w.fields.state.Some? && w == FinalWrite(w.fields.state.value))
    ensures var k' := Progress(k, t, w);
            && k' == k.(hash := k.hash.(state := k'.hash.state, ctl := k'.hash.ctl))
            && (k'.hash.state == k.hash.state || w.fields.state == Some(k'.hash.state))
  {
    NothingPushed(k);
  }

  /** Whatever it does changes nothing but the state, the flag and the lease. */
  lemma LeavingWritesStateOnly(cfg: Cfg, s: Sys, a: Action, t: nat, target: State)
    requires t in s.sessions && Leaving(s.sessions[t].pc, target) && By(a, t)
    ensures var k, k' := s.keys, Next(cfg, s, a).keys;
            && k' == k.(hash := k.hash.(state := k'.hash.state, ctl := k'.hash.ctl), lease := k'.lease)
            && (k'.hash.state == k.hash.state || k'.hash.state == target)
  {
    hide Progress;
    StateWriteOnly(s.keys, t, PAUSE_WRITE);
    StateWriteOnly(s.keys, t, FinalWrite(target));
  }

  lemma {:induction false} LeavingForGood(cfg: Cfg, s: Sys, actions: seq<Action>, t: nat, target: State)
    requires t in s.sessions && t <= s.keys.hash.fence && Leaving(s.sessions[t].pc, target)
    ensures var s' := After(cfg, s, actions); t in s'.sessions && t <= s'.keys.hash.fence && Leaving(s'.sessions[t].pc, target)
  {
    hide Next;
    if actions != [] {
      var n := |actions| - 1;
      LeavingForGood(cfg, s, actions[..n], t, target);
      LeavingStays(cfg, After(cfg, s, actions[..n]), actions[n], t, target);
    }
  }

  lemma TokenMinted(cfg: Cfg, verb: Verb, actions: seq<Action>, t: nat)
    ensures var s := After(cfg, Init(verb), actions); t in s.sessions ==> t <= s.keys.hash.fence
  {
    hide KeysOk, Live, After;
    Reachable(cfg, verb, actions);
    var s := After(cfg, Init(verb), actions);
    if t in s.sessions {
      assert SessionOk(cfg, s.keys, s.hist, t, s.sessions[t].pc);
    }
  }

  lemma AfterNext(cfg: Cfg, s: Sys, actions: seq<Action>, a: Action)
    ensures After(cfg, s, actions + [a]) == Next(cfg, After(cfg, s, actions), a)
  {
    assert (actions + [a])[..|actions|] == actions;
  }

  /** Reading the request, and the write that follows it. */
  lemma ReadsRequest(cfg: Cfg, s: Sys, t: nat, target: State)
    requires t in s.sessions && (s.sessions[t].pc.CheckWalk? || s.sessions[t].pc == CheckExec)
    requires s.keys.hash.ctl != NoCtl && target == if s.keys.hash.ctl == CancelCtl then Canceled else Paused
    ensures var s1 := Next(cfg, s, Advance(t));
            && t in s1.sessions && Leaving(s1.sessions[t].pc, target) && s1.keys == s.keys
            && (s1.keys.hash.fence == t ==>
                  var h := Next(cfg, s1, Advance(t)).keys.hash; h.state == target && h.ctl == NoCtl)
  {
    hide PushCapped;
  }

  /** A session that reads a pending cancel or pause between two batches writes
      no page and no batch any more, whatever anyone else does: all it may
      still write is that the job is canceled, or paused. While its token is
      current its next write does so, and takes the request off. */
  lemma {:induction false} RequestEndsSession(cfg: Cfg, verb: Verb, before: seq<Action>, t: nat, after: seq<Action>, a: Action)
    requires var s := After(cfg, Init(verb), before);
             && t in s.sessions && (s.sessions[t].pc.CheckWalk? || s.sessions[t].pc == CheckExec)
             && s.keys.hash.ctl != NoCtl
    requires By(a, t)
    ensures var target := if After(cfg, Init(verb), before).keys.hash.ctl == CancelCtl then Canceled else Paused;
            var s1 := After(cfg, Init(verb), before + [Advance(t)]);
            var s2 := After(cfg, Init(verb), before + [Advance(t)] + after);
            var k, k' := s2.keys, Next(cfg, s2, a).keys;
            && k' == k.(hash := k.hash.(state := k'.hash.state, ctl := k'.hash.ctl), lease := k'.lease)
            && (k'.hash.state == k.hash.state || k'.hash.state == target)
            && (s1.keys.hash.fence == t ==>
                  var h := Next(cfg, s1, Advance(t)).keys.hash; h.state == target && h.ctl == NoCtl)
  {
    hide Next, After, PushCapped;
    var s := After(cfg, Init(verb), before);
    var target := if s.keys.hash.ctl == CancelCtl then Canceled else Paused;
    var s1 := After(cfg, Init(verb), before + [Advance(t)]);
    TokenMinted(cfg, verb, before, t);
    AfterNext(cfg, Init(verb), before, Advance(t));
    ReadsRequest(cfg, s, t, target);
    LeavingForGood(cfg, s1, after, t, target);
    AfterConcat(cfg, Init(verb), before + [Advance(t)], after);
    LeavingWritesStateOnly(cfg, After(cfg, s1, after), a, t, target);
  }

  /** One that reads none goes on. */
  lemma NoRequestGoesOn(cfg: Cfg, s: Sys, t: nat)
    requires t in s.sessions && (s.sessions[t].pc.CheckWalk? || s.sessions[t].pc == CheckExec)
    ensures var s' := Next(cfg, s, Advance(t));
            s.keys.hash.ctl == NoCtl <==> s'.sessions[t].pc.Walking? || s'.sessions[t].pc.ExecTop?
  {
  }
}
