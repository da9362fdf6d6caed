/** Schedules in which a resume's write, landing on a job that has moved on
    since its read, breaks each of the promises of JobStates. */
module JobLimits {
  import opened Collections
  import opened JobStore
  import opened Listings
  import opened JobProtocol
  import opened JobSteps
  import opened JobTheorems

  lemma AfterSnoc(cfg: Cfg, s: Sys, actions: seq<Action>, a: Action)
    ensures After(cfg, s, actions + [a]) == Next(cfg, After(cfg, s, actions), a)
  {
    assert (actions + [a])[..|actions|] == actions;
  }

  // --- schedules, one action at a time ---

  /** An accepted page under the cap moves the session to its control check
      and changes neither state, phase nor control flag. */
  lemma PageStep(cfg: Cfg, s: Sys, t: nat, w: Walk, gs: seq<string>, batch: seq<Task>)
    requires t in s.sessions && s.sessions[t].pc == Walking(w) && s.keys.hash.fence == t
    requires w.qi < |Or(w.j.queues, [])| && w.groups == Some(gs) && w.gi < |gs|
    requires Page(cfg.scope, Or(w.j.queues, [])[w.qi], gs[w.gi], w.page) == Some(batch)
    ensures var s' := Next(cfg, s, Advance(t));
            var w' := AfterPage(cfg, w, |batch|, |RefsOf(cfg.scope, batch)|);
            s'.keys.hash == PageHash(cfg, s.keys.hash, w, gs, batch)
            && s'.keys.lease == s.keys.lease && s'.ops == s.ops && s'.hist == s.hist
            && s'.sessions == s.sessions[t := s.sessions[t].(pc :=
                 if w'.j.candidates > MAX_CANDIDATES then Finalizing(Failed, true) else CheckWalk(w'))]
  {
    PageHashIs(cfg, s.keys, w, gs, batch);
  }

  /** An accepted state write sets the state, clears the flag, and nothing else. */
  lemma StateStep(cfg: Cfg, s: Sys, t: nat)
    requires t in s.sessions && s.keys.hash.fence == t
    requires s.sessions[t].pc == Pausing || s.sessions[t].pc.Finalizing?
    ensures var target := if s.sessions[t].pc == Pausing then Paused else s.sessions[t].pc.target;
            var next := if s.sessions[t].pc.Finalizing? && s.sessions[t].pc.drop then Dropping else Releasing;
            Next(cfg, s, Advance(t)) ==
            SetPc(s.(keys := s.keys.(hash := s.keys.hash.(state := target, ctl := NoCtl))), t, next)
  {
    NothingPushed(s.keys);
  }

  function OneTask(): Cfg {
    Cfg(Scope(["q"], false, map[], map[("q", "") := [Task("q", "t", "")]], _ => true, 10), 10)
  }

  ghost predicate FirstPage(s: Sys, ctl: Ctl) {
    && 1 in s.sessions && s.sessions[1].pc.Walking?
    && (var w := s.sessions[1].pc.w;
        w.qi == 0 && w.groups == Some([""]) && w.gi == 0 && w.page == 1 && w.j.queues == Some(["q"])
        && w.j.candidates == 0)
    && s.keys.hash.fence == 1 && s.keys.hash.ctl == ctl && s.keys.hash.verb == Archive
    && s.keys.hash.state == Previewing && s.keys.hash.phase == Preview && !s.keys.hash.previewComplete
    && s.keys.hash.queues == Some(["q"])
  }

  lemma AfterTwo(cfg: Cfg, s: Sys, a: Action, b: Action)
    ensures After(cfg, s, [a, b]) == Next(cfg, Next(cfg, s, a), b)
  {
    assert [a, b] == ([] + [a]) + [b];
    AfterSnoc(cfg, s, [], a);
    AfterSnoc(cfg, s, [] + [a], b);
  }

  lemma ClaimToPage() returns (s: Sys, actions: seq<Action>)
    ensures s == After(OneTask(), Init(Archive), actions) && FirstPage(s, NoCtl)
  {
    var cfg, s0 := OneTask(), Init(Archive);
    var s1 := Next(cfg, s0, TakeClaim("a"));
    var s2 := Next(cfg, s1, Advance(1));
    assert s2.sessions[1].pc.EnumEntry?;
    AfterTwo(cfg, s0, TakeClaim("a"), Advance(1));
    var s3 := Next(cfg, s2, Advance(1));
    s := Next(cfg, s3, Advance(1));
    AfterTwo(cfg, s2, Advance(1), Advance(1));
    AfterConcat(cfg, s0, [TakeClaim("a"), Advance(1)], [Advance(1), Advance(1)]);
    actions := [TakeClaim("a"), Advance(1)] + [Advance(1), Advance(1)];
  }

  lemma PauseRequested(s0: Sys) returns (s: Sys)
    requires FirstPage(s0, NoCtl)
    ensures s == After(OneTask(), s0, [PauseRead(0), PauseWrite(0)]) && FirstPage(s, PauseCtl)
  {
    AfterTwo(OneTask(), s0, PauseRead(0), PauseWrite(0));
    s := After(OneTask(), s0, [PauseRead(0), PauseWrite(0)]);
  }

  lemma ClaimAndRequestPause() returns (s: Sys, actions: seq<Action>)
    ensures s == After(OneTask(), Init(Archive), actions) && FirstPage(s, PauseCtl)
  {
    var s0, first := ClaimToPage();
    s := PauseRequested(s0);
    AfterConcat(OneTask(), Init(Archive), first, [PauseRead(0), PauseWrite(0)]);
    actions := first + [PauseRead(0), PauseWrite(0)];
  }

  lemma CancelWhileResuming(s3: Sys) returns (s: Sys, actions: seq<Action>)
    requires s3.keys.hash.state == Paused && s3.keys.hash.phase == Preview
    ensures s == After(OneTask(), s3, actions)
    ensures s.keys.hash.state == Canceled && 1 in s.ops && s.ops[1] == ResumeGated(true, false)
  {
    hide After, AdvanceSession, ActBatch;
    var cfg := OneTask();
    AfterTwo(cfg, s3, ResumeRead(1), CancelRead(2));
    AfterSnoc(cfg, s3, [ResumeRead(1), CancelRead(2)], CancelWrite(2));
    actions := [ResumeRead(1), CancelRead(2)] + [CancelWrite(2)];
    s := After(cfg, s3, actions);
  }

  lemma PauseThenCancel(s1: Sys, w: Walk) returns (s: Sys, actions: seq<Action>)
    requires 1 in s1.sessions && s1.sessions[1].pc == CheckWalk(w)
    requires s1.keys.hash.fence == 1 && s1.keys.hash.ctl == PauseCtl && s1.keys.hash.phase == Preview
    ensures s == After(OneTask(), s1, actions)
    ensures s.keys.hash.state == Canceled && 1 in s.ops && s.ops[1] == ResumeGated(true, false)
  {
    var cfg := OneTask();
    var s2 := Next(cfg, s1, Advance(1));
    assert s2.sessions[1].pc == Pausing && s2.keys == s1.keys;
    StateStep(cfg, s2, 1);
    var s3 := Next(cfg, s2, Advance(1));
    assert s3.keys.hash.state == Paused && s3.keys.hash.phase == Preview;
    AfterTwo(cfg, s1, Advance(1), Advance(1));
    var more;
    s, more := CancelWhileResuming(s3);
    AfterConcat(cfg, s1, [Advance(1), Advance(1)], more);
    actions := [Advance(1), Advance(1)] + more;
  }

  /** The page is written, the pause honored, and the cancel of the paused job
      lands while a resume has only read it. */
  lemma CancelOvertakesResume(s0: Sys) returns (s: Sys, actions: seq<Action>)
    requires FirstPage(s0, PauseCtl)
    ensures s == After(OneTask(), s0, actions)
    ensures s.keys.hash.state == Canceled && 1 in s.ops && s.ops[1] == ResumeGated(true, false)
  {
    var cfg := OneTask();
    var w := s0.sessions[1].pc.w;
    assert Offset(cfg.scope, 1) == 0;
    var batch := Page(cfg.scope, "q", "", 1).value;
    assert batch == [Task("q", "t", "")];
    PageStep(cfg, s0, 1, w, [""], batch);
    var s1 := Next(cfg, s0, Advance(1));
    AfterSnoc(cfg, s0, [], Advance(1));
    actions := [] + [Advance(1)];
    var s3, more := PauseThenCancel(s1, AfterPage(cfg, w, |batch|, |RefsOf(cfg.scope, batch)|));
    AfterConcat(cfg, s0, actions, more);
    s, actions := s3, actions + more;
  }

  lemma AfterOne(cfg: Cfg, s: Sys, a: Action)
    ensures After(cfg, s, [a]) == Next(cfg, s, a)
  {
    AfterSnoc(cfg, s, [], a);
    assert [] + [a] == [a];
  }

  /** A cancel that lands between the read and the write of a resume is undone:
      the canceled job goes back to previewing. */
  lemma {:induction false} SplitResumeLeavesTerminal() returns (before: seq<Action>, a: Action)
    ensures After(OneTask(), Init(Archive), before).keys.hash.state == Canceled
    ensures After(OneTask(), Init(Archive), before + [a]).keys.hash.state == Previewing
  {
    var cfg := OneTask();
    var s, first := ClaimAndRequestPause();
    var s', more := CancelOvertakesResume(s);
    AfterConcat(cfg, Init(Archive), first, more);
    before, a := first + more, ResumeWrite(1);
    AfterSnoc(cfg, Init(Archive), before, a);
  }

  ghost predicate PausedAfterPage(s: Sys) {
    var h := s.keys.hash;
    && h.state == Paused && h.phase == Preview && !h.previewComplete && h.verb == Archive && h.ctl == NoCtl
    && h.fence == 1 && h.queues == Some(["q"]) && h.qidx == 1
    && 1 in s.sessions && s.sessions[1].pc == Releasing
  }

  /** From the job's creation to a preview paused after its only page. */
  lemma PausedPreview() returns (s: Sys, actions: seq<Action>)
    ensures s == After(OneTask(), Init(Archive), actions) && PausedAfterPage(s)
  {
    var cfg := OneTask();
    var s0, first := ClaimAndRequestPause();
    var w := s0.sessions[1].pc.w;
    assert Offset(cfg.scope, 1) == 0;
    var batch := Page(cfg.scope, "q", "", 1).value;
    assert batch == [Task("q", "t", "")];
    PageStep(cfg, s0, 1, w, [""], batch);
    var s1 := Next(cfg, s0, Advance(1));
    var s2 := Next(cfg, s1, Advance(1));
    assert s2.sessions[1].pc == Pausing && s2.keys == s1.keys;
    StateStep(cfg, s2, 1);
    s := Next(cfg, s2, Advance(1));
    AfterTwo(cfg, s0, Advance(1), Advance(1));
    AfterSnoc(cfg, s0, [Advance(1), Advance(1)], Advance(1));
    AfterConcat(cfg, Init(Archive), first, [Advance(1), Advance(1)] + [Advance(1)]);
    actions := first + ([Advance(1), Advance(1)] + [Advance(1)]);
  }

  /** Two resumes have read the paused job, and the second has written. */
  lemma TwoResumes(s: Sys) returns (s': Sys, actions: seq<Action>)
    requires PausedAfterPage(s)
    ensures s' == After(OneTask(), s, actions)
    ensures s'.keys == s.keys.(hash := s.keys.hash.(state := Previewing, ctl := NoCtl)) && s'.sessions == s.sessions
    ensures 1 in s'.ops && s'.ops[1] == ResumeGated(true, false)
  {
    var cfg := OneTask();
    AfterTwo(cfg, s, ResumeRead(1), ResumeRead(2));
    AfterSnoc(cfg, s, [ResumeRead(1), ResumeRead(2)], ResumeWrite(2));
    actions := [ResumeRead(1), ResumeRead(2)] + [ResumeWrite(2)];
    s' := After(cfg, s, actions);
  }

  lemma ExecuteBetween(s: Sys) returns (s': Sys, actions: seq<Action>)
    requires ExecuteGate(s.keys.hash, true) && 1 in s.ops
    ensures s' == After(OneTask(), s, actions) && 1 in s'.ops && s'.ops[1] == s.ops[1]
    ensures s'.keys.hash.state == Running && s'.keys.hash.phase == Execute
  {
    AfterTwo(OneTask(), s, ExecuteRead(3, true), ExecuteWrite(3));
    actions := [ExecuteRead(3, true), ExecuteWrite(3)];
    s' := After(OneTask(), s, actions);
  }

  lemma ResumeLands(s: Sys)
    requires 1 in s.ops && s.ops[1] == ResumeGated(true, false)
    ensures var h := Next(OneTask(), s, ResumeWrite(1)).keys.hash;
            h.state == Previewing && h.phase == s.keys.hash.phase && h.previewComplete == s.keys.hash.previewComplete
  {
  }

  /** An execute request that lands in between is undone: the executing job is
      back in the previewing state. */
  lemma {:induction false} SplitResumeUndoesExecute() returns (before: seq<Action>, a: Action)
    ensures var h := After(OneTask(), Init(Archive), before).keys.hash; h.state == Running && h.phase == Execute
    ensures var h := After(OneTask(), Init(Archive), before + [a]).keys.hash; h.state == Previewing && h.phase == Execute
  {
    var cfg := OneTask();
    hide After, Next;
    var s, first := PausedPreview();
    var s1, more := TwoResumes(s);
    AfterConcat(cfg, Init(Archive), first, more);
    var s2, rest := ExecuteBetween(s1);
    AfterConcat(cfg, Init(Archive), first + more, rest);
    before, a := first + more + rest, ResumeWrite(1);
    AfterSnoc(cfg, Init(Archive), before, a);
    ResumeLands(s2);
  }

  /** A runner claims a preview that has nothing left to enumerate and completes it. */
  lemma CompleteEmptyRest(s: Sys) returns (s': Sys, actions: seq<Action>)
    requires var h := s.keys.hash;
             && h.state == Previewing && h.phase == Preview && !h.previewComplete
             && h.queues == Some(["q"]) && h.qidx == 1 && h.fence == 1
    ensures s' == After(OneTask(), s, actions) && s'.ops == s.ops
    ensures s'.keys.hash == s.keys.hash.(fence := 2, state := PreviewReady, previewComplete := true)
  {
    var cfg := OneTask();
    var s1 := Next(cfg, s, LeaseExpires);
    var s2 := Next(cfg, s1, TakeClaim("b"));
    AfterTwo(cfg, s, LeaseExpires, TakeClaim("b"));
    var h := s2.keys.hash;
    var s3 := Next(cfg, s2, Advance(2));
    assert s3 == SetPc(s2, 2, EnumEntry(h));
    var s4 := Next(cfg, s3, Advance(2));
    assert s4 == SetPc(s2, 2, Walking(StartWalk(h)));
    AfterTwo(cfg, s2, Advance(2), Advance(2));
    var s5 := Next(cfg, s4, Advance(2));
    assert s5 == SetPc(s2, 2, Completing);
    s' := Next(cfg, s5, Advance(2));
    AfterTwo(cfg, s4, Advance(2), Advance(2));
    AfterConcat(cfg, s2, [Advance(2), Advance(2)], [Advance(2), Advance(2)]);
    AfterConcat(cfg, s, [LeaseExpires, TakeClaim("b")], [Advance(2), Advance(2)] + [Advance(2), Advance(2)]);
    actions := [LeaseExpires, TakeClaim("b")] + ([Advance(2), Advance(2)] + [Advance(2), Advance(2)]);
  }

  /** A runner that completes the preview in between is undone: the complete
      preview is back in the previewing state, where no one can execute it
      without a worker that finds nothing to do. */
  lemma {:induction false} SplitResumeUndoesCompletion() returns (before: seq<Action>, a: Action)
    ensures var h := After(OneTask(), Init(Archive), before).keys.hash; h.state == PreviewReady && h.previewComplete
    ensures var h := After(OneTask(), Init(Archive), before + [a]).keys.hash; h.state == Previewing && h.previewComplete
  {
    var cfg := OneTask();
    var s, first := PausedPreview();
    var s1, more := TwoResumes(s);
    AfterConcat(cfg, Init(Archive), first, more);
    hide After, Next;
    var s2, rest := CompleteEmptyRest(s1);
    AfterConcat(cfg, Init(Archive), first + more, rest);
    before, a := first + more + rest, ResumeWrite(1);
    AfterSnoc(cfg, Init(Archive), before, a);
    ResumeLands(s2);
  }
}
