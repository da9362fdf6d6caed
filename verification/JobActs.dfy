/** The execute batches, the operators, and the invariant over whole runs. */
module JobActs {
  import opened Collections
  import opened JobStore
  import opened Listings
  import opened JobProtocol
  import opened JobInvariant
  import opened JobSteps

  // --- accounting of one batch ---

  /** Every answer and every decision is counted under exactly one heading. */
  lemma {:induction false} FetchPartition(fetch: seq<Fetch>)
    ensures Tally(fetch, (f: Fetch) => f.Gone?) + Tally(fetch, (f: Fetch) => f.FetchFailed?) ==
            Tally(fetch, (f: Fetch) => !f.Found?)
  {
    if fetch != [] {
      FetchPartition(fetch[..|fetch| - 1]);
    }
  }

  lemma {:induction false} DecisionPartition(ds: seq<Decision>)
    ensures Tally(ds, (d: Decision) => d.ActedOn?) + Tally(ds, (d: Decision) => d.NoMatch? || d.AlreadyThere?)
            + Tally(ds, (d: Decision) => d.ActFailed?) == |ds|
  {
    if ds != [] {
      DecisionPartition(ds[..|ds| - 1]);
    }
  }

  /** Re-fetching settles each reference or gives a task to decide, and one
      report row for each failed re-fetch. */
  lemma {:induction false} FetchAccounts(refs: seq<Ref>, fetch: seq<Fetch>)
    requires |refs| == |fetch|
    ensures Tally(fetch, (f: Fetch) => !f.Found?) + |FoundTasks(refs, fetch)| == |refs|
    ensures |FetchFailures(refs, fetch)| == Tally(fetch, (f: Fetch) => f.FetchFailed?)
  {
    if refs != [] {
      FetchAccounts(refs[..|refs| - 1], fetch[..|refs| - 1]);
    }
  }

  lemma {:induction false} DecisionAccounts(tasks: seq<Task>, ds: seq<Decision>)
    requires |ds| <= |tasks|
    ensures |DecisionFailures(tasks, ds)| == Tally(ds, (d: Decision) => d.ActFailed?)
  {
    if ds != [] {
      DecisionAccounts(tasks, ds[..|ds| - 1]);
    }
  }

  lemma BatchAccounts(refs: seq<Ref>, fetch: seq<Fetch>, decided: seq<Decision>)
    requires |refs| == |fetch| && |decided| <= |FoundTasks(refs, fetch)|
    ensures SettledIn(fetch, decided) + (|FoundTasks(refs, fetch)| - |decided|) == |refs|
    ensures ActedIn(decided) + SkippedIn(fetch, decided) + FailedIn(fetch, decided) == SettledIn(fetch, decided)
    ensures |BatchFailures(refs, fetch, decided)| == FailedIn(fetch, decided)
  {
    FetchAccounts(refs, fetch);
    FetchPartition(fetch);
    DecisionAccounts(FoundTasks(refs, fetch), decided);
    DecisionPartition(decided);
  }

  lemma {:induction false} TouchedMatch(cfg: Cfg, tasks: seq<Task>, ds: seq<Decision>)
    requires |ds| <= |tasks| && Rematched(cfg, tasks, ds)
    ensures forall t <- Touched(tasks, ds) :: cfg.scope.matches(t)
  {
    if ds != [] {
      TouchedMatch(cfg, tasks, ds[..|ds| - 1]);
    }
  }

  /** The failure report after any write that adds as many failures to the
      count as rows to the report. */
  lemma ReportGrows(k: Keys, all: seq<Failure>, fields: Patch, failures: seq<Failure>)
    requires ReportOk(k, all) && fields.failed == Some(k.hash.failed + |failures|)
    ensures ReportOk(Progress(k, k.hash.fence, Write(fields, [], [], failures)), all + failures)
  {
    assert PushCapped(k.failures, failures, MAX_FAILURE_REPORT) ==
           (all + failures)[..Min(|all + failures|, MAX_FAILURE_REPORT)];
  }

  // --- one execute batch ---

  function AfterCounts(h: Hash, fetch: seq<Fetch>, decided: seq<Decision>, more: nat): Hash {
    h.(acted := h.acted + ActedIn(decided), skipped := h.skipped + SkippedIn(fetch, decided),
    failed := h.failed + FailedIn(fetch, decided), actCursor := h.actCursor + more)
  }

  /** The keys after an execute batch: counts, cursor and report. */
  lemma ActKeys(k: Keys, j: Hash, fetch: seq<Fetch>, decided: seq<Decision>, more: nat, failures: seq<Failure>,
                fields: Patch)
    requires ExecOk(j, k.hash)
    requires var counts := CountPatch(j, fetch, decided);
             fields == if more == 0 then counts else counts.(actCursor := Some(j.actCursor + more))
    ensures var k' := Progress(k, k.hash.fence, Write(fields, [], [], failures));
            k' == k.(hash := AfterCounts(k.hash, fetch, decided, more).(overflow := k'.hash.overflow), failures := k'.failures)
  {
    hide ActedIn, SkippedIn, FailedIn;
    NothingPushed(k);
  }

  lemma CountsGrow(hist: Hist, fetch: seq<Fetch>, decided: seq<Decision>)
    ensures ActedIn(hist.decisions + decided) == ActedIn(hist.decisions) + ActedIn(decided)
    ensures SkippedIn(hist.answers + fetch, hist.decisions + decided) ==
            SkippedIn(hist.answers, hist.decisions) + SkippedIn(fetch, decided)
    ensures FailedIn(hist.answers + fetch, hist.decisions + decided) ==
            FailedIn(hist.answers, hist.decisions) + FailedIn(fetch, decided)
  {
    TallyConcat(hist.answers, fetch, (f: Fetch) => f.Gone?);
    TallyConcat(hist.answers, fetch, (f: Fetch) => f.FetchFailed?);
    TallyConcat(hist.decisions, decided, (d: Decision) => d.ActedOn?);
    TallyConcat(hist.decisions, decided, (d: Decision) => d.NoMatch? || d.AlreadyThere?);
    TallyConcat(hist.decisions, decided, (d: Decision) => d.ActFailed?);
  }

  lemma TilesGrow(full: seq<Batch>, b: Batch)
    requires Tiles(full) && b.refs != [] && b.lo == |Decided(full)|
    requires full != [] ==> full[|full| - 1].token <= b.token
    ensures Tiles(full + [b]) && Decided(full + [b]) == Decided(full) + b.refs
  {
    assert (full + [b])[..|full|] == full;
  }

  lemma FullBatchTiles(k: Keys, hist: Hist, refs: seq<Ref>, b: Batch)
    requires CursorTiles(k, hist) && RefsOk(k, hist.dropped, refs)
    requires b == Batch(k.hash.fence, k.hash.actCursor, refs)
    ensures Tiles(hist.full + [b]) && |Decided(hist.full + [b])| == k.hash.actCursor + |refs|
    ensures !hist.dropped ==> Decided(hist.full + [b]) <= k.candidates
  {
    TilesGrow(hist.full, b);
    if !hist.dropped {
      var c := k.hash.actCursor;
      assert Decided(hist.full) == k.candidates[..c];
      assert k.candidates[..c] + k.candidates[c..c + |refs|] == k.candidates[..c + |refs|];
    }
  }

  /** The job after an accepted execute batch. */
  lemma ActKeysOk(cfg: Cfg, k: Keys, hist: Hist, k': Keys, hist': Hist, fetch: seq<Fetch>, decided: seq<Decision>,
                  more: nat)
    requires KeysOk(cfg, k, hist) && k.hash.previewComplete
    requires k' == k.(hash := AfterCounts(k.hash, fetch, decided, more).(overflow := k'.hash.overflow), failures := k'.failures)
    requires ReportOk(k', hist'.failures) && hist'.dropped == hist.dropped
    requires hist'.answers == hist.answers + fetch && hist'.decisions == hist.decisions + decided
    requires ActedIn(decided) + SkippedIn(fetch, decided) + FailedIn(fetch, decided) + hist.partial == hist'.partial + more
    requires TouchedOk(cfg, hist') && CursorTiles(k', hist')
    ensures KeysOk(cfg, k', hist')
  {
    hide ActedIn, SkippedIn, FailedIn, Tiles;
    CountsGrow(hist, fetch, decided);
    assert EnumOk(cfg, k', hist'.dropped) by {
      assert StoredRest(cfg, k'.hash) == StoredRest(cfg, k.hash);
    }
  }

  lemma ActHistIs(hist: Hist, t: nat, j: Hash, refs: seq<Ref>, fetch: seq<Fetch>, decided: seq<Decision>)
    requires |refs| == |fetch| && |decided| <= |FoundTasks(refs, fetch)|
    ensures var hist' := ActHist(hist, t, j, refs, fetch, decided);
            hist'.failures == hist.failures + BatchFailures(refs, fetch, decided)
            && hist'.dropped == hist.dropped && hist'.answers == hist.answers + fetch
            && hist'.decisions == hist.decisions + decided
            && hist'.touched == hist.touched + Touched(FoundTasks(refs, fetch), decided)
            && hist'.partial == hist.partial + (if Partial(refs, fetch, decided) then SettledIn(fetch, decided) else 0)
            && hist'.full == hist.full + if Partial(refs, fetch, decided) then [] else [Batch(t, j.actCursor, refs)]
  {
  }

  lemma ActFieldsFailed(j: Hash, refs: seq<Ref>, fetch: seq<Fetch>, decided: seq<Decision>)
    requires |refs| == |fetch|
    ensures ActFields(j, refs, fetch, decided).failed == Some(j.failed + FailedIn(fetch, decided))
  {
  }

  lemma ActTiles(k: Keys, hist: Hist, k': Keys, hist': Hist, refs: seq<Ref>, more: nat)
    requires CursorTiles(k, hist) && RefsOk(k, hist.dropped, refs) && k.hash.previewComplete
    requires k'.hash.actCursor == k.hash.actCursor + more && k'.candidates == k.candidates
    requires k'.hash.fence == k.hash.fence && k'.hash.candidates == k.hash.candidates && k'.hash.previewComplete
    requires hist'.dropped == hist.dropped
    requires more == 0 || more == |refs|
    requires hist'.full == hist.full + if more == 0 then [] else [Batch(k.hash.fence, k.hash.actCursor, refs)]
    ensures CursorTiles(k', hist')
  {
    if more != 0 {
      FullBatchTiles(k, hist, refs, Batch(k.hash.fence, k.hash.actCursor, refs));
    } else {
      assert hist'.full == hist.full;
    }
  }

  lemma ActAcceptedOk(cfg: Cfg, k: Keys, hist: Hist, j: Hash, refs: seq<Ref>, fetch: seq<Fetch>, decided: seq<Decision>)
    requires KeysOk(cfg, k, hist) && ExecOk(j, k.hash) && RefsOk(k, hist.dropped, refs)
    requires BatchFits(cfg, refs, fetch, decided)
    ensures var t := k.hash.fence;
            var w := Write(ActFields(j, refs, fetch, decided), [], [], BatchFailures(refs, fetch, decided));
            var k' := Progress(k, t, w);
            KeysOk(cfg, k', ActHist(hist, t, j, refs, fetch, decided)) && Grows(k.hash, k'.hash)
            && k'.hash.previewComplete
  {
    hide EnumOk, Tiles, Decided, ActedIn, SkippedIn, FailedIn, SettledIn, FoundTasks, FetchFailures, DecisionFailures, Touched;
    var failures := BatchFailures(refs, fetch, decided);
    var fields, hist' := ActFields(j, refs, fetch, decided), ActHist(hist, k.hash.fence, j, refs, fetch, decided);
    var more := if Partial(refs, fetch, decided) then 0 else |refs|;
    var k' := Progress(k, k.hash.fence, Write(fields, [], [], failures));
    BatchAccounts(refs, fetch, decided);
    ActHistIs(hist, k.hash.fence, j, refs, fetch, decided);
    TouchedMatch(cfg, FoundTasks(refs, fetch), decided);
    assert ReportOk(k', hist'.failures) by {
      ActFieldsFailed(j, refs, fetch, decided);
      ReportGrows(k, hist.failures, fields, failures);
    }
    ActKeys(k, j, fetch, decided, more, failures, fields);
    assert CursorTiles(k', hist') by { ActTiles(k, hist, k', hist', refs, more); }
    ActKeysOk(cfg, k, hist, k', hist', fetch, decided, more);
  }

  lemma ActBatchOk(cfg: Cfg, s: Sys, t: nat, j: Hash, refs: seq<Ref>, fetch: seq<Fetch>, decided: seq<Decision>)
    requires Inv(cfg, s) && t in s.sessions && s.sessions[t].pc == Acting(j, refs)
    requires BatchFits(cfg, refs, fetch, decided)
    ensures Inv(cfg, ActBatch(cfg, s, t, j, refs, fetch, decided))
  {
    hide EnumOk, CountsOk, CursorTiles, FetchFailures, DecisionFailures, ActFields, BatchFailures, ActHist;
    assert SessionOk(cfg, s.keys, s.hist, t, Acting(j, refs));
    if s.keys.hash.fence != t {
      LocalStep(cfg, s, t, Releasing);
    } else {
      ActAcceptedOk(cfg, s.keys, s.hist, j, refs, fetch, decided);
      var w := Write(ActFields(j, refs, fetch, decided), [], [], BatchFailures(refs, fetch, decided));
      CurrentWrite(cfg, s, t, Progress(s.keys, t, w), ActHist(s.hist, t, j, refs, fetch, decided),
                   if Partial(refs, fetch, decided) then Releasing else CheckExec);
    }
  }

  // --- claims and operators ---

  lemma TakeClaimOk(cfg: Cfg, s: Sys, inst: string)
    requires Inv(cfg, s)
    ensures Inv(cfg, Next(cfg, s, TakeClaim(inst)))
  {
    hide Rest, ActedIn, SkippedIn, FailedIn, Tiles, AllTasks;
    if s.keys.lease.None? {
      var k := Claim(s.keys, inst);
      var s' := Next(cfg, s, TakeClaim(inst));
      assert EnumOk(cfg, k, s.hist.dropped) by {
        assert StoredRest(cfg, k.hash) == StoredRest(cfg, s.keys.hash);
      }
      assert KeysOk(cfg, k, s.hist);
      forall u <- s'.sessions
        ensures SessionOk(cfg, k, s.hist, u, s'.sessions[u].pc)
      {
        if u in s.sessions {
          assert SessionOk(cfg, s.keys, s.hist, u, s.sessions[u].pc);
        }
      }
      forall o <- s.ops
        ensures OpOk(k.hash, s.ops[o])
      {
        assert OpOk(s.keys.hash, s.ops[o]);
      }
    }
  }

  lemma OpsOk(cfg: Cfg, s: Sys, ops: map<nat, Op>)
    requires Inv(cfg, s)
    requires forall o <- ops :: (o in s.ops && ops[o] == s.ops[o]) || OpOk(s.keys.hash, ops[o])
    ensures Inv(cfg, s.(ops := ops))
  {
  }

  lemma ExecuteWriteOk(cfg: Cfg, s: Sys, o: nat)
    requires Inv(cfg, s) && o in s.ops && s.ops[o].ExecuteGated?
    ensures Inv(cfg, OperatorStep(s, ExecuteWrite(o)))
  {
    var h, s' := s.keys.hash, s.(ops := s.ops - {o});
    assert OpOk(h, s.ops[o]);
    OpsOk(cfg, s, s'.ops);
    if h.state == Previewing || h.state == PreviewReady {
      OperatorWrite(cfg, s', h.(phase := Execute, state := Running, proceedOnPartial := s.ops[o].proceed));
    }
  }

  lemma CancelWriteOk(cfg: Cfg, s: Sys, o: nat)
    requires Inv(cfg, s) && o in s.ops && (s.ops[o] == CancelCas || s.ops[o] == CancelFlag)
    ensures Inv(cfg, OperatorStep(s, CancelWrite(o)))
  {
    var h, s' := s.keys.hash, s.(ops := s.ops - {o});
    OpsOk(cfg, s, s'.ops);
    OpsOk(cfg, s, s.ops[o := CancelFlag]);
    if s.ops[o] == CancelFlag {
      OperatorWrite(cfg, s', h.(ctl := CancelCtl));
    } else if h.state == PreviewReady || h.state == Paused {
      OperatorWrite(cfg, s', h.(state := Canceled, ctl := NoCtl));
    }
  }

  lemma ResumeWriteOk(cfg: Cfg, s: Sys, o: nat)
    requires Inv(cfg, s) && o in s.ops && s.ops[o].ResumeGated?
    ensures Inv(cfg, OperatorStep(s, ResumeWrite(o)))
  {
    OpsOk(cfg, s, s.ops - {o});
    OperatorWrite(cfg, s.(ops := s.ops - {o}), ResumeTo(s.keys.hash, s.ops[o].flip, s.ops[o].toRunning));
  }

  /** Operators keep the invariant, a resume that overwrites a newer state included. */
  lemma OperatorOk(cfg: Cfg, s: Sys, a: Action)
    requires Inv(cfg, s)
    ensures Inv(cfg, OperatorStep(s, a))
  {
    hide EnumOk, Live;
    var h := s.keys.hash;
    match a {
      case ExecuteRead(o, proceed) =>
        if ExecuteGate(h, proceed) { OpsOk(cfg, s, s.ops[o := ExecuteGated(proceed)]); }
      case ExecuteWrite(o) => if o in s.ops && s.ops[o].ExecuteGated? { ExecuteWriteOk(cfg, s, o); }
      case CancelRead(o) =>
        OpsOk(cfg, s, s.ops[o := CancelCas]);
        OpsOk(cfg, s, s.ops[o := CancelFlag]);
      case CancelWrite(o) =>
        if o in s.ops && (s.ops[o] == CancelCas || s.ops[o] == CancelFlag) { CancelWriteOk(cfg, s, o); }
      case PauseRead(o) => OpsOk(cfg, s, s.ops[o := PauseGated]);
      case PauseWrite(o) =>
        OpsOk(cfg, s, s.ops - {o});
        OperatorWrite(cfg, s.(ops := s.ops - {o}), h.(ctl := PauseCtl));
      case ResumeRead(o) => OpsOk(cfg, s, s.ops[o := ResumeGated(h.state == Paused, h.phase == Execute)]);
      case ResumeWrite(o) => if o in s.ops && s.ops[o].ResumeGated? { ResumeWriteOk(cfg, s, o); }
      case _ =>
    }
  }

  // --- one action, and whole runs ---

  /** A terminal write that fails is still followed by the drop. */
  lemma FailWriteOk(cfg: Cfg, s: Sys, t: nat)
    requires Inv(cfg, s)
    ensures Inv(cfg, Next(cfg, s, FailWrite(t)))
  {
    hide KeysOk;
    if t in s.sessions && s.sessions[t].pc.Finalizing? {
      assert SessionOk(cfg, s.keys, s.hist, t, s.sessions[t].pc);
      LocalStep(cfg, s, t, if s.sessions[t].pc.drop then Dropping else Releasing);
    }
  }

  /** A session may fail its setup, stop, or crash. */
  lemma UnwindOk(cfg: Cfg, s: Sys, t: nat, pc: Pc)
    requires Inv(cfg, s)
    requires pc == Releasing || pc == Ended || pc == Finalizing(Failed, false)
    ensures t in s.sessions && (pc.Finalizing? ==> s.sessions[t].pc.EnumEntry? || s.sessions[t].pc.ExecEntry?)
            ==> Inv(cfg, SetPc(s, t, pc))
  {
    if t in s.sessions && (pc.Finalizing? ==> s.sessions[t].pc.EnumEntry? || s.sessions[t].pc.ExecEntry?) {
      assert SessionOk(cfg, s.keys, s.hist, t, s.sessions[t].pc);
      LocalStep(cfg, s, t, pc);
    }
  }

  lemma {:induction false} NextOk(cfg: Cfg, s: Sys, a: Action)
    requires Inv(cfg, s)
    ensures Inv(cfg, Next(cfg, s, a))
  {
    hide KeysOk, Live, OperatorStep, AdvanceSession, ActBatch;
    match a {
      case TakeClaim(inst) => TakeClaimOk(cfg, s, inst);
      case LeaseExpires => LeaseOk(cfg, s, None);
      case Advance(t) => if t in s.sessions { AdvanceOk(cfg, s, t); }
      case Act(t, fetch, decided) =>
        if t in s.sessions && s.sessions[t].pc.Acting? {
          if BatchFits(cfg, s.sessions[t].pc.refs, fetch, decided) {
            ActBatchOk(cfg, s, t, s.sessions[t].pc.j, s.sessions[t].pc.refs, fetch, decided);
          }
        }
      case FailSetup(t) => UnwindOk(cfg, s, t, Finalizing(Failed, false));
      case FailWrite(t) => FailWriteOk(cfg, s, t);
      case Stop(t) => UnwindOk(cfg, s, t, Releasing);
      case Crash(t) => UnwindOk(cfg, s, t, Ended);
      case _ => OperatorOk(cfg, s, a);
    }
  }

  /** The invariant holds after every schedule of runners, operators, lease
      expiries and crashes. */
  lemma {:induction false} RunKeepsInv(cfg: Cfg, s: Sys, actions: seq<Action>)
    requires Inv(cfg, s)
    ensures Inv(cfg, After(cfg, s, actions))
  {
    if actions != [] {
      var n := |actions| - 1;
      RunKeepsInv(cfg, s, actions[..n]);
      NextOk(cfg, After(cfg, s, actions[..n]), actions[n]);
    }
  }
}
