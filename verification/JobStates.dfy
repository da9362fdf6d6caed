/** The state machine of a bulk job, and the one request that can break it: a
    resume whose write lands on a job that has moved on since it was read. */
module JobStates {
  import opened Collections
  import opened JobStore
  import opened Listings
  import opened JobProtocol
  import opened JobInvariant
  import opened JobTheorems

  ghost predicate StateOk(h: Hash) {
    && (h.state == Running ==> h.phase == Execute)
    && (h.state == Previewing ==> h.phase == Preview && !h.previewComplete)
    && (h.state == PreviewReady ==> h.phase == Preview && h.previewComplete)
    && (h.state == Paused && h.phase == Preview ==> !h.previewComplete)
    && (h.phase == Execute ==> MayExecute(h, h.proceedOnPartial))
  }

  /** The state in which the current session may be where it is. */
  ghost predicate StateLive(h: Hash, pc: Pc) {
    match pc
    case EnumEntry(_) => h.state.Claimable()
    case Walking(_) => h.state.Claimable()
    case CheckWalk(_) => h.state.Claimable()
    case Completing => h.state.Claimable()
    case ExecEntry(_) => h.state == Running
    case ExecTop(_) => h.state == Running
    case Fetching(_) => h.state == Running
    case Acting(_, _) => h.state == Running
    case CheckExec => h.state == Running
    case Pausing => h.state.Claimable()
    case Finalizing(target, _) => h.state.Claimable() && target.IsTerminal()
    case _ => true
  }

  ghost predicate StatesOk(s: Sys) {
    && StateOk(s.keys.hash)
    && (s.keys.hash.fence in s.sessions ==> StateLive(s.keys.hash, s.sessions[s.keys.hash.fence].pc))
  }

  /** What no enumeration write touches. */
  predicate SameStanding(h: Hash, h': Hash) {
    && h'.fence == h.fence && h'.verb == h.verb && h'.phase == h.phase && h'.state == h.state
    && h'.previewComplete == h.previewComplete && h'.proceedOnPartial == h.proceedOnPartial
  }

  lemma FieldsKeepStanding(k: Keys, t: nat, w: Write)
    requires w.fields.state.None?
    ensures SameStanding(k.hash, Progress(k, t, w).hash)
  {
    hide PushCapped;
  }

  lemma WalkKeepsStanding(cfg: Cfg, s: Sys, t: nat, w: Walk)
    requires t in s.sessions
    ensures SameStanding(s.keys.hash, WalkStep(cfg, s, t, w).keys.hash)
  {
    hide Progress, RefsOf, Page;
    forall wr: Write | wr.fields.state.None?
      ensures SameStanding(s.keys.hash, Progress(s.keys, t, wr).hash)
    {
      FieldsKeepStanding(s.keys, t, wr);
    }
  }

  /** What a round trip of a session does to the state. */
  lemma AdvanceState(cfg: Cfg, s: Sys, t: nat)
    requires t in s.sessions
    ensures var h, h' := s.keys.hash, AdvanceSession(cfg, s, t).keys.hash;
            var pc := s.sessions[t].pc;
            && h'.fence == h.fence && h'.verb == h.verb && h'.proceedOnPartial == h.proceedOnPartial && h'.phase == h.phase
            && h'.previewComplete == (h.previewComplete || (pc == Completing && h.fence == t))
            && h'.state == if h.fence != t then h.state
                           else if pc == Completing then if h.phase == Preview then PreviewReady else h.state
                           else if pc == Pausing then Paused
                           else if pc.Finalizing? then pc.target else h.state
  {
    hide WalkStep, PushCapped;
    if s.sessions[t].pc.Walking? {
      WalkKeepsStanding(cfg, s, t, s.sessions[t].pc.w);
    }
  }

  /** Where the current session stands after its round trip. */
  lemma AdvanceLive(cfg: Cfg, s: Sys, t: nat)
    requires StatesOk(s) && t in s.sessions && t == s.keys.hash.fence
    ensures var s' := AdvanceSession(cfg, s, t);
            t in s'.sessions && StateLive(s'.keys.hash, s'.sessions[t].pc)
  {
    hide PageWrite, RefsOf, Page, PushCapped;
    AdvanceState(cfg, s, t);
  }

  lemma AdvanceOthers(cfg: Cfg, s: Sys, t: nat)
    requires t in s.sessions
    ensures var s' := AdvanceSession(cfg, s, t);
            forall u :: u != t ==> (u in s'.sessions <==> u in s.sessions) && (u in s.sessions ==> s'.sessions[u] == s.sessions[u])
  {
    hide Progress, PageWrite, RefsOf, Page;
  }

  lemma AdvanceStates(cfg: Cfg, s: Sys, t: nat)
    requires StatesOk(s) && t in s.sessions
    ensures StatesOk(AdvanceSession(cfg, s, t))
  {
    hide AdvanceSession;
    AdvanceState(cfg, s, t);
    AdvanceOthers(cfg, s, t);
    if t == s.keys.hash.fence {
      AdvanceLive(cfg, s, t);
    }
  }

  /** A resume write is safe where the state it restores is still the job's:
      the job is not terminal and is in the phase that was read, its preview
      still incomplete when that phase is preview. */
  predicate SafeResume(h: Hash, toRunning: bool) {
    !h.state.IsTerminal() && if toRunning then h.phase == Execute else h.phase == Preview && !h.previewComplete
  }

  /** Every action is safe but a flipping resume write elsewhere. */
  predicate SafeAction(s: Sys, a: Action) {
    a.ResumeWrite? && a.op in s.ops && s.ops[a.op].ResumeGated? && s.ops[a.op].flip ==>
      SafeResume(s.keys.hash, s.ops[a.op].toRunning)
  }

  /** One resume write, alone: the state machine's promises hold after it if
      and only if it is safe. */
  lemma ResumeWriteSafeIff(h: Hash, toRunning: bool)
    requires StateOk(h)
    ensures var h' := ResumeTo(h, true, toRunning);
            (StateOk(h') && (h.state.IsTerminal() ==> h'.state == h.state)) <==> SafeResume(h, toRunning)
  {
  }

  /** Operators leave the current session's state to it, unless they are unsafe. */
  lemma OperatorStates(s: Sys, a: Action)
    requires StatesOk(s) && SafeAction(s, a)
    requires forall o <- s.ops :: OpOk(s.keys.hash, s.ops[o])
    ensures StatesOk(OperatorStep(s, a))
  {
    if a.ExecuteWrite? && a.op in s.ops {
      assert OpOk(s.keys.hash, s.ops[a.op]);
    }
  }

  /** Acting on a batch leaves the state alone. */
  lemma ActStates(cfg: Cfg, s: Sys, a: Action)
    requires a.Act?
    ensures Next(cfg, s, a).keys.hash.state == s.keys.hash.state
    ensures StatesOk(s) ==> StatesOk(Next(cfg, s, a))
  {
    hide ActHist, BatchFailures, FoundTasks, PushCapped;
  }

  lemma NextStates(cfg: Cfg, s: Sys, a: Action)
    requires Inv(cfg, s) && StatesOk(s) && SafeAction(s, a)
    ensures StatesOk(Next(cfg, s, a))
  {
    hide AdvanceSession, OperatorStep, KeysOk, SessionOk;
    match a {
      case Advance(t) => if t in s.sessions { AdvanceStates(cfg, s, t); }
      case Act(t, fetch, decided) => ActStates(cfg, s, a);
      case TakeClaim(_) =>
      case LeaseExpires =>
      case FailSetup(_) =>
      case FailWrite(_) =>
      case Stop(_) =>
      case Crash(_) =>
      case _ => OperatorStates(s, a);
    }
  }

  // --- whole schedules ---

  /** Every resume write of the schedule is safe where it lands. */
  ghost predicate SafeRun(cfg: Cfg, s: Sys, actions: seq<Action>) {
    forall n :: 0 <= n < |actions| ==> SafeAction(After(cfg, s, actions[..n]), actions[n])
  }

  lemma SafeRunPrefix(cfg: Cfg, s: Sys, actions: seq<Action>, m: nat)
    requires SafeRun(cfg, s, actions) && m <= |actions|
    ensures SafeRun(cfg, s, actions[..m])
  {
    forall n | 0 <= n < m
      ensures SafeAction(After(cfg, s, actions[..m][..n]), actions[..m][n])
    {
      assert actions[..m][..n] == actions[..n];
    }
  }

  lemma {:induction false} SafeRunStates(cfg: Cfg, verb: Verb, actions: seq<Action>)
    requires SafeRun(cfg, Init(verb), actions)
    ensures StatesOk(After(cfg, Init(verb), actions))
  {
    if actions != [] {
      hide Next;
      var n := |actions| - 1;
      SafeRunPrefix(cfg, Init(verb), actions, n);
      SafeRunStates(cfg, verb, actions[..n]);
      Reachable(cfg, verb, actions[..n]);
      NextStates(cfg, After(cfg, Init(verb), actions[..n]), actions[n]);
    }
  }

  /** Running means executing; previewing and preview_ready mean an incomplete
      and a complete preview that no one has executed; a delete never executes
      before its preview is complete, and a count never executes. */
  lemma {:induction false} StatesAgree(cfg: Cfg, verb: Verb, actions: seq<Action>)
    requires SafeRun(cfg, Init(verb), actions)
    ensures var h := After(cfg, Init(verb), actions).keys.hash;
            && h.verb == verb
            && (h.state == Running ==> h.phase == Execute)
            && (h.state == Previewing ==> h.phase == Preview && !h.previewComplete)
            && (h.state == PreviewReady ==> h.phase == Preview && h.previewComplete)
  {
    SafeRunStates(cfg, verb, actions);
    VerbKept(cfg, Init(verb), actions);
  }

  /** What the execute gate demanded holds in the execute phase for ever, under
      every schedule: a count never executes, a delete only on a complete
      preview, anything else on a complete one or with an acknowledgement. */
  lemma {:induction false} ExecuteWasGated(cfg: Cfg, verb: Verb, actions: seq<Action>)
    requires After(cfg, Init(verb), actions).keys.hash.phase == Execute
    ensures var h := After(cfg, Init(verb), actions).keys.hash;
            verb != Count && (h.previewComplete || (verb != Delete && h.proceedOnPartial))
  {
    Reachable(cfg, verb, actions);
    VerbKept(cfg, Init(verb), actions);
  }

  /** A session that may still write works on a job that is not terminal. */
  lemma TerminalStep(cfg: Cfg, s: Sys, a: Action)
    requires StatesOk(s) && SafeAction(s, a) && s.keys.hash.state.IsTerminal()
    ensures Next(cfg, s, a).keys.hash.state == s.keys.hash.state
  {
    hide AdvanceSession, ActBatch, StateOk;
    match a {
      case Advance(t) => if t in s.sessions { AdvanceState(cfg, s, t); }
      case Act(_, _, _) => ActStates(cfg, s, a);
      case _ =>
    }
  }

  ghost predicate StepKeepsPromises(s: Sys, s': Sys) {
    StateOk(s'.keys.hash) && (s.keys.hash.state.IsTerminal() ==> s'.keys.hash.state == s.keys.hash.state)
  }

  /** The promises of the state machine, over a whole schedule. */
  ghost predicate KeepsPromises(cfg: Cfg, s: Sys, actions: seq<Action>) {
    forall n :: 0 <= n < |actions| ==> StepKeepsPromises(After(cfg, s, actions[..n]), After(cfg, s, actions[..n + 1]))
  }

  /** The first unsafe resume write breaks a promise there and then. */
  lemma UnsafeBreaks(cfg: Cfg, s: Sys, a: Action)
    requires StateOk(s.keys.hash) && !SafeAction(s, a)
    ensures !StepKeepsPromises(s, Next(cfg, s, a))
  {
    ResumeWriteSafeIff(s.keys.hash, s.ops[a.op].toRunning);
  }

  lemma StateOfStates(s: Sys)
    requires StatesOk(s)
    ensures StateOk(s.keys.hash)
  {
  }

  lemma SafeStep(cfg: Cfg, verb: Verb, actions: seq<Action>, n: nat)
    requires SafeRun(cfg, Init(verb), actions) && n < |actions|
    ensures StepKeepsPromises(After(cfg, Init(verb), actions[..n]), After(cfg, Init(verb), actions[..n + 1]))
  {
    hide Next, SafeAction;
    var s := After(cfg, Init(verb), actions[..n]);
    SafeRunPrefix(cfg, Init(verb), actions, n);
    SafeRunPrefix(cfg, Init(verb), actions, n + 1);
    SafeRunStates(cfg, verb, actions[..n]);
    SafeRunStates(cfg, verb, actions[..n + 1]);
    assert actions[..n + 1][..n] == actions[..n];
    if s.keys.hash.state.IsTerminal() {
      TerminalStep(cfg, s, actions[n]);
    }
  }

  lemma {:induction false} FirstUnsafe(cfg: Cfg, s: Sys, actions: seq<Action>) returns (n: nat)
    requires !SafeRun(cfg, s, actions)
    ensures n < |actions| && SafeRun(cfg, s, actions[..n]) && !SafeAction(After(cfg, s, actions[..n]), actions[n])
    ensures actions[n].ResumeWrite?
  {
    hide After;
    var m := |actions| - 1;
    if SafeRun(cfg, s, actions[..m]) {
      n := m;
      forall i | 0 <= i < m
        ensures SafeAction(After(cfg, s, actions[..i]), actions[i])
      {
        assert actions[..m][..i] == actions[..i];
      }
    } else {
      n := FirstUnsafe(cfg, s, actions[..m]);
      assert actions[..m][..n] == actions[..n];
    }
  }

  /** Over every schedule of claims, crashes, writes and operator requests, the
      promises hold if and only if every resume write is safe where it lands. */
  lemma {:induction false} PromisesIffSafe(cfg: Cfg, verb: Verb, actions: seq<Action>)
    ensures KeepsPromises(cfg, Init(verb), actions) <==> SafeRun(cfg, Init(verb), actions)
  {
    hide Next, StepKeepsPromises, StatesOk, SafeAction;
    if SafeRun(cfg, Init(verb), actions) {
      forall n | 0 <= n < |actions|
        ensures StepKeepsPromises(After(cfg, Init(verb), actions[..n]), After(cfg, Init(verb), actions[..n + 1]))
      {
        SafeStep(cfg, verb, actions, n);
      }
    } else if KeepsPromises(cfg, Init(verb), actions) {
      var n := FirstUnsafe(cfg, Init(verb), actions);
      SafeRunStates(cfg, verb, actions[..n]);
      var s := After(cfg, Init(verb), actions[..n]);
      assert actions[..n + 1][..n] == actions[..n];
      assert StateOk(s.keys.hash) by {
        StateOfStates(s);
      }
      UnsafeBreaks(cfg, s, actions[n]);
      assert false;
    }
  }

  lemma {:induction false} TerminalFrom(cfg: Cfg, verb: Verb, actions: seq<Action>, m: nat, n: nat)
    requires SafeRun(cfg, Init(verb), actions) && m <= n <= |actions|
    requires After(cfg, Init(verb), actions[..m]).keys.hash.state.IsTerminal()
    ensures After(cfg, Init(verb), actions[..n]).keys.hash.state == After(cfg, Init(verb), actions[..m]).keys.hash.state
    decreases n
  {
    hide After, SafeRun, StateOk;
    if m < n {
      TerminalFrom(cfg, verb, actions, m, n - 1);
      SafeStep(cfg, verb, actions, n - 1);
    }
  }

  /** A terminal state is never left, although execute, cancel and resume
      requests are split into a read and a later write. */
  lemma {:induction false} TerminalForever(cfg: Cfg, verb: Verb, before: seq<Action>, after: seq<Action>)
    requires SafeRun(cfg, Init(verb), before + after)
    requires After(cfg, Init(verb), before).keys.hash.state.IsTerminal()
    ensures After(cfg, Init(verb), before + after).keys.hash.state == After(cfg, Init(verb), before).keys.hash.state
  {
    hide After, SafeRun;
    var actions := before + after;
    assert actions[..|before|] == before && actions[..|actions|] == actions;
    TerminalFrom(cfg, verb, actions, |before|, |actions|);
  }

  /** Every resume write directly follows the read that allowed it. */
  ghost predicate OneStepResumes(cfg: Cfg, s: Sys, actions: seq<Action>) {
    forall n :: 0 <= n < |actions| && actions[n].ResumeWrite? ==>
      n > 0 && actions[n - 1] == ResumeRead(actions[n].op) && ResumeGate(After(cfg, s, actions[..n - 1]).keys.hash)
  }

  lemma ReadThenWrite(cfg: Cfg, s: Sys, o: nat)
    requires StateOk(s.keys.hash) && ResumeGate(s.keys.hash)
    ensures SafeAction(Next(cfg, s, ResumeRead(o)), ResumeWrite(o))
  {
  }

  /** With its read and its write as one step, a resume is always safe. */
  lemma {:induction false} OneStepResumesAreSafe(cfg: Cfg, verb: Verb, actions: seq<Action>)
    requires OneStepResumes(cfg, Init(verb), actions)
    ensures SafeRun(cfg, Init(verb), actions)
  {
    hide SafeAction, Next, ResumeGate, StatesOk, SafeRun;
    if !SafeRun(cfg, Init(verb), actions) {
      var n := FirstUnsafe(cfg, Init(verb), actions);
      var front, o := actions[..n - 1], actions[n].op;
      var s := After(cfg, Init(verb), front);
      assert After(cfg, Init(verb), actions[..n]) == Next(cfg, s, ResumeRead(o)) by {
        assert actions[..n][..n - 1] == front;
      }
      hide After;
      assert SafeRun(cfg, Init(verb), front) by {
        SafeRunPrefix(cfg, Init(verb), actions[..n], n - 1);
        assert actions[..n][..n - 1] == front;
      }
      SafeRunStates(cfg, verb, front);
      StateOfStates(s);
      ReadThenWrite(cfg, s, o);
      assert false;
    }
  }
}
