/** The runner and the operator requests as they are written: loops over a
    store that other runners and operators change between any two round trips.
    Every store call is logged as the protocol action it performs, so each run
    of this code is one of the schedules JobTheorems speaks about. */
module JobRunner {
  import opened Collections
  import opened JobStore
  import opened Listings
  import opened JobProtocol
  import opened JobInvariant
  import opened JobActs
  import opened JobControl
  import opened JobStates
  import opened JobTheorems

  datatype Actor = RunnerOf(token: nat) | RequestOf(op: nat)

  /** Whether an action belongs to the actor. */
  predicate Mine(me: Actor, a: Action) {
    match me
    case RunnerOf(t) => By(a, t)
    case RequestOf(o) =>
      match a
      case ExecuteRead(p, _) => p == o
      case ExecuteWrite(p) => p == o
      case CancelRead(p) => p == o
      case CancelWrite(p) => p == o
      case PauseRead(p) => p == o
      case PauseWrite(p) => p == o
      case ResumeRead(p) => p == o
      case ResumeWrite(p) => p == o
      case _ => false
  }

  /** What an actor keeps in memory is its own. */
  ghost predicate Untouched(me: Actor, s: Sys, s': Sys) {
    match me
    case RunnerOf(t) => t in s.sessions ==> t in s'.sessions && s'.sessions[t] == s.sessions[t]
    case RequestOf(o) => (o in s'.ops <==> o in s.ops) && (o in s.ops ==> s'.ops[o] == s.ops[o])
  }

  lemma OthersLeaveMineAlone(cfg: Cfg, s: Sys, a: Action, me: Actor)
    requires Inv(cfg, s) && !Mine(me, a)
    ensures Untouched(me, s, Next(cfg, s, a))
  {
    hide KeysOk, Live, AdvanceSession, ActBatch;
    if me.RunnerOf? && me.token in s.sessions {
      assert SessionOk(cfg, s.keys, s.hist, me.token, s.sessions[me.token].pc);
    }
    if a.Advance? && a.token in s.sessions {
      AdvanceIsOwn(cfg, s, a.token);
    }
    if a.Act? && a.token in s.sessions && s.sessions[a.token].pc.Acting? {
      ActIsOwn(cfg, s, a);
    }
  }

  lemma OnlyActsMoveCursor(k: Keys, t: nat)
    ensures forall wr: Write | wr.fields.actCursor.None? :: Progress(k, t, wr).hash.actCursor == k.hash.actCursor
  {
  }

  lemma AdvanceKeepsActCursor(cfg: Cfg, s: Sys, t: nat)
    requires t in s.sessions
    ensures AdvanceSession(cfg, s, t).keys.hash.actCursor == s.keys.hash.actCursor
  {
    OnlyActsMoveCursor(s.keys, t);
    hide Progress, RefsOf, Slice;
  }

  /** A decided position is never taken back. */
  lemma ActCursorStep(cfg: Cfg, s: Sys, a: Action)
    requires Inv(cfg, s)
    ensures s.keys.hash.actCursor <= Next(cfg, s, a).keys.hash.actCursor
  {
    hide KeysOk, AdvanceSession, BatchFailures, BatchFits;
    if a.Act? && a.token in s.sessions && s.sessions[a.token].pc.Acting? {
      assert SessionOk(cfg, s.keys, s.hist, a.token, s.sessions[a.token].pc);
    } else if a.Advance? && a.token in s.sessions {
      AdvanceKeepsActCursor(cfg, s, a.token);
    }
  }

  /** One Redis, this actor, and everyone else. `feed` is what the others do
      at each of this actor's round trips, and `faults` which of this actor's
      commands fail or are given up; nothing is known about either. */
  class World {
    const cfg: Cfg
    const verb: Verb
    const store: Store
    const feed: seq<seq<Action>>
    const faults: seq<bool>
    const compiles: bool   // whether the job's scope compiles
    const resolves: bool   // whether its queues resolve
    var turn: nat
    var tries: nat
    var sys: Sys
    ghost var trace: seq<Action>

    ghost predicate Valid()
      reads this, store
    {
      && sys == After(cfg, Init(verb), trace)
      && store.View() == sys.keys
    }

    /** A job is created; the rest of the fleet is about to do anything. */
    constructor (cfg: Cfg, verb: Verb, feed: seq<seq<Action>>, faults: seq<bool>, compiles: bool, resolves: bool)
      ensures Valid() && trace == [] && this.cfg == cfg && this.verb == verb && fresh(store)
      ensures this.feed == feed && this.faults == faults && turn == tries == 0
      ensures this.compiles == compiles && this.resolves == resolves
    {
      this.cfg, this.verb, this.feed, this.faults := cfg, verb, feed, faults;
      this.compiles, this.resolves := compiles, resolves;
      store := new Store(verb);
      turn, tries, sys, trace := 0, 0, Init(verb), [];
    }

    lemma Invariant()
      requires Valid()
      ensures Inv(cfg, sys)
    {
      Reachable(cfg, verb, trace);
    }

    /** Nobody else will do anything, and no command of this actor will fail. */
    predicate Quiet()
      reads this
    {
      turn >= |feed| && forall i :: tries <= i < |faults| ==> !faults[i]
    }

    /** A command of this actor has failed since. */
    twostate predicate Struck()
      reads this
    {
      exists i :: old(tries) <= i < tries && i < |faults| && faults[i]
    }

    /** A pause or a cancel has been pending since. */
    twostate predicate Asked()
      reads this
    {
      exists n :: |old(trace)| <= n <= |trace| && After(cfg, Init(verb), trace[..n]).keys.hash.ctl != NoCtl
    }

    /** Whether this actor's next command fails. */
    method Fails() returns (f: bool)
      modifies `tries
      ensures tries == old(tries) + 1
      ensures f <==> Struck()
      ensures old(Quiet()) ==> !f && Quiet()
    {
      f := tries < |faults| && faults[tries];
      tries := tries + 1;
    }

    /** Everyone else acts. */
    method Others(me: Actor)
      requires Valid()
      modifies this, store
      ensures Valid() && old(trace) <= trace && Untouched(me, old(sys), sys)
      ensures old(sys).keys.hash.actCursor <= sys.keys.hash.actCursor
      ensures old(sys).keys.hash.fence <= sys.keys.hash.fence
      ensures tries == old(tries) && old(turn) <= turn
      ensures old(turn) >= |feed| ==> sys == old(sys) && trace == old(trace)
    {
      var acts := [];
      if turn < |feed| {
        acts, turn := feed[turn], turn + 1;
      }
      for i := 0 to |acts|
        invariant sys == After(cfg, Init(verb), trace) && old(trace) <= trace
        invariant i == 0 ==> sys == old(sys) && trace == old(trace)
        invariant Untouched(me, old(sys), sys)
        invariant old(sys).keys.hash.actCursor <= sys.keys.hash.actCursor
        invariant old(sys).keys.hash.fence <= sys.keys.hash.fence
        invariant unchanged(store) && tries == old(tries) && old(turn) <= turn
      {
        if !Mine(me, acts[i]) {
          Reachable(cfg, verb, trace);
          OthersLeaveMineAlone(cfg, sys, acts[i], me);
          ActCursorStep(cfg, sys, acts[i]);
          FenceStep(cfg, sys, acts[i]);
          assert (trace + [acts[i]])[..|trace|] == trace;
          sys, trace := Next(cfg, sys, acts[i]), trace + [acts[i]];
        }
      }
      store.Restore(sys.keys);
    }

    /** A setup fails only on a scope that does not compile, or on queues that
        had to be resolved and were not. */
    ghost predicate SetupFails(t: nat)
      reads this
    {
      t in sys.sessions &&
      match sys.sessions[t].pc
      case EnumEntry(j) => !compiles || (j.queues.None? && !resolves)
      case ExecEntry(_) => !compiles
      case _ => false
    }

    /** This actor performed `a`: the store already shows its effect. */
    method Log(a: Action)
      requires a.FailSetup? ==> SetupFails(a.token)
      requires sys == After(cfg, Init(verb), trace)
      requires store.View() == Next(cfg, sys, a).keys
      modifies `sys, `trace
      ensures Valid() && trace == old(trace) + [a] && sys == Next(cfg, old(sys), a)
    {
      assert (trace + [a])[..|trace|] == trace;
      sys, trace := Next(cfg, sys, a), trace + [a];
    }
  }

  lemma PageAdvance(cfg: Cfg, s: Sys, t: nat, walk: Walk, gs: seq<string>, batch: seq<Task>)
    requires t in s.sessions && s.sessions[t].pc == Walking(walk)
    requires walk.qi < |Or(walk.j.queues, [])| && walk.groups == Some(gs) && walk.gi < |gs|
    requires Page(cfg.scope, Or(walk.j.queues, [])[walk.qi], gs[walk.gi], walk.page) == Some(batch)
    ensures var s' := Next(cfg, s, Advance(t));
            var w' := AfterPage(cfg, walk, |batch|, |RefsOf(cfg.scope, batch)|);
            && s'.keys == Progress(s.keys, t, PageWrite(cfg, walk, gs, batch))
            && t in s'.sessions
            && s'.sessions[t] == s.sessions[t].(pc :=
                 if s.keys.hash.fence != t then Releasing
                 else if w'.j.candidates > MAX_CANDIDATES then Finalizing(Failed, true) else CheckWalk(w'))
  {
  }

  lemma GoneAdvance(cfg: Cfg, s: Sys, t: nat, walk: Walk, gs: seq<string>)
    requires t in s.sessions && s.sessions[t].pc == Walking(walk)
    requires walk.qi < |Or(walk.j.queues, [])| && walk.groups == Some(gs) && walk.gi < |gs|
    requires Page(cfg.scope, Or(walk.j.queues, [])[walk.qi], gs[walk.gi], walk.page) == None
    ensures Next(cfg, s, Advance(t)) == SetPc(s, t, Walking(walk.(gi := walk.gi + 1, page := 1)))
  {
  }

  lemma BatchAdvance(cfg: Cfg, s: Sys, t: nat, j: Hash, refs: seq<Ref>, fetch: seq<Fetch>, decided: seq<Decision>)
    requires t in s.sessions && s.sessions[t].pc == Acting(j, refs) && BatchFits(cfg, refs, fetch, decided)
    ensures var s', ok := Next(cfg, s, Act(t, fetch, decided)), s.keys.hash.fence == t;
            && s'.keys == Progress(s.keys, t, Write(ActFields(j, refs, fetch, decided), [], [], BatchFailures(refs, fetch, decided)))
            && t in s'.sessions
            && s'.sessions[t] == s.sessions[t].(pc := if ok && !Partial(refs, fetch, decided) then CheckExec else Releasing)
  {
    hide BatchFailures, PushCapped, FoundTasks, ActedIn, SkippedIn, FailedIn;
  }

  lemma FetchSplit(refs: seq<Ref>, fetch: seq<Fetch>, answer: Fetch)
    requires |fetch| < |refs|
    ensures (fetch + [answer])[..|fetch|] == fetch
    ensures refs[..|fetch| + 1][..|fetch|] == refs[..|fetch|]
  {
  }

  lemma FetchStep(refs: seq<Ref>, fetch: seq<Fetch>, answer: Fetch)
    requires |fetch| < |refs|
    ensures var r, fetch' := |fetch|, fetch + [answer];
            && FoundTasks(refs[..r + 1], fetch') == FoundTasks(refs[..r], fetch)
               + (if answer.Found? then [Task(refs[r].queue, refs[r].id, answer.payload)] else [])
            && FetchFailures(refs[..r + 1], fetch') == FetchFailures(refs[..r], fetch)
               + (if answer.FetchFailed? then [Failure(refs[r], "re-fetch: " + answer.error)] else [])
  {
    FetchSplit(refs, fetch, answer);
  }

  lemma FetchCounts(fetch: seq<Fetch>, answer: Fetch)
    ensures Tally(fetch + [answer], (f: Fetch) => f == Gone) ==
            Tally(fetch, (f: Fetch) => f == Gone) + if answer == Gone then 1 else 0
    ensures Tally(fetch + [answer], (f: Fetch) => f.FetchFailed?) ==
            Tally(fetch, (f: Fetch) => f.FetchFailed?) + if answer.FetchFailed? then 1 else 0
  {
    TallyOne(fetch, answer, (f: Fetch) => f == Gone);
    TallyOne(fetch, answer, (f: Fetch) => f.FetchFailed?);
  }

  lemma DecisionStep(tasks: seq<Task>, decided: seq<Decision>, answer: Decision)
    requires |decided| < |tasks|
    ensures var n, decided' := |decided|, decided + [answer];
            DecisionFailures(tasks, decided') == DecisionFailures(tasks, decided)
            + (if answer.ActFailed? then [Failure(RefOf(tasks[n]), answer.error)] else [])
  {
    assert (decided + [answer])[..|decided|] == decided;
  }

  lemma DecisionCounts(decided: seq<Decision>, answer: Decision)
    ensures Tally(decided + [answer], (d: Decision) => d == ActedOn) ==
            Tally(decided, (d: Decision) => d == ActedOn) + if answer == ActedOn then 1 else 0
    ensures Tally(decided + [answer], (d: Decision) => d == NoMatch) ==
            Tally(decided, (d: Decision) => d == NoMatch) + if answer == NoMatch then 1 else 0
    ensures Tally(decided + [answer], (d: Decision) => d == AlreadyThere) ==
            Tally(decided, (d: Decision) => d == AlreadyThere) + if answer == AlreadyThere then 1 else 0
    ensures Tally(decided + [answer], (d: Decision) => d.ActFailed?) ==
            Tally(decided, (d: Decision) => d.ActFailed?) + if answer.ActFailed? then 1 else 0
  {
    TallyOne(decided, answer, (d: Decision) => d == ActedOn);
    TallyOne(decided, answer, (d: Decision) => d == NoMatch);
    TallyOne(decided, answer, (d: Decision) => d == AlreadyThere);
    TallyOne(decided, answer, (d: Decision) => d.ActFailed?);
  }

  /** What a session's round trip leaves alone while it neither completes the
      preview nor unwinds. */
  ghost predicate Undisturbed(k: Keys, k': Keys) {
    && k'.hash.fence == k.hash.fence && k'.hash.phase == k.hash.phase && k'.hash.state == k.hash.state
    && k'.hash.previewComplete == k.hash.previewComplete
    && (k.hash.ctl == NoCtl ==> k'.hash.ctl == NoCtl) && k'.lease == k.lease
  }

  lemma AdvanceUndisturbed(cfg: Cfg, s: Sys, t: nat)
    requires t in s.sessions
    requires var pc := s.sessions[t].pc; pc != Completing && pc != Pausing && !pc.Finalizing? && pc != Releasing
    ensures Undisturbed(s.keys, Next(cfg, s, Advance(t)).keys)
  {
    hide AdvanceSession;
    OwnAdvance(cfg, s, t);
    AdvanceState(cfg, s, t);
  }

  lemma ActUndisturbed(cfg: Cfg, s: Sys, a: Action)
    requires a.Act?
    ensures Undisturbed(s.keys, Next(cfg, s, a).keys)
  {
    hide ActHist, BatchFailures, FoundTasks, PushCapped;
  }

  lemma StoredBounds(cfg: Cfg, s: Sys, t: nat)
    requires Inv(cfg, s) && t in s.sessions
    ensures s.keys.hash.queues.Some? ==> s.keys.hash.queues == Some(cfg.scope.queues)
    ensures s.sessions[t].pc.CheckWalk? ==> s.keys.hash.queues == Some(cfg.scope.queues)
    ensures s.keys.hash.actCursor <= |AllRefs(cfg.scope)|
  {
    assert SessionOk(cfg, s.keys, s.hist, t, s.sessions[t].pc);
    FoundIsPrefix(cfg, s.keys.hash.scanned);
  }

  /** How much of a group comes after the pages before this one. */
  function Unlisted(sc: Scope, q: string, g: string, page: pos): nat {
    var n := |Listed(sc, q, g)|;
    if Offset(sc, page) < n then n - Offset(sc, page) else 0
  }

  lemma FewerUnlisted(sc: Scope, q: string, g: string, page: pos)
    requires Page(sc, q, g, page).Some? && |Page(sc, q, g, page).value| >= sc.pageSize
    ensures Unlisted(sc, q, g, page + 1) < Unlisted(sc, q, g, page)
  {
    assert Offset(sc, page + 1) == Offset(sc, page) + sc.pageSize;
  }

  /** One claim of the job, worked to a parking or terminal state. */
  class Runner {
    const w: World
    const token: nat
    const inst: string

    constructor (w: World, token: nat, inst: string)
      ensures this.w == w && this.token == token && this.inst == inst
    {
      this.w, this.token, this.inst := w, token, inst;
    }

    /** The world is consistent and the protocol sees this runner at `pc`. */
    ghost predicate At(pc: Pc)
      reads w, w.store
    {
      w.Valid() && token in w.sys.sessions && w.sys.sessions[token] == Session(inst, pc)
    }

    /** The world is consistent and this runner holds nothing any more. */
    ghost predicate Unwound()
      reads w, w.store
    {
      At(Releasing)
    }

    /** A newer claim has been granted. */
    ghost predicate Superseded()
      reads w
    {
      token < w.sys.keys.hash.fence
    }

    ghost predicate FitsCap() {
      |AllRefs(w.cfg.scope)| <= MAX_CANDIDATES
    }

    /** Nothing stands in this runner's way: no one else acts, no command
        fails, its claim is current, nothing was asked for, and the scope fits
        the cap. */
    ghost predicate Calm()
      reads w
    {
      && w.Quiet() && w.sys.keys.hash.fence == token && w.sys.keys.lease == Some(inst)
      && w.sys.keys.hash.ctl == NoCtl && FitsCap()
    }

    /** The only reasons to give up a claim. */
    twostate predicate Hindered()
      reads w
    {
      w.Struck() || Superseded() || w.Asked() || !FitsCap()
    }

    /** Still calm, and the job's standing is what it was. */
    twostate predicate StillCalm()
      reads w
    {
      Calm() && Undisturbed(old(w.sys.keys), w.sys.keys)
    }

    /** A write under this token was refused. */
    lemma Refused()
      requires w.Valid() && token in w.sys.sessions && w.sys.keys.hash.fence != token
      ensures Superseded()
    {
      hide KeysOk, Live, After;
      w.Invariant();
      assert SessionOk(w.cfg, w.sys.keys, w.sys.hist, token, w.sys.sessions[token].pc);
    }

    /** The context ended, the claim was lost, or a command failed. */
    method StandDown()
      requires w.Valid() && token in w.sys.sessions && w.sys.sessions[token].inst == inst
      requires w.sys.sessions[token].pc != Ended
      modifies w, w.store
      ensures Unwound() && old(w.trace) < w.trace && w.tries == old(w.tries)
    {
      hide After;
      w.Others(RunnerOf(token));
      w.Log(Stop(token));
    }

    /** The terminal write; it takes effect only while the token is current.
        Whoever called for it goes on in either case. */
    method Finalize(target: State, drop: bool)
      requires At(Finalizing(target, drop))
      modifies w, w.store
      ensures At(if drop then Dropping else Releasing) && old(w.trace) < w.trace && old(w.tries) <= w.tries
      ensures w.Struck() || Superseded() || (w.store.hash.state == target && w.store.hash.ctl == NoCtl)
      ensures old(w.Quiet()) ==> w.Quiet() && w.sys.keys.hash.fence == old(w.sys).keys.hash.fence
    {
      hide After, PushCapped;
      var failed := w.Fails();
      if failed {
        w.Log(FailWrite(token));  // the write does not arrive
        return;
      }
      w.Others(RunnerOf(token));
      var ok := w.store.WriteProgress(token, FinalWrite(target));
      w.Log(Advance(token));
      if !ok {
        Refused();
      }
    }

    /** The pause write. Whoever called for it unwinds in either case. */
    method Pause()
      requires At(Pausing)
      modifies w, w.store
      ensures Unwound() && old(w.trace) < w.trace && old(w.tries) <= w.tries
      ensures w.Struck() || Superseded() || (w.store.hash.state == Paused && w.store.hash.ctl == NoCtl)
    {
      hide After, PushCapped;
      var failed := w.Fails();
      if failed {
        StandDown();
        return;
      }
      w.Others(RunnerOf(token));
      var ok := w.store.WriteProgress(token, PAUSE_WRITE);
      w.Log(Advance(token));
      if !ok {
        Refused();
      }
    }

    /** Re-read the job between batches. */
    method Reread(ghost pc: Pc) returns (now: Hash, read: bool, ghost n: nat)
      requires At(pc) && (pc.CheckWalk? || pc == CheckExec)
      modifies w, w.store
      ensures old(w.trace) < w.trace && old(w.tries) <= w.tries
      ensures !read ==> Unwound() && w.Struck()
      ensures read ==>
                && At(Checked(now, if pc.CheckWalk? then Walking(pc.w.(j := now)) else ExecTop(now)))
                && now == w.store.hash && |old(w.trace)| <= n <= |w.trace|
                && After(w.cfg, Init(w.verb), w.trace[..n]).keys.hash == now
      ensures old(Calm()) ==> read && StillCalm()
      ensures pc.CheckWalk? && read ==> now.queues == Some(w.cfg.scope.queues)
      ensures read ==> old(w.sys).keys.hash.actCursor <= now.actCursor <= |AllRefs(w.cfg.scope)|
    {
      hide After, KeysOk, Live, FoundSoFar;
      now, n := w.store.hash, 0;
      var failed := w.Fails();
      if failed {
        StandDown();
        return now, false, 0;
      }
      w.Others(RunnerOf(token));
      now, read := w.store.hash, true;
      w.Invariant();
      StoredBounds(w.cfg, w.sys, token);
      n := |w.trace|;
      w.Log(Advance(token));
      assert w.trace[..n] == w.trace[..|w.trace| - 1];
      assert After(w.cfg, Init(w.verb), w.trace[..n]).keys.hash == now;
    }

    /** Honor a pending pause or cancel between batches: go on exactly when the
        job, as it was read, asks for neither; else write that it is canceled,
        or paused, and take the request off. */
    method CheckCtl(ghost pc: Pc) returns (now: Hash, onward: bool)
      requires At(pc) && (pc.CheckWalk? || pc == CheckExec)
      modifies w, w.store
      ensures old(w.trace) < w.trace && old(w.tries) <= w.tries
      ensures onward ==> now.ctl == NoCtl && At(if pc.CheckWalk? then Walking(pc.w.(j := now)) else ExecTop(now))
      ensures !onward ==> Unwound() && Hindered() && (now.ctl != NoCtl || w.Struck())
      ensures !onward && !w.Struck() && !Superseded() ==>
                && w.store.hash.ctl == NoCtl
                && w.store.hash.state == if now.ctl == CancelCtl then Canceled else Paused
      ensures old(Calm()) ==> onward && StillCalm()
      ensures pc.CheckWalk? && onward ==> now.queues == Some(w.cfg.scope.queues)
      ensures onward ==> old(w.sys).keys.hash.actCursor <= now.actCursor <= |AllRefs(w.cfg.scope)|
    {
      hide After;
      var read;
      ghost var n;
      now, read, n := Reread(pc);
      ghost var sofar := w.trace;
      onward := read && now.ctl == NoCtl;
      if read {
        match now.ctl {
          case CancelCtl => Finalize(Canceled, false);
          case PauseCtl => Pause();
          case NoCtl =>
        }
        assert w.trace[..n] == sofar[..n];
      }
    }

    /** The references and sample rows of one listed page. */
    static method MatchPage(cfg: Cfg, batch: seq<Task>) returns (refs: seq<Ref>, sample: seq<Ref>)
      ensures refs == RefsOf(cfg.scope, batch)
      ensures sample == refs[..Min(|refs|, SAMPLE_SIZE)]
    {
      refs, sample := [], [];
      for i := 0 to |batch|
        invariant refs == RefsOf(cfg.scope, batch[..i])
        invariant sample == refs[..Min(|refs|, SAMPLE_SIZE)]
      {
        assert batch[..i + 1][..i] == batch[..i];
        if cfg.scope.matches(batch[i]) {
          var ref := Ref(batch[i].queue, batch[i].id);
          refs := refs + [ref];
          if |sample| < SAMPLE_SIZE {
            sample := sample + [ref];
          }
        }
      }
      assert batch[..|batch|] == batch;
    }

    /** The action is a session at `pc` making this write; accepted, it leads
        to `onward`. */
    ghost predicate Writes(pc: Pc, a: Action, write: Write, onward: Pc) {
      forall s: Sys | token in s.sessions && s.sessions[token] == Session(inst, pc) ::
        var s' := Next(w.cfg, s, a);
        && s'.keys == Progress(s.keys, token, write) && token in s'.sessions
        && s'.sessions[token] == Session(inst, if s.keys.hash.fence == token then onward else Releasing)
    }

    lemma WriteUndisturbed(pc: Pc, a: Action)
      requires At(pc) && (a == Advance(token) || (a.Act? && a.token == token))
      requires pc.EnumEntry? || pc.Walking? || pc.Acting?
      ensures Undisturbed(w.sys.keys, Next(w.cfg, w.sys, a).keys)
    {
      hide Next, Undisturbed;
      if a.Act? {
        ActUndisturbed(w.cfg, w.sys, a);
      } else {
        AdvanceUndisturbed(w.cfg, w.sys, token);
      }
    }

    lemma CursorWritten(k: Keys, write: Write)
      requires k.hash.fence == token && write.fields.actCursor.Some?
      ensures Progress(k, token, write).hash.actCursor == write.fields.actCursor.value
    {
      hide PushCapped;
    }

    /** Send a write, and stand down when it is not sent, refused or unanswered. */
    method Send(ghost pc: Pc, a: Action, write: Write, ghost onward: Pc) returns (ok: bool)
      requires At(pc) && Writes(pc, a, write, onward) && (a == Advance(token) || (a.Act? && a.token == token))
      requires (pc.EnumEntry? || pc.Walking? || pc.Acting?) && onward != Ended
      modifies w, w.store
      ensures old(w.trace) < w.trace && old(w.tries) <= w.tries
      ensures if ok then At(onward) else Unwound() && (w.Struck() || Superseded())
      ensures ok && write.fields.actCursor.Some? ==> w.store.hash.actCursor == write.fields.actCursor.value
      ensures old(Calm()) ==> ok && StillCalm()
    {
      hide Inv, After, Next, Progress;
      var failed := w.Fails();
      if failed {
        StandDown();
        return false;
      }
      w.Others(RunnerOf(token));
      WriteUndisturbed(pc, a);
      if write.fields.actCursor.Some? && w.sys.keys.hash.fence == token {
        CursorWritten(w.sys.keys, write);
      }
      ok := w.store.WriteProgress(token, write);
      w.Log(a);
      if !ok {
        Refused();
        return;
      }
      failed := w.Fails();
      if failed {
        StandDown();  // the write arrived, its answer did not
        ok := false;
      }
    }

    /** A page goes over the cap only in a scope that is too large. */
    lemma OverCap()
      requires w.Valid()
      ensures token in w.sys.sessions && w.sys.sessions[token].pc == Finalizing(Failed, true) ==> !FitsCap()
    {
      hide KeysOk, Live, After;
      w.Invariant();
      if token in w.sys.sessions && w.sys.sessions[token].pc == Finalizing(Failed, true) {
        assert SessionOk(w.cfg, w.sys.keys, w.sys.hist, token, w.sys.sessions[token].pc);
        WithinCap(w.cfg, w.sys);
      }
    }

    lemma PageWrites(walk: Walk, gs: seq<string>, batch: seq<Task>)
      requires walk.qi < |Or(walk.j.queues, [])| && walk.groups == Some(gs) && walk.gi < |gs|
      requires Page(w.cfg.scope, Or(walk.j.queues, [])[walk.qi], gs[walk.gi], walk.page) == Some(batch)
      ensures var v := AfterPage(w.cfg, walk, |batch|, |RefsOf(w.cfg.scope, batch)|);
              Writes(Walking(walk), Advance(token), PageWrite(w.cfg, walk, gs, batch),
                     if v.j.candidates > MAX_CANDIDATES then Finalizing(Failed, true) else CheckWalk(v))
    {
      hide Next, Progress, PageWrite, AfterPage, RefsOf, Page;
      forall s: Sys | token in s.sessions && s.sessions[token] == Session(inst, Walking(walk)) {
        PageAdvance(w.cfg, s, token, walk, gs, batch);
      }
    }

    /** The batch write of one page. Refused, unanswered or not sent, the
        runner stands down. */
    method PutPage(ghost walk: Walk, j0: Hash, qi: nat, gs: seq<string>, gi: nat, page: pos, batch: seq<Task>)
      returns (j: Hash, ok: bool)
      requires At(Walking(walk)) && walk.j == j0 && j0.queues == Some(w.cfg.scope.queues)
      requires walk.qi == qi < |w.cfg.scope.queues| && walk.groups == Some(gs) && walk.gi == gi < |gs| && walk.page == page
      requires Page(w.cfg.scope, w.cfg.scope.queues[qi], gs[gi], page) == Some(batch)
      modifies w, w.store
      ensures old(w.trace) < w.trace && old(w.tries) <= w.tries
      ensures j == AfterPage(w.cfg, walk, |batch|, |RefsOf(w.cfg.scope, batch)|).j
      ensures At(if !ok then Releasing
                 else if j.candidates > MAX_CANDIDATES then Finalizing(Failed, true)
                 else CheckWalk(AfterPage(w.cfg, walk, |batch|, |RefsOf(w.cfg.scope, batch)|)))
      ensures !ok ==> w.Struck() || Superseded()
      ensures ok && j.candidates > MAX_CANDIDATES ==> !FitsCap()
      ensures old(Calm()) ==> ok && StillCalm()
    {
      hide Inv, RefsOf, Page, After, Next, Writes;
      var refs, sample := MatchPage(w.cfg, batch);
      j := j0.(candidates := j0.candidates + |refs|, scanned := j0.scanned + |batch|);
      var last := |batch| < w.cfg.scope.pageSize;
      var nextQ, nextG, nextPage: nat := qi, gi, page + 1;
      if last {
        nextG, nextPage := gi + 1, 1;
        if nextG >= |gs| {
          nextQ, nextG := qi + 1, 0;
        }
      }
      var fields := NO_FIELDS.(candidates := Some(j.candidates), scanned := Some(j.scanned),
                               qidx := Some(nextQ), gidx := Some(nextG), page := Some(nextPage));
      if nextQ != qi {
        fields := fields.(groups := Some(None));
      }
      assert Write(fields, refs, sample, []) == PageWrite(w.cfg, walk, gs, batch);
      PageWrites(walk, gs, batch);
      ghost var v := AfterPage(w.cfg, walk, |batch|, |RefsOf(w.cfg.scope, batch)|);
      ok := Send(Walking(walk), Advance(token), Write(fields, refs, sample, []),
                 if v.j.candidates > MAX_CANDIDATES then Finalizing(Failed, true) else CheckWalk(v));
      OverCap();
    }

    /** Free the references of an over-cap preview; this write is not guarded,
        and its failure is ignored. */
    method DropCandidates()
      requires At(Dropping)
      modifies w, w.store
      ensures Unwound() && old(w.trace) < w.trace && old(w.tries) <= w.tries
    {
      hide After;
      var failed := w.Fails();
      if failed {
        StandDown();
        return;
      }
      w.Others(RunnerOf(token));
      w.store.DropCandidates();
      w.Log(Advance(token));
    }

    /** Write one page, stand down when it is refused, give up over the cap,
        and honor a pending pause or cancel. */
    method WritePage(ghost walk: Walk, j0: Hash, qi: nat, gs: seq<string>, gi: nat, page: pos, batch: seq<Task>)
      returns (j: Hash, onward: bool)
      requires At(Walking(walk)) && walk.j == j0 && j0.queues == Some(w.cfg.scope.queues)
      requires walk.qi == qi < |w.cfg.scope.queues| && walk.groups == Some(gs) && walk.gi == gi < |gs| && walk.page == page
      requires Page(w.cfg.scope, w.cfg.scope.queues[qi], gs[gi], page) == Some(batch)
      modifies w, w.store
      ensures old(w.trace) < w.trace && old(w.tries) <= w.tries
      ensures onward ==>
                && j.queues == Some(w.cfg.scope.queues)
                && At(Walking(AfterPage(w.cfg, walk, |batch|, |RefsOf(w.cfg.scope, batch)|).(j := j)))
      ensures !onward ==> Unwound() && Hindered()
      ensures old(Calm()) ==> onward && StillCalm()
    {
      hide After, RefsOf, Page, AfterPage;
      var ok;
      j, ok := PutPage(walk, j0, qi, gs, gi, page, batch);
      if !ok {
        return j, false;
      }
      if j.candidates > MAX_CANDIDATES {
        Finalize(Failed, true);
        DropCandidates();
        return j, false;
      }
      j, onward := CheckCtl(CheckWalk(AfterPage(w.cfg, walk, |batch|, |RefsOf(w.cfg.scope, batch)|)));
    }

    /** The pages of one group. */
    method EnumerateGroup(ghost walk: Walk, j0: Hash, qi: nat, gs: seq<string>, gi: nat, page0: pos)
      returns (j: Hash, onward: bool)
      requires At(Walking(walk)) && walk.j == j0 && j0.queues == Some(w.cfg.scope.queues)
      requires walk.qi == qi < |w.cfg.scope.queues| && walk.groups == Some(gs) && walk.gi == gi < |gs| && walk.page == page0
      modifies w, w.store
      ensures old(w.trace) < w.trace && old(w.tries) <= w.tries
      ensures onward ==> j.queues == Some(w.cfg.scope.queues) && At(Walking(walk.(j := j, gi := gi + 1, page := 1)))
      ensures !onward ==> Unwound() && Hindered()
      ensures old(Calm()) ==> onward && StillCalm()
    {
      hide Inv, After, RefsOf, Page, Unlisted, OperatorStep, ActBatch;
      var page := page0;
      j := j0;
      var q := w.cfg.scope.queues[qi];
      while true
        invariant old(w.trace) <= w.trace && old(w.tries) <= w.tries && j.queues == Some(w.cfg.scope.queues)
        invariant At(Walking(walk.(j := j, page := page)))
        invariant old(Calm()) ==> StillCalm()
        decreases Unlisted(w.cfg.scope, q, gs[gi], page)
      {
        var failed := w.Fails();
        if failed {
          StandDown();  // the context ended, the claim was lost, or the page could not be listed or prepared
          return j, false;
        }
        ghost var here := walk.(j := j, page := page);
        match Page(w.cfg.scope, q, gs[gi], page) {
          case None =>
            GoneAdvance(w.cfg, w.sys, token, here, gs);
            AdvanceUndisturbed(w.cfg, w.sys, token);
            w.Log(Advance(token));
            return j, true;
          case Some(batch) =>
            j, onward := WritePage(here, j, qi, gs, gi, page, batch);
            if !onward {
              return;
            }
            if |batch| < w.cfg.scope.pageSize {
              return;
            }
            FewerUnlisted(w.cfg.scope, q, gs[gi], page);
            page := page + 1;
        }
      }
    }

    lemma FreezeWrites(walk: Walk, gs: seq<string>)
      requires walk.qi < |Or(walk.j.queues, [])| && walk.groups == None && w.cfg.scope.aggregating
      requires !(walk.qi == walk.startQ && walk.j.groups.Some?)
      requires Or(walk.j.queues, [])[walk.qi] in w.cfg.scope.groups
      requires w.cfg.scope.groups[Or(walk.j.queues, [])[walk.qi]] == gs
      ensures Writes(Walking(walk), Advance(token), FreezeGroups(walk.qi, gs), Walking(InQueue(walk, gs)))
    {
      hide Progress;
    }

    /** The group list of a queue, frozen into the cursor when it is entered.
        None when the runner must stand down; an absent list is a queue that
        is gone. */
    method EnterQueue(ghost walk: Walk, j: Hash, startQ: nat, qi: nat)
      returns (groups: Option<seq<string>>, onward: bool)
      requires At(Walking(walk)) && walk.j == j && j.queues == Some(w.cfg.scope.queues)
      requires walk.qi == qi < |w.cfg.scope.queues| && walk.groups == None && walk.startQ == startQ
      modifies w, w.store
      ensures old(w.trace) < w.trace && old(w.tries) <= w.tries
      ensures onward ==> At(Walking(if groups.Some? then InQueue(walk, groups.value) else NextQueue(walk)))
      ensures !onward ==> Unwound() && Hindered()
      ensures old(Calm()) ==> onward && StillCalm()
    {
      hide Inv, After, Writes, Progress, OperatorStep, ActBatch;
      var q := w.cfg.scope.queues[qi];
      onward := true;
      if !w.cfg.scope.aggregating || (qi == startQ && j.groups.Some?) {
        groups := if w.cfg.scope.aggregating then j.groups else Some([""]);
        AdvanceUndisturbed(w.cfg, w.sys, token);
        w.Log(Advance(token));
        return;
      }
      groups := if q in w.cfg.scope.groups then Some(w.cfg.scope.groups[q]) else None;
      var failed := w.Fails();
      if failed {
        StandDown();  // the groups could not be listed
        return groups, false;
      }
      if groups.None? {
        AdvanceUndisturbed(w.cfg, w.sys, token);
        w.Log(Advance(token));
        return;
      }
      FreezeWrites(walk, groups.value);
      onward := Send(Walking(walk), Advance(token), FreezeGroups(qi, groups.value), Walking(InQueue(walk, groups.value)));
    }

    /** The groups of one queue, from the group the claim resumed in. */
    method EnumerateQueue(ghost walk: Walk, j0: Hash, startQ: nat, startG: nat, startPage: pos, qi: nat,
                          gs: seq<string>)
      returns (j: Hash, onward: bool)
      requires At(Walking(InQueue(walk, gs))) && walk.j == j0 && j0.queues == Some(w.cfg.scope.queues)
      requires walk.qi == qi < |w.cfg.scope.queues|
      requires walk.startQ == startQ && walk.startG == startG && walk.startPage == startPage
      modifies w, w.store
      ensures old(w.trace) < w.trace && old(w.tries) <= w.tries
      ensures onward ==> w.Valid() && token in w.sys.sessions && w.sys.sessions[token].inst == inst
      ensures onward ==> w.sys.sessions[token].pc.Walking? && var v := w.sys.sessions[token].pc.w;
                         j.queues == Some(w.cfg.scope.queues) && v == NextQueue(walk).(j := j, gi := v.gi, page := v.page)
      ensures !onward ==> Unwound() && Hindered()
      ensures old(Calm()) ==> onward && StillCalm()
    {
      hide Inv, After, AfterPage, Page;
      j := j0;
      var giStart := if qi == startQ && startG < |gs| then startG else 0;
      var gi := giStart;
      while gi < |gs|
        invariant old(w.trace) <= w.trace && old(w.tries) <= w.tries
        invariant j.queues == Some(w.cfg.scope.queues) && giStart <= gi
        invariant var page: pos := if qi == startQ && gi == giStart then startPage else 1;
                  At(Walking(InQueue(walk, gs).(j := j, gi := gi, page := page)))
        invariant old(Calm()) ==> StillCalm()
      {
        var page: pos := if qi == startQ && gi == giStart then startPage else 1;
        j, onward := EnumerateGroup(InQueue(walk, gs).(j := j, gi := gi, page := page), j, qi, gs, gi, page);
        if !onward {
          return;
        }
        gi := gi + 1;
      }
      AdvanceUndisturbed(w.cfg, w.sys, token);
      w.Log(Advance(token));
      onward := true;
    }

    lemma ScopeWrites(j: Hash)
      requires j.queues.None?
      ensures Writes(EnumEntry(j), Advance(token), Write(NO_FIELDS.(queues := Some(w.cfg.scope.queues)), [], [], []),
                     Walking(StartWalk(j.(queues := Some(w.cfg.scope.queues)))))
    {
      hide Progress;
    }

    /** Freeze the queue list on the first run. */
    method FreezeQueues(j0: Hash) returns (j: Hash, onward: bool)
      requires At(EnumEntry(j0)) && (j0.queues.Some? ==> j0.queues == Some(w.cfg.scope.queues))
      modifies w, w.store
      ensures old(w.trace) < w.trace && old(w.tries) <= w.tries
      ensures onward ==> At(Walking(StartWalk(j))) && j.queues == Some(w.cfg.scope.queues)
      ensures !onward ==> Unwound() && Hindered()
      ensures old(Calm()) ==> onward && StillCalm()
    {
      hide Inv, After, Writes, Progress, OperatorStep, ActBatch;
      j, onward := j0, true;
      if j.queues.Some? {
        AdvanceUndisturbed(w.cfg, w.sys, token);
        w.Log(Advance(token));
        return;
      }
      j := j.(queues := Some(w.cfg.scope.queues));
      ScopeWrites(j0);
      onward := Send(EnumEntry(j0), Advance(token), Write(NO_FIELDS.(queues := Some(w.cfg.scope.queues)), [], [], []),
                     Walking(StartWalk(j)));
    }

    /** The enumeration finished: flip preview_complete. */
    method FinishPreview() returns (ok: bool)
      requires At(Completing)
      modifies w, w.store
      ensures old(w.trace) < w.trace && old(w.tries) <= w.tries
      ensures if ok then At(Reloading) && w.store.hash.previewComplete else Unwound() && Hindered()
      ensures old(Calm()) ==> ok && Calm() && w.store.hash.phase == old(w.store.hash).phase
      ensures old(Calm()) ==>
                w.store.hash.state == if w.store.hash.phase == Preview then PreviewReady else old(w.store.hash).state
    {
      hide Inv, After;
      var failed := w.Fails();
      if failed {
        StandDown();
        return false;
      }
      w.Others(RunnerOf(token));
      OwnAdvance(w.cfg, w.sys, token);
      ok := w.store.FinishPreview(token);
      w.Log(Advance(token));
      if !ok {
        Refused();
        return;
      }
      failed := w.Fails();
      if failed {
        StandDown();
        ok := false;
      }
    }

    /** One queue of the walk; `next` is where the walk then stands. */
    method WalkQueue(ghost walk: Walk, j0: Hash, startQ: nat, startG: nat, startPage: pos, qi: nat)
      returns (j: Hash, onward: bool, ghost next: Walk)
      requires At(Walking(walk)) && walk.j == j0 && j0.queues == Some(w.cfg.scope.queues)
      requires walk.qi == qi < |w.cfg.scope.queues| && walk.groups == None
      requires walk.startQ == startQ && walk.startG == startG && walk.startPage == startPage
      modifies w, w.store
      ensures old(w.trace) < w.trace && old(w.tries) <= w.tries
      ensures onward ==>
                && At(Walking(next)) && next.j == j && j.queues == Some(w.cfg.scope.queues)
                && next.qi == qi + 1 && next.groups == None
                && next.startQ == startQ && next.startG == startG && next.startPage == startPage
      ensures !onward ==> Unwound() && Hindered()
      ensures old(Calm()) ==> onward && StillCalm()
    {
      hide Inv, After, Page, Progress, OperatorStep, ActBatch, BatchFits, AfterPage, InQueue, AdvanceSession, Next;
      j, next := j0, NextQueue(walk);
      var groups;
      groups, onward := EnterQueue(walk, j, startQ, qi);
      if onward && groups.Some? {
        j, onward := EnumerateQueue(walk, j, startQ, startG, startPage, qi, groups.value);
        if onward {
          next := w.sys.sessions[token].pc.w;
        }
      }
    }

    lemma EndOfScope(walk: Walk)
      requires w.Valid() && At(Walking(walk)) && walk.qi >= |Or(walk.j.queues, [])|
      ensures Next(w.cfg, w.sys, Advance(token)) == SetPc(w.sys, token, Completing)
    {
    }

    /** The queue loop. */
    method WalkScope(j0: Hash) returns (done: bool)
      requires At(EnumEntry(j0)) && (j0.queues.Some? ==> j0.queues == Some(w.cfg.scope.queues))
      modifies w, w.store
      ensures old(w.trace) < w.trace && old(w.tries) <= w.tries
      ensures if done then At(Completing) else Unwound() && Hindered()
      ensures old(Calm()) ==> done && StillCalm()
    {
      hide Inv, After, Next, AdvanceSession;
      var j, onward := FreezeQueues(j0);
      if !onward {
        return false;
      }
      var startQ, startG, startPage := j.qidx, j.gidx, StartPage(j.page);
      ghost var walk := StartWalk(j);
      var qi := startQ;
      while qi < |w.cfg.scope.queues|
        invariant old(w.trace) < w.trace && old(w.tries) <= w.tries && j.queues == Some(w.cfg.scope.queues)
        invariant At(Walking(walk)) && walk.j == j && walk.qi == qi && walk.groups == None
        invariant walk.startQ == startQ && walk.startG == startG && walk.startPage == startPage
        invariant old(Calm()) ==> StillCalm()
      {
        j, onward, walk := WalkQueue(walk, j, startQ, startG, startPage, qi);
        if !onward {
          return false;
        }
        qi := qi + 1;
      }
      AdvanceUndisturbed(w.cfg, w.sys, token);
      EndOfScope(walk);
      w.Log(Advance(token));
      done := true;
    }

    /** What enumerating a job as it was read takes to begin with. */
    predicate SetupGood(j: Hash) {
      w.compiles && (j.queues.Some? || w.resolves)
    }

    /** The job fails because its setup did. */
    method FailJob()
      requires w.Valid() && token in w.sys.sessions && w.sys.sessions[token].inst == inst && w.SetupFails(token)
      modifies w, w.store
      ensures Unwound() && old(w.trace) < w.trace && old(w.tries) <= w.tries
      ensures w.Struck() || Superseded() || (w.store.hash.state == Failed && w.store.hash.ctl == NoCtl)
    {
      hide Inv, After;
      w.Log(FailSetup(token));
      Finalize(Failed, false);
    }

    /** Walk the scope from the stored cursor. The job fails when its setup
        does, and the walk is given up only for the reasons there are: a failed
        command, a newer claim, a request, or a scope over the cap. Done, the
        job's candidate list is the one-pass list of the whole scope, whatever
        other runners and operators did, and whoever crashed, before and
        meanwhile. */
    method Enumerate(j0: Hash) returns (done: bool)
      requires At(EnumEntry(j0)) && (j0.queues.Some? ==> j0.queues == Some(w.cfg.scope.queues))
      modifies w, w.store
      ensures old(w.trace) < w.trace && old(w.tries) <= w.tries
      ensures if done then At(Reloading) else Unwound()
      ensures !SetupGood(j0) ==> !done && (w.Struck() || Superseded() || w.store.hash.state == Failed)
      ensures SetupGood(j0) && !done ==> Hindered()
      ensures SetupGood(j0) && old(Calm()) ==>
                && done && Calm() && w.store.hash.phase == old(w.store.hash).phase
                && w.store.hash.state == if w.store.hash.phase == Preview then PreviewReady else old(w.store.hash).state
      ensures done ==>
                && w.store.hash.previewComplete
                && w.store.hash.scanned == |AllTasks(w.cfg.scope)|
                && w.store.hash.candidates == |AllRefs(w.cfg.scope)|
                && w.store.sample == AllRefs(w.cfg.scope)[..Min(|AllRefs(w.cfg.scope)|, SAMPLE_SIZE)]
                && (|AllRefs(w.cfg.scope)| <= MAX_CANDIDATES ==> w.store.candidates == AllRefs(w.cfg.scope))
    {
      hide After, Inv;
      if !w.compiles || (j0.queues.None? && !w.resolves) {
        FailJob();  // the scope does not compile, or its queues do not resolve
        return false;
      }
      done := WalkScope(j0);
      if !done {
        return;
      }
      done := FinishPreview();
      if done {
        CompletePreviewIsExact(w.cfg, w.verb, w.trace);
      }
    }

    /** Re-fetch one batch of candidates; the answers are the Inspector's. */
    static method FetchBatch(refs: seq<Ref>, skipped0: nat, failed0: nat)
      returns (skipped: nat, failed: nat, fetch: seq<Fetch>, fetched: seq<Task>, failures: seq<Failure>)
      ensures |fetch| == |refs| && fetched == FoundTasks(refs, fetch) && failures == FetchFailures(refs, fetch)
      ensures skipped == skipped0 + Tally(fetch, (f: Fetch) => f == Gone)
      ensures failed == failed0 + Tally(fetch, (f: Fetch) => f.FetchFailed?)
    {
      skipped, failed, fetch, fetched, failures := skipped0, failed0, [], [], [];
      for r := 0 to |refs|
        invariant |fetch| == r && fetched == FoundTasks(refs[..r], fetch) && failures == FetchFailures(refs[..r], fetch)
        invariant skipped == skipped0 + Tally(fetch, (f: Fetch) => f == Gone)
        invariant failed == failed0 + Tally(fetch, (f: Fetch) => f.FetchFailed?)
      {
        var answer: Fetch := *;
        FetchStep(refs, fetch, answer);
        FetchCounts(fetch, answer);
        fetch := fetch + [answer];
        match answer {
          case Gone =>
            skipped := skipped + 1;
          case FetchFailed(error) =>
            failed := failed + 1;
            failures := failures + [Failure(refs[r], "re-fetch: " + error)];
          case Found(payload) =>
            fetched := fetched + [Task(refs[r].queue, refs[r].id, payload)];
        }
      }
      assert refs[..|refs|] == refs;
    }

    /** Re-match and act, task by task: what no longer matches is skipped, and
        what the verb answers is counted. A lost claim stops between tasks. */
    method ActOnBatch(fetched: seq<Task>, acted0: nat, skipped0: nat, failed0: nat)
      returns (acted: nat, skipped: nat, failed: nat, decided: seq<Decision>, failures: seq<Failure>)
      modifies w`tries
      ensures |decided| <= |fetched| && failures == DecisionFailures(fetched, decided)
      ensures forall i :: 0 <= i < |decided| ==> (decided[i] == NoMatch <==> !w.cfg.scope.matches(fetched[i]))
      ensures acted == acted0 + Tally(decided, (d: Decision) => d == ActedOn)
      ensures skipped == skipped0 + Tally(decided, (d: Decision) => d == NoMatch)
                         + Tally(decided, (d: Decision) => d == AlreadyThere)
      ensures failed == failed0 + Tally(decided, (d: Decision) => d.ActFailed?)
      ensures old(w.tries) <= w.tries && (|decided| < |fetched| ==> w.Struck())
      ensures old(w.Quiet()) ==> w.Quiet()
    {
      acted, skipped, failed, decided, failures := acted0, skipped0, failed0, [], [];
      while |decided| < |fetched|
        invariant |decided| <= |fetched| && failures == DecisionFailures(fetched, decided)
        invariant forall i :: 0 <= i < |decided| ==> (decided[i] == NoMatch <==> !w.cfg.scope.matches(fetched[i]))
        invariant acted == acted0 + Tally(decided, (d: Decision) => d == ActedOn)
        invariant skipped == skipped0 + Tally(decided, (d: Decision) => d == NoMatch)
                             + Tally(decided, (d: Decision) => d == AlreadyThere)
        invariant failed == failed0 + Tally(decided, (d: Decision) => d.ActFailed?)
        invariant old(w.tries) <= w.tries && (old(w.Quiet()) ==> w.Quiet())
        decreases |fetched| - |decided|
      {
        var stopped := w.Fails();
        if stopped {
          break;  // the context ended or the claim was lost
        }
        var answer := NoMatch;
        if w.cfg.scope.matches(fetched[|decided|]) {
          answer := Perform();
        }
        DecisionStep(fetched, decided, answer);
        DecisionCounts(decided, answer);
        match answer {
          case NoMatch => skipped := skipped + 1;
          case ActedOn => acted := acted + 1;
          case AlreadyThere => skipped := skipped + 1;
          case ActFailed(error) =>
            failed := failed + 1;
            failures := failures + [Failure(RefOf(fetched[|decided|]), error)];
        }
        decided := decided + [answer];
      }
    }

    /** The verb's answer for one task. */
    static method Perform() returns (answer: Decision)
      ensures answer != NoMatch
    {
      var error: string := *;
      answer := ActFailed(error);
      if * {
        answer := ActedOn;
      } else if * {
        answer := AlreadyThere;
      }
    }

    /** Persist one batch: after an early stop the counts only, otherwise the
        counts and the cursor. */
    method PutBatch(j0: Hash, refs: seq<Ref>) returns (ok: bool)
      requires At(Acting(j0, refs))
      modifies w, w.store
      ensures old(w.trace) < w.trace && old(w.tries) <= w.tries
      ensures if ok then At(CheckExec) else Unwound() && Hindered()
      ensures ok ==> w.store.hash.actCursor == j0.actCursor + |refs|
      ensures old(Calm()) ==> ok && StillCalm()
    {
      hide Inv, After, FetchFailures, DecisionFailures, Tally, AdvanceSession, OperatorStep, Rematched, FoundTasks;
      var skipped, failed, fetch, fetched, fetchFailures := FetchBatch(refs, j0.skipped, j0.failed);
      var fails := w.Fails();
      if fails {
        StandDown();  // preparing the batch failed: nothing was acted on
        return false;
      }
      var acted, decided, actFailures;
      acted, skipped, failed, decided, actFailures := ActOnBatch(fetched, j0.acted, skipped, failed);
      ok := CommitBatch(j0, refs, fetch, decided, acted, skipped, failed, fetchFailures + actFailures);
    }

    lemma BatchWrites(j: Hash, refs: seq<Ref>, fetch: seq<Fetch>, decided: seq<Decision>)
      requires BatchFits(w.cfg, refs, fetch, decided)
      ensures Writes(Acting(j, refs), Act(token, fetch, decided),
                     Write(ActFields(j, refs, fetch, decided), [], [], BatchFailures(refs, fetch, decided)),
                     if Partial(refs, fetch, decided) then Releasing else CheckExec)
    {
      hide Next, Progress, ActFields, BatchFailures, BatchFits, Partial;
      forall s: Sys | token in s.sessions && s.sessions[token] == Session(inst, Acting(j, refs)) {
        BatchAdvance(w.cfg, s, token, j, refs, fetch, decided);
      }
    }

    /** The write of one batch. */
    method CommitBatch(j0: Hash, refs: seq<Ref>, fetch: seq<Fetch>, decided: seq<Decision>,
                       acted: nat, skipped: nat, failed: nat, failures: seq<Failure>)
      returns (ok: bool)
      requires At(Acting(j0, refs)) && |fetch| == |refs| && |decided| <= |FoundTasks(refs, fetch)|
      requires forall i :: 0 <= i < |decided| ==>
                 (decided[i] == NoMatch <==> !w.cfg.scope.matches(FoundTasks(refs, fetch)[i]))
      requires acted == j0.acted + Tally(decided, (d: Decision) => d == ActedOn)
      requires skipped == j0.skipped + Tally(fetch, (f: Fetch) => f == Gone)
                          + Tally(decided, (d: Decision) => d == NoMatch) + Tally(decided, (d: Decision) => d == AlreadyThere)
      requires failed == j0.failed + Tally(fetch, (f: Fetch) => f.FetchFailed?)
                         + Tally(decided, (d: Decision) => d.ActFailed?)
      requires failures == FetchFailures(refs, fetch) + DecisionFailures(FoundTasks(refs, fetch), decided)
      modifies w, w.store
      ensures old(w.trace) < w.trace && old(w.tries) <= w.tries
      ensures if ok then At(CheckExec) else Unwound()
      ensures ok ==> |decided| == |FoundTasks(refs, fetch)| && w.store.hash.actCursor == j0.actCursor + |refs|
      ensures !ok ==> w.Struck() || Superseded() || |decided| < |FoundTasks(refs, fetch)|
      ensures old(Calm()) && |decided| == |FoundTasks(refs, fetch)| ==> ok && StillCalm()
    {
      hide Inv, After, FetchFailures, DecisionFailures, Tally, AdvanceSession, OperatorStep, FoundTasks, Next, Writes, Progress;
      var fields := NO_FIELDS.(acted := Some(acted), skipped := Some(skipped), failed := Some(failed));
      var partial := |decided| < |FoundTasks(refs, fetch)|;
      if !partial {
        fields := fields.(actCursor := Some(j0.actCursor + |refs|));
      }
      assert fields == ActFields(j0, refs, fetch, decided) by {
        CountsSpelled(fetch, decided);
      }
      BatchWrites(j0, refs, fetch, decided);
      ok := Send(Acting(j0, refs), Act(token, fetch, decided), Write(fields, [], [], failures),
                 if partial then Releasing else CheckExec);
      ok := ok && !partial;
    }

    /** Read the next references. */
    method ReadRefs(j: Hash) returns (refs: seq<Ref>, ok: bool)
      requires At(Fetching(j))
      modifies w, w.store
      ensures old(w.trace) < w.trace && old(w.tries) <= w.tries
      ensures if ok then At(if refs == [] then Finalizing(Done, false) else Acting(j, refs)) else Unwound() && w.Struck()
      ensures old(Calm()) ==> ok && StillCalm()
    {
      hide Inv, After, OperatorStep, ActBatch, WalkStep, Progress, BatchFits, Slice;
      refs, ok := [], false;
      var failed := w.Fails();
      if failed {
        StandDown();
        return;
      }
      w.Others(RunnerOf(token));
      AdvanceUndisturbed(w.cfg, w.sys, token);
      refs, ok := Slice(w.store.candidates, j.actCursor, w.cfg.execBatch), true;
      w.Log(Advance(token));
    }

    /** Renew the claim, then read the next references. */
    method NextRefs(j: Hash) returns (refs: seq<Ref>, held: bool)
      requires At(ExecTop(j))
      modifies w, w.store
      ensures old(w.trace) < w.trace && old(w.tries) <= w.tries
      ensures if held then At(if refs == [] then Finalizing(Done, false) else Acting(j, refs))
              else Unwound() && (w.Struck() || w.store.lease != Some(inst))
      ensures old(Calm()) ==> held && StillCalm()
    {
      hide Inv, After, OperatorStep, ActBatch, WalkStep, Progress, BatchFits, Slice;
      refs, held := [], false;
      var failed := w.Fails();
      if failed {
        StandDown();  // the context ended, the claim was lost, or the renewal failed
        return;
      }
      w.Others(RunnerOf(token));
      AdvanceUndisturbed(w.cfg, w.sys, token);
      held := w.store.RenewClaim(inst);
      w.Log(Advance(token));
      if held {
        refs, held := ReadRefs(j);
      }
    }

    method ActLoop(j0: Hash) returns (finished: bool)
      requires At(ExecTop(j0)) && j0.actCursor <= |AllRefs(w.cfg.scope)|
      modifies w, w.store
      ensures old(w.trace) < w.trace && old(w.tries) <= w.tries && Unwound()
      ensures finished ==> w.Struck() || Superseded() || w.store.hash.state == Done
      ensures !finished ==> Hindered() || w.store.lease != Some(inst)
      ensures old(Calm()) ==> finished && w.Quiet() && w.store.hash.state == Done
    {
      hide Inv, After, AllRefs;
      var j := j0;
      while true
        invariant old(w.trace) <= w.trace && old(w.tries) <= w.tries
        invariant At(ExecTop(j)) && j.actCursor <= |AllRefs(w.cfg.scope)|
        invariant old(Calm()) ==> StillCalm()
        decreases |AllRefs(w.cfg.scope)| - j.actCursor
      {
        var refs, held := NextRefs(j);
        if !held {
          return false;
        }
        if refs == [] {
          Finalize(Done, false);
          return true;
        }
        var ok := PutBatch(j, refs);
        if !ok {
          return false;
        }
        var now, onward := CheckCtl(CheckExec);
        if !onward {
          return false;
        }
        j := now;
      }
    }

    lemma DoneIsPreviewed()
      requires w.Valid()
      ensures w.store.hash.state == Done ==> w.store.hash.previewComplete
    {
      hide After, EnumOk, CountsOk, CursorTiles, SessionOk;
      w.Invariant();
    }

    /** Act on the candidates in batches from the stored cursor. The job fails
        when its scope no longer compiles, and is given up only for the reasons
        there are, a lost lease among them. Finished, it is done, and every
        match of the whole scope has been decided, in order, as long as the
        scope fits the cap. */
    method Execute(j0: Hash) returns (finished: bool)
      requires At(ExecEntry(j0)) && j0.actCursor <= |AllRefs(w.cfg.scope)|
      modifies w, w.store
      ensures old(w.trace) < w.trace && old(w.tries) <= w.tries && Unwound()
      ensures !w.compiles ==> !finished && (w.Struck() || Superseded() || w.store.hash.state == Failed)
      ensures w.compiles && !finished ==> Hindered() || w.store.lease != Some(inst)
      ensures finished ==> w.Struck() || Superseded() || w.store.hash.state == Done
      ensures w.compiles && old(Calm()) ==> finished && w.Quiet() && w.store.hash.state == Done
      ensures w.store.hash.state == Done ==> w.store.hash.previewComplete
      ensures finished && w.store.hash.state == Done && |AllRefs(w.cfg.scope)| <= MAX_CANDIDATES ==>
                w.store.hash.actCursor == |AllRefs(w.cfg.scope)| && Decided(w.sys.hist.full) == AllRefs(w.cfg.scope)
    {
      hide Inv, After, AllRefs, Decided;
      if !w.compiles {
        FailJob();  // the scope no longer compiles
        DoneIsPreviewed();
        return false;
      }
      AdvanceUndisturbed(w.cfg, w.sys, token);
      w.Log(Advance(token));
      finished := ActLoop(j0);
      DoneIsPreviewed();
      if finished && w.store.hash.state == Done && |AllRefs(w.cfg.scope)| <= MAX_CANDIDATES {
        DoneMeansAllDecided(w.cfg, w.verb, w.trace);
      }
    }

    method Load() returns (j: Hash, ok: bool)
      requires At(Claimed)
      modifies w, w.store
      ensures old(w.trace) < w.trace && old(w.tries) <= w.tries
      ensures if ok then At(Loaded(j)) && j == w.store.hash else Unwound() && w.Struck()
      ensures ok ==> (j.queues.Some? ==> j.queues == Some(w.cfg.scope.queues)) && j.actCursor <= |AllRefs(w.cfg.scope)|
      ensures old(Calm()) ==> ok && StillCalm() && j == old(w.store.hash)
    {
      hide After, KeysOk, Live, OperatorStep, ActBatch, WalkStep, Progress, AllRefs;
      j := w.store.hash;
      var failed := w.Fails();
      if failed {
        StandDown();
        return j, false;
      }
      w.Others(RunnerOf(token));
      j, ok := w.store.hash, true;
      w.Invariant();
      StoredBounds(w.cfg, w.sys, token);
      w.Log(Advance(token));
    }

    method Reload() returns (j: Hash, ok: bool)
      requires At(Reloading)
      modifies w, w.store
      ensures old(w.trace) < w.trace && old(w.tries) <= w.tries
      ensures if ok then At(if j.phase == JobStore.Execute && j.state == Running then ExecEntry(j) else Releasing)
              else Unwound() && w.Struck()
      ensures ok ==> j == w.store.hash && j.actCursor <= |AllRefs(w.cfg.scope)|
      ensures old(Calm()) ==> ok && StillCalm() && w.store.hash == old(w.store.hash)
    {
      hide After, KeysOk, Live, OperatorStep, ActBatch, WalkStep, Progress, AllRefs;
      j := w.store.hash;
      var failed := w.Fails();
      if failed {
        StandDown();
        return j, false;
      }
      w.Others(RunnerOf(token));
      j, ok := w.store.hash, true;
      w.Invariant();
      StoredBounds(w.cfg, w.sys, token);
      w.Log(Advance(token));
    }

    /** Release the claim, if it is still this instance's; a failure is ignored. */
    method LetGo()
      requires Unwound()
      modifies w, w.store
      ensures At(Ended) && old(w.trace) < w.trace && old(w.tries) <= w.tries
      ensures w.Struck() || w.store.lease != Some(inst)
      ensures old(w.Quiet()) ==> w.store.hash == old(w.store.hash)
    {
      hide Inv, After;
      var failed := w.Fails();
      if failed {
        w.Log(Crash(token));
        return;
      }
      w.Others(RunnerOf(token));
      w.store.ReleaseClaim(inst);
      w.Log(Advance(token));
    }

    /** Drive one claimed job to a parking or terminal state, then release. With
        nothing in its way a claim ends with a preview that was not complete
        completed, and parked unless the job was sent to execute, and with an
        executing job done. */
    method Work()
      requires At(Claimed)
      modifies w, w.store
      ensures At(Ended) && old(w.trace) < w.trace
      ensures w.Struck() || w.store.lease != Some(inst)
      ensures old(Calm()) && w.compiles && w.resolves ==>
                var h := old(w.store.hash);
                && (h.state == Previewing && h.phase == Preview && !h.previewComplete ==>
                      w.store.hash.state == PreviewReady && w.store.hash.previewComplete)
                && (h.state == Running && h.phase == JobStore.Execute ==>
                      w.store.hash.state == Done && w.store.hash.previewComplete)
                && (!h.state.Claimable() ==> w.store.hash == h)
    {
      hide Inv, After, AllRefs, AllTasks, Decided, RefsOf, OperatorStep, ActBatch;
      var j, ok := Load();
      if ok && j.state.Claimable() {
        if !j.previewComplete {
          ok := Enumerate(j);
          if ok {
            j, ok := Reload();
          }
        }
        if ok && j.phase == JobStore.Execute && j.state == Running {
          var finished := Execute(j);
        }
      }
      LetGo();
    }
  }
}
