/** One bulk job driven by any number of runners and operators: every Redis
    round trip is one action, and every action is a total function of the state. */
module JobProtocol {
  import opened Collections
  import opened JobStore
  import opened Listings

  /** What a job runs over, and how many candidates it decides per batch. */
  datatype Cfg = Cfg(scope: Scope, execBatch: pos)

  // --- the execute phase, one candidate at a time ---

  /** What re-fetching one candidate answered. */
  datatype Fetch = Found(payload: string) | Gone | FetchFailed(error: string)

  /** What came of one re-fetched task: it no longer matched, or it was acted
      on and the verb answered. */
  datatype Decision = NoMatch | ActedOn | AlreadyThere | ActFailed(error: string)

  function RefOf(t: Task): Ref {
    Ref(t.queue, t.id)
  }

  /** The tasks a batch has to decide. */
  function FoundTasks(refs: seq<Ref>, fetch: seq<Fetch>): (r: seq<Task>)
    requires |refs| == |fetch|
    ensures |r| <= |refs|
  {
    if refs == [] then [] else
      var n := |refs| - 1;
      FoundTasks(refs[..n], fetch[..n]) + if fetch[n].Found? then [Task(refs[n].queue, refs[n].id, fetch[n].payload)] else []
  }

  /** A task is acted on exactly when it still matches. */
  predicate Rematched(cfg: Cfg, tasks: seq<Task>, ds: seq<Decision>)
    requires |ds| <= |tasks|
  {
    forall i :: 0 <= i < |ds| ==> (ds[i].NoMatch? <==> !cfg.scope.matches(tasks[i]))
  }

  function Touched(tasks: seq<Task>, ds: seq<Decision>): seq<Task>
    requires |ds| <= |tasks|
  {
    if ds == [] then [] else
      var n := |ds| - 1;
      Touched(tasks, ds[..n]) + if ds[n].NoMatch? then [] else [tasks[n]]
  }

  function FetchFailures(refs: seq<Ref>, fetch: seq<Fetch>): seq<Failure>
    requires |refs| == |fetch|
  {
    if refs == [] then [] else
      var n := |refs| - 1;
      FetchFailures(refs[..n], fetch[..n]) +
      if fetch[n].FetchFailed? then [Failure(refs[n], "re-fetch: " + fetch[n].error)] else []
  }

  function DecisionFailures(tasks: seq<Task>, ds: seq<Decision>): seq<Failure>
    requires |ds| <= |tasks|
  {
    if ds == [] then [] else
      var n := |ds| - 1;
      DecisionFailures(tasks, ds[..n]) + if ds[n].ActFailed? then [Failure(RefOf(tasks[n]), ds[n].error)] else []
  }

  function ActedIn(ds: seq<Decision>): nat {
    Tally(ds, (d: Decision) => d.ActedOn?)
  }

  function SkippedIn(fetch: seq<Fetch>, ds: seq<Decision>): nat {
    Tally(fetch, (f: Fetch) => f.Gone?) + Tally(ds, (d: Decision) => d.NoMatch? || d.AlreadyThere?)
  }

  function FailedIn(fetch: seq<Fetch>, ds: seq<Decision>): nat {
    Tally(fetch, (f: Fetch) => f.FetchFailed?) + Tally(ds, (d: Decision) => d.ActFailed?)
  }

  /** How many candidates of a batch are settled. */
  function SettledIn(fetch: seq<Fetch>, ds: seq<Decision>): nat {
    Tally(fetch, (f: Fetch) => !f.Found?) + |ds|
  }

  // --- a runner's place in its code ---

  /** A position inside the enumeration loops. `groups` is None before the
      group list of queue `qi` is known; `start*` is the cursor the claim
      resumed from, and `j` the runner's copy of the job hash. */
  datatype Walk = Walk(j: Hash, startQ: nat, startG: nat, startPage: pos,
                       qi: nat, groups: Option<seq<string>>, gi: nat, page: pos)

  datatype Pc =
    | Claimed                              // lease taken, hash not read yet
    | EnumEntry(j: Hash)
    | Walking(w: Walk)
    | CheckWalk(w: Walk)                   // page written; control flag not read yet
    | Completing
    | Reloading                            // preview completed; hash not re-read yet
    | ExecEntry(j: Hash)
    | ExecTop(j: Hash)                     // before the synchronous renewal
    | Fetching(j: Hash)
    | Acting(j: Hash, refs: seq<Ref>)
    | CheckExec
    | Pausing
    | Finalizing(target: State, drop: bool)
    | Dropping
    | Releasing
    | Ended

  datatype Session = Session(inst: string, pc: Pc)

  /** An operator request whose read is done and whose write is not. */
  datatype Op =
    | ExecuteGated(proceed: bool)
    | CancelCas
    | CancelFlag
    | PauseGated
    | ResumeGated(flip: bool, toRunning: bool)

  /** One committed full batch of the execute loop. */
  datatype Batch = Batch(token: nat, lo: nat, refs: seq<Ref>)

  /** History, read by no step: whether the candidate list was dropped, the
      committed full batches, the answers and decisions of every accepted
      write, how many candidates partial batches settled, every failure
      reported, and every task acted on. */
  datatype Hist = Hist(dropped: bool, full: seq<Batch>, answers: seq<Fetch>, decisions: seq<Decision>, partial: nat,
                       failures: seq<Failure>, touched: seq<Task>)

  /** `sessions` is keyed by the claim's token, `ops` by a request id. */
  datatype Sys = Sys(keys: Keys, sessions: map<nat, Session>, ops: map<nat, Op>, hist: Hist)

  function Init(verb: Verb): Sys {
    Sys(NewKeys(verb), map[], map[], Hist(false, [], [], [], 0, [], []))
  }

  datatype Action =
    | TakeClaim(inst: string)
    | LeaseExpires
    | Advance(token: nat)                  // the session's next store round trip
    | Act(token: nat, fetch: seq<Fetch>, decided: seq<Decision>)
    | FailSetup(token: nat)                // scope does not compile, queues do not resolve
    | FailWrite(token: nat)                // a terminal write that does not arrive
    | Stop(token: nat)                     // lost renewal, cancelled context, transport error
    | Crash(token: nat)
    | ExecuteRead(op: nat, proceed: bool)
    | ExecuteWrite(op: nat)
    | CancelRead(op: nat)
    | CancelWrite(op: nat)
    | PauseRead(op: nat)
    | PauseWrite(op: nat)
    | ResumeRead(op: nat)
    | ResumeWrite(op: nat)

  function SetPc(s: Sys, t: nat, pc: Pc): Sys
    requires t in s.sessions
  {
    s.(sessions := s.sessions[t := s.sessions[t].(pc := pc)])
  }

  // --- the enumeration loops ---

  function StartWalk(j: Hash): Walk {
    Walk(j, j.qidx, j.gidx, StartPage(j.page), j.qidx, None, 0, 1)
  }

  /** Inside queue `qi`, with its group list known. */
  function InQueue(w: Walk, gs: seq<string>): Walk {
    if w.qi == w.startQ
    then w.(groups := Some(gs), gi := StartGroup(gs, w.startG), page := w.startPage)
    else w.(groups := Some(gs), gi := 0, page := 1)
  }

  function NextQueue(w: Walk): Walk {
    w.(qi := w.qi + 1, groups := None)
  }

  const FREEZE_GROUPS := NO_FIELDS.(gidx := Some(0), page := Some(1))

  function FreezeGroups(qi: nat, gs: seq<string>): Write {
    Write(FREEZE_GROUPS.(qidx := Some(qi), groups := Some(Some(gs))), [], [], [])
  }

  function EnterQueue(cfg: Cfg, s: Sys, t: nat, w: Walk): Sys
    requires t in s.sessions && w.qi < |Or(w.j.queues, [])|
  {
    var q := Or(w.j.queues, [])[w.qi];
    if !cfg.scope.aggregating then SetPc(s, t, Walking(InQueue(w, [""])))
    else if w.qi == w.startQ && w.j.groups.Some? then SetPc(s, t, Walking(InQueue(w, w.j.groups.value)))
    else if q !in cfg.scope.groups then SetPc(s, t, Walking(NextQueue(w)))
    else
      var ok := s.keys.hash.fence == t;
      SetPc(s.(keys := Progress(s.keys, t, FreezeGroups(w.qi, cfg.scope.groups[q]))), t,
            if ok then Walking(InQueue(w, cfg.scope.groups[q])) else Releasing)
  }

  /** The batch write of one enumeration page. Leaving a queue drops its
      frozen group list. */
  function PageWrite(cfg: Cfg, w: Walk, gs: seq<string>, batch: seq<Task>): Write {
    var refs := RefsOf(cfg.scope, batch);
    var last := |batch| < cfg.scope.pageSize;
    var leaves := last && w.gi + 1 >= |gs|;
    Write(NO_FIELDS.(
          candidates := Some(w.j.candidates + |refs|), scanned := Some(w.j.scanned + |batch|),
          qidx := Some(if leaves then w.qi + 1 else w.qi),
          gidx := Some(if leaves then 0 else if last then w.gi + 1 else w.gi),
          page := Some(if last then 1 else w.page + 1),
          groups := if leaves then Some(None) else None),
          refs, refs[..Min(|refs|, SAMPLE_SIZE)], [])
  }

  /** The walk after a page of `n` tasks with `m` matches was written. */
  function AfterPage(cfg: Cfg, w: Walk, n: nat, m: nat): Walk {
    var j := w.j.(candidates := w.j.candidates + m, scanned := w.j.scanned + n);
    if n < cfg.scope.pageSize then w.(j := j, gi := w.gi + 1, page := 1) else w.(j := j, page := w.page + 1)
  }

  function WalkPage(cfg: Cfg, s: Sys, t: nat, w: Walk, gs: seq<string>): Sys
    requires t in s.sessions && w.qi < |Or(w.j.queues, [])| && w.gi < |gs|
  {
    match Page(cfg.scope, Or(w.j.queues, [])[w.qi], gs[w.gi], w.page)
    case None => SetPc(s, t, Walking(w.(gi := w.gi + 1, page := 1)))
    case Some(batch) =>
      var ok := s.keys.hash.fence == t;
      var w' := AfterPage(cfg, w, |batch|, |RefsOf(cfg.scope, batch)|);
      SetPc(s.(keys := Progress(s.keys, t, PageWrite(cfg, w, gs, batch))), t,
            if !ok then Releasing
            else if w'.j.candidates > MAX_CANDIDATES then Finalizing(Failed, true)
            else CheckWalk(w'))
  }

  function WalkStep(cfg: Cfg, s: Sys, t: nat, w: Walk): Sys
    requires t in s.sessions
  {
    if w.qi >= |Or(w.j.queues, [])| then SetPc(s, t, Completing)
    else if w.groups.None? then EnterQueue(cfg, s, t, w)
    else if w.gi >= |w.groups.value| then SetPc(s, t, Walking(NextQueue(w)))
    else WalkPage(cfg, s, t, w, w.groups.value)
  }

  // --- the rest of a session ---

  const PAUSE_WRITE := Write(NO_FIELDS.(state := Some(Paused), ctl := Some(NoCtl)), [], [], [])

  function FinalWrite(target: State): Write {
    Write(NO_FIELDS.(state := Some(target), ctl := Some(NoCtl)), [], [], [])
  }

  function Loaded(j: Hash): Pc {
    if !j.state.Claimable() then Releasing
    else if !j.previewComplete then EnumEntry(j)
    else if j.phase == Execute && j.state == Running then ExecEntry(j)
    else Releasing
  }

  function Checked(now: Hash, onward: Pc): Pc {
    match now.ctl
    case CancelCtl => Finalizing(Canceled, false)
    case PauseCtl => Pausing
    case NoCtl => onward
  }

  function AdvanceSession(cfg: Cfg, s: Sys, t: nat): Sys
    requires t in s.sessions
  {
    var k, ok := s.keys, s.keys.hash.fence == t;
    var inst := s.sessions[t].inst;
    match s.sessions[t].pc
    case Claimed => SetPc(s, t, Loaded(k.hash))
    case EnumEntry(j) =>
      if j.queues.Some? then SetPc(s, t, Walking(StartWalk(j))) else
        SetPc(s.(keys := Progress(k, t, Write(NO_FIELDS.(queues := Some(cfg.scope.queues)), [], [], []))), t,
              if ok then Walking(StartWalk(j.(queues := Some(cfg.scope.queues)))) else Releasing)
    case Walking(w) => WalkStep(cfg, s, t, w)
    case CheckWalk(w) => SetPc(s, t, Checked(k.hash, Walking(w.(j := k.hash))))
    case Completing => SetPc(s.(keys := CompletePreview(k, t)), t, if ok then Reloading else Releasing)
    case Reloading =>
      SetPc(s, t, if k.hash.phase == Execute && k.hash.state == Running then ExecEntry(k.hash) else Releasing)
    case ExecEntry(j) => SetPc(s, t, ExecTop(j))
    case ExecTop(j) => SetPc(s, t, if k.lease == Some(inst) then Fetching(j) else Releasing)
    case Fetching(j) =>
      var refs := Slice(k.candidates, j.actCursor, cfg.execBatch);
      SetPc(s, t, if refs == [] then Finalizing(Done, false) else Acting(j, refs))
    case Acting(_, _) => s
    case CheckExec => SetPc(s, t, Checked(k.hash, ExecTop(k.hash)))
    case Pausing => SetPc(s.(keys := Progress(k, t, PAUSE_WRITE)), t, Releasing)
    case Finalizing(target, drop) =>
      SetPc(s.(keys := Progress(k, t, FinalWrite(target))), t, if drop then Dropping else Releasing)
    case Dropping =>
      SetPc(s.(keys := k.(candidates := []), hist := s.hist.(dropped := true)), t, Releasing)
    case Releasing => SetPc(s.(keys := Release(k, inst)), t, Ended)
    case Ended => s
  }

  /** The counts a batch adds, and the rows it appends to the failure report. */
  function CountPatch(j: Hash, fetch: seq<Fetch>, decided: seq<Decision>): Patch {
    NO_FIELDS.(acted := Some(j.acted + ActedIn(decided)),
    skipped := Some(j.skipped + SkippedIn(fetch, decided)),
    failed := Some(j.failed + FailedIn(fetch, decided)))
  }

  function BatchFailures(refs: seq<Ref>, fetch: seq<Fetch>, decided: seq<Decision>): seq<Failure>
    requires |refs| == |fetch| && |decided| <= |FoundTasks(refs, fetch)|
  {
    FetchFailures(refs, fetch) + DecisionFailures(FoundTasks(refs, fetch), decided)
  }

  /** Deciding fewer tasks than were found is the early stop of a lost claim. */
  predicate Partial(refs: seq<Ref>, fetch: seq<Fetch>, decided: seq<Decision>)
    requires |refs| == |fetch|
  {
    |decided| < |FoundTasks(refs, fetch)|
  }

  function ActFields(j: Hash, refs: seq<Ref>, fetch: seq<Fetch>, decided: seq<Decision>): Patch
    requires |refs| == |fetch|
  {
    var counts := CountPatch(j, fetch, decided);
    if Partial(refs, fetch, decided) then counts else counts.(actCursor := Some(j.actCursor + |refs|))
  }

  function ActHist(hist: Hist, t: nat, j: Hash, refs: seq<Ref>, fetch: seq<Fetch>, decided: seq<Decision>): Hist
    requires |refs| == |fetch| && |decided| <= |FoundTasks(refs, fetch)|
  {
    var noted := hist.(answers := hist.answers + fetch, decisions := hist.decisions + decided,
                       failures := hist.failures + BatchFailures(refs, fetch, decided),
                       touched := hist.touched + Touched(FoundTasks(refs, fetch), decided));
    if Partial(refs, fetch, decided) then noted.(partial := hist.partial + SettledIn(fetch, decided))
    else noted.(full := hist.full + [Batch(t, j.actCursor, refs)])
  }

  /** What a batch may come to: an answer for each reference, and decisions
      that act on what still matches and on nothing else. */
  predicate BatchFits(cfg: Cfg, refs: seq<Ref>, fetch: seq<Fetch>, decided: seq<Decision>) {
    |fetch| == |refs| && |decided| <= |FoundTasks(refs, fetch)| && Rematched(cfg, FoundTasks(refs, fetch), decided)
  }

  /** One execute batch. After an early stop the counts are written and the
      cursor stays. */
  function ActBatch(cfg: Cfg, s: Sys, t: nat, j: Hash, refs: seq<Ref>, fetch: seq<Fetch>, decided: seq<Decision>): Sys
    requires t in s.sessions && BatchFits(cfg, refs, fetch, decided)
  {
    var w := Write(ActFields(j, refs, fetch, decided), [], [], BatchFailures(refs, fetch, decided));
    var ok := s.keys.hash.fence == t;
    SetPc(s.(keys := Progress(s.keys, t, w),
          hist := if ok then ActHist(s.hist, t, j, refs, fetch, decided) else s.hist), t,
          if Partial(refs, fetch, decided) || !ok then Releasing else CheckExec)
  }

  // --- operators ---

  function SetHash(s: Sys, h: Hash): Sys {
    s.(keys := s.keys.(hash := h))
  }

  /** The gate of an execute request, on the hash it read. */
  predicate ExecuteGate(h: Hash, proceed: bool) {
    && h.phase == Preview && (h.state == Previewing || h.state == PreviewReady)
    && h.verb != Count
    && (h.previewComplete || (h.verb != Delete && proceed))
  }

  predicate ResumeGate(h: Hash) {
    h.state == Paused || (h.ctl == PauseCtl && h.state.Claimable())
  }

  function ResumeTo(h: Hash, flip: bool, toRunning: bool): Hash {
    if flip then h.(ctl := NoCtl, state := if toRunning then Running else Previewing) else h.(ctl := NoCtl)
  }

  function OperatorStep(s: Sys, a: Action): Sys {
    var h := s.keys.hash;
    match a
    case ExecuteRead(o, proceed) =>
      if ExecuteGate(h, proceed) then s.(ops := s.ops[o := ExecuteGated(proceed)]) else s
    case ExecuteWrite(o) =>
      if o in s.ops && s.ops[o].ExecuteGated? then
        var s' := s.(ops := s.ops - {o});
        if h.state == Previewing || h.state == PreviewReady
        then SetHash(s', h.(phase := Execute, state := Running, proceedOnPartial := s.ops[o].proceed))
        else s'
      else s
    case CancelRead(o) =>
      if h.state.IsTerminal() then s
      else if (h.state == PreviewReady && h.phase == Preview) || h.state == Paused
      then s.(ops := s.ops[o := CancelCas])
      else s.(ops := s.ops[o := CancelFlag])
    case CancelWrite(o) =>
      if o in s.ops && s.ops[o] == CancelCas then
        if h.state == PreviewReady || h.state == Paused
        then SetHash(s.(ops := s.ops - {o}), h.(state := Canceled, ctl := NoCtl))
        else s.(ops := s.ops[o := CancelFlag])
      else if o in s.ops && s.ops[o] == CancelFlag
      then SetHash(s.(ops := s.ops - {o}), h.(ctl := CancelCtl))
      else s
    case PauseRead(o) => if h.state.Claimable() then s.(ops := s.ops[o := PauseGated]) else s
    case PauseWrite(o) =>
      if o in s.ops && s.ops[o] == PauseGated then SetHash(s.(ops := s.ops - {o}), h.(ctl := PauseCtl)) else s
    case ResumeRead(o) =>
      if ResumeGate(h)
      then s.(ops := s.ops[o := ResumeGated(h.state == Paused, h.phase == Execute)]) else s
    case ResumeWrite(o) =>
      if o in s.ops && s.ops[o].ResumeGated?
      then SetHash(s.(ops := s.ops - {o}), ResumeTo(h, s.ops[o].flip, s.ops[o].toRunning)) else s
    case _ => s
  }

  /** One action; an action that is not enabled changes nothing. */
  function Next(cfg: Cfg, s: Sys, a: Action): Sys {
    match a
    case TakeClaim(inst) =>
      if s.keys.lease.Some? then s else
        s.(keys := Claim(s.keys, inst),
        sessions := s.sessions[s.keys.hash.fence + 1 := Session(inst, Claimed)])
    case LeaseExpires => s.(keys := s.keys.(lease := None))
    case Advance(t) => if t in s.sessions then AdvanceSession(cfg, s, t) else s
    case Act(t, fetch, decided) =>
      if t in s.sessions && s.sessions[t].pc.Acting? && BatchFits(cfg, s.sessions[t].pc.refs, fetch, decided)
      then ActBatch(cfg, s, t, s.sessions[t].pc.j, s.sessions[t].pc.refs, fetch, decided) else s
    case FailSetup(t) =>
      if t in s.sessions && (s.sessions[t].pc.EnumEntry? || s.sessions[t].pc.ExecEntry?)
      then SetPc(s, t, Finalizing(Failed, false)) else s
    case FailWrite(t) =>
      if t in s.sessions && s.sessions[t].pc.Finalizing?
      then SetPc(s, t, if s.sessions[t].pc.drop then Dropping else Releasing) else s
    case Stop(t) => if t in s.sessions && s.sessions[t].pc != Ended then SetPc(s, t, Releasing) else s
    case Crash(t) => if t in s.sessions then SetPc(s, t, Ended) else s
    case _ => OperatorStep(s, a)
  }

  function After(cfg: Cfg, s: Sys, actions: seq<Action>): Sys {
    if actions == [] then s else Next(cfg, After(cfg, s, actions[..|actions| - 1]), actions[|actions| - 1])
  }
}
