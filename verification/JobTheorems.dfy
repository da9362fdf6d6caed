/** What the invariant says about every schedule of a bulk job: fencing,
    enumeration as one pass, and the execute accounts. */
module JobTheorems {
  import opened Collections
  import opened JobStore
  import opened Listings
  import opened JobProtocol
  import opened JobInvariant
  import opened JobSteps
  import opened JobActs

  lemma {:induction false} Reachable(cfg: Cfg, verb: Verb, actions: seq<Action>)
    ensures Inv(cfg, After(cfg, Init(verb), actions))
  {
    InitOk(cfg, verb);
    RunKeepsInv(cfg, Init(verb), actions);
  }

  lemma {:induction false} AfterConcat(cfg: Cfg, s: Sys, a: seq<Action>, b: seq<Action>)
    ensures After(cfg, s, a + b) == After(cfg, After(cfg, s, a), b)
  {
    if b == [] {
      assert a + b == a;
    } else {
      assert (a + b)[..|a + b| - 1] == a + b[..|b| - 1];
      AfterConcat(cfg, s, a, b[..|b| - 1]);
    }
  }

  // --- fencing ---

  lemma ProgressKeepsFence(k: Keys, t: nat)
    ensures forall w: Write :: Progress(k, t, w).hash.fence == k.hash.fence && Progress(k, t, w).hash.verb == k.hash.verb
  {
  }

  /** No session's round trip changes the fence or the verb. */
  lemma AdvanceKeepsFence(cfg: Cfg, s: Sys, t: nat)
    requires t in s.sessions
    ensures var h, h' := s.keys.hash, AdvanceSession(cfg, s, t).keys.hash; h'.fence == h.fence && h'.verb == h.verb
  {
    ProgressKeepsFence(s.keys, t);
    hide Progress, PageWrite, RefsOf;
  }

  lemma FenceStep(cfg: Cfg, s: Sys, a: Action)
    ensures var h, h' := s.keys.hash, Next(cfg, s, a).keys.hash;
            h'.fence == (if a.TakeClaim? && s.keys.lease.None? then h.fence + 1 else h.fence) && h'.verb == h.verb
  {
    hide AdvanceSession;
    if a.Advance? && a.token in s.sessions {
      AdvanceKeepsFence(cfg, s, a.token);
    }
  }

  lemma {:induction false} FenceGrows(cfg: Cfg, s: Sys, actions: seq<Action>)
    ensures s.keys.hash.fence <= After(cfg, s, actions).keys.hash.fence
  {
    if actions != [] {
      var n := |actions| - 1;
      FenceGrows(cfg, s, actions[..n]);
      FenceStep(cfg, After(cfg, s, actions[..n]), actions[n]);
    }
  }

  /** A claim that succeeds mints a token above every token minted before it. */
  lemma TokensIncrease(cfg: Cfg, verb: Verb, actions: seq<Action>, inst: string)
    ensures var s := After(cfg, Init(verb), actions);
            var s' := Next(cfg, s, TakeClaim(inst));
            s.keys.lease.None? ==>
              && s'.sessions.Keys == s.sessions.Keys + {s'.keys.hash.fence}
              && forall t <- s.sessions :: t < s'.keys.hash.fence
  {
    hide After, KeysOk, Live;
    Reachable(cfg, verb, actions);
    var s := After(cfg, Init(verb), actions);
    forall t <- s.sessions
      ensures t <= s.keys.hash.fence
    {
      assert SessionOk(cfg, s.keys, s.hist, t, s.sessions[t].pc);
    }
  }

  predicate By(a: Action, t: nat) {
    || a == Advance(t) || (a.Act? && a.token == t)
    || a == FailSetup(t) || a == FailWrite(t) || a == Stop(t) || a == Crash(t)
  }

  /** Once a larger token has been minted, nothing session t does, at any later
      point of any schedule, changes the job: not its hash, sample or failures.
      The candidate list changes only by a drop whose own page went over the cap. */
  lemma {:induction false} StaleSessionsChangeNothing(cfg: Cfg, verb: Verb, before: seq<Action>, after: seq<Action>,
      t: nat, a: Action)
    requires By(a, t)
    requires t < After(cfg, Init(verb), before).keys.hash.fence
    ensures var s := After(cfg, Init(verb), before + after);
            var k, k' := s.keys, Next(cfg, s, a).keys;
            && k'.hash == k.hash && k'.sample == k.sample && k'.failures == k.failures
            && (k'.candidates == k.candidates || (k'.candidates == [] && k.hash.candidates > MAX_CANDIDATES))
            && (k'.lease == k.lease || k'.lease == None)
  {
    hide After, AllTasks, ActHist, ActFields;
    AfterConcat(cfg, Init(verb), before, after);
    FenceGrows(cfg, After(cfg, Init(verb), before), after);
    Reachable(cfg, verb, before + after);
    var s := After(cfg, Init(verb), before + after);
    if a == Advance(t) && t in s.sessions {
      assert SessionOk(cfg, s.keys, s.hist, t, s.sessions[t].pc);
      if s.sessions[t].pc != Dropping && s.sessions[t].pc != Releasing {
        StaleAdvance(cfg, s, t);
      }
    }
  }

  lemma {:induction false} VerbKept(cfg: Cfg, s: Sys, actions: seq<Action>)
    ensures After(cfg, s, actions).keys.hash.verb == s.keys.hash.verb
  {
    if actions != [] {
      var n := |actions| - 1;
      VerbKept(cfg, s, actions[..n]);
      FenceStep(cfg, After(cfg, s, actions[..n]), actions[n]);
    }
  }

  // --- enumeration ---

  lemma FoundIsPrefix(cfg: Cfg, n: nat)
    requires n <= |AllTasks(cfg.scope)|
    ensures RefsOf(cfg.scope, AllTasks(cfg.scope)[..n]) <= AllRefs(cfg.scope)
  {
    var all := AllTasks(cfg.scope);
    assert all == all[..n] + all[n..];
    RefsOfConcat(cfg.scope, all[..n], all[n..]);
  }

  /** At every moment of every schedule the lists are those of one
      uninterrupted pass stopped after `scanned` tasks, and the stored cursor
      leaves exactly the rest of that pass. */
  lemma {:induction false} ResumedEnumerationIsOnePass(cfg: Cfg, verb: Verb, actions: seq<Action>)
    ensures var k := After(cfg, Init(verb), actions).keys;
            && k.hash.scanned <= |AllTasks(cfg.scope)|
            && var found := RefsOf(cfg.scope, AllTasks(cfg.scope)[..k.hash.scanned]);
               && found <= AllRefs(cfg.scope)
               && k.hash.candidates == |found|
               && k.sample == found[..Min(|found|, SAMPLE_SIZE)]
               && (|AllRefs(cfg.scope)| <= MAX_CANDIDATES ==> k.candidates == found)
               && Rest(cfg.scope, k.hash.qidx, k.hash.groups, k.hash.gidx, k.hash.page) == AllTasks(cfg.scope)[k.hash.scanned..]
  {
    Reachable(cfg, verb, actions);
    FoundIsPrefix(cfg, After(cfg, Init(verb), actions).keys.hash.scanned);
  }

  /** A complete preview holds every match of the whole scope, each once, in
      scan order. */
  lemma {:induction false} CompletePreviewIsExact(cfg: Cfg, verb: Verb, actions: seq<Action>)
    requires After(cfg, Init(verb), actions).keys.hash.previewComplete
    ensures var k := After(cfg, Init(verb), actions).keys;
            && k.hash.scanned == |AllTasks(cfg.scope)|
            && k.hash.candidates == |AllRefs(cfg.scope)|
            && k.sample == AllRefs(cfg.scope)[..Min(|AllRefs(cfg.scope)|, SAMPLE_SIZE)]
            && (|AllRefs(cfg.scope)| <= MAX_CANDIDATES ==> k.candidates == AllRefs(cfg.scope))
  {
    Reachable(cfg, verb, actions);
    assert AllTasks(cfg.scope)[..|AllTasks(cfg.scope)|] == AllTasks(cfg.scope);
  }

  // --- execution ---

  lemma {:induction false} CountsSpelled(answers: seq<Fetch>, decisions: seq<Decision>)
    ensures ActedIn(decisions) == Tally(decisions, (d: Decision) => d == ActedOn)
    ensures SkippedIn(answers, decisions) ==
            Tally(answers, (f: Fetch) => f == Gone)
            + Tally(decisions, (d: Decision) => d == NoMatch) + Tally(decisions, (d: Decision) => d == AlreadyThere)
    ensures FailedIn(answers, decisions) ==
            Tally(answers, (f: Fetch) => f.FetchFailed?) + Tally(decisions, (d: Decision) => d.ActFailed?)
  {
    if answers != [] {
      CountsSpelled(answers[..|answers| - 1], decisions);
    } else if decisions != [] {
      CountsSpelled(answers, decisions[..|decisions| - 1]);
    }
  }

  /** The cursor never passes the list. The counts are those of the answers and
      decisions accepted: acted is how many acts succeeded, skipped how many
      tasks were gone, no longer matched or were already there, failed how many
      re-fetches and acts failed. Together they are what the cursor passed and
      what partial batches settled. */
  lemma {:induction false} ExecuteAccounts(cfg: Cfg, verb: Verb, actions: seq<Action>)
    ensures var s := After(cfg, Init(verb), actions);
            var h, answers, decisions := s.keys.hash, s.hist.answers, s.hist.decisions;
            && h.actCursor <= h.candidates
            && h.acted == Tally(decisions, (d: Decision) => d == ActedOn)
            && h.skipped == Tally(answers, (f: Fetch) => f == Gone)
                            + Tally(decisions, (d: Decision) => d == NoMatch) + Tally(decisions, (d: Decision) => d == AlreadyThere)
            && h.failed == Tally(answers, (f: Fetch) => f.FetchFailed?) + Tally(decisions, (d: Decision) => d.ActFailed?)
            && h.acted + h.skipped + h.failed == h.actCursor + s.hist.partial
  {
    Reachable(cfg, verb, actions);
    var s := After(cfg, Init(verb), actions);
    CountsSpelled(s.hist.answers, s.hist.decisions);
  }

  /** Under every schedule only tasks that matched when they were re-fetched
      have been acted on. */
  lemma {:induction false} OnlyMatchesActedOn(cfg: Cfg, verb: Verb, actions: seq<Action>)
    ensures forall t <- After(cfg, Init(verb), actions).hist.touched :: cfg.scope.matches(t)
  {
    Reachable(cfg, verb, actions);
  }

  ghost predicate Covers(b: Batch, p: nat) {
    b.lo <= p < b.lo + |b.refs|
  }

  lemma {:induction false} TilesBounded(full: seq<Batch>)
    requires Tiles(full)
    ensures forall m :: 0 <= m < |full| ==> full[m].lo + |full[m].refs| <= |Decided(full)|
  {
    if full != [] {
      var n := |full| - 1;
      TilesBounded(full[..n]);
      assert forall m :: 0 <= m < n ==> full[..n][m] == full[m];
    }
  }

  lemma {:induction false} TilesCover(full: seq<Batch>, p: nat) returns (i: nat)
    requires Tiles(full) && p < |Decided(full)|
    ensures i < |full| && Covers(full[i], p) && full[i].refs[p - full[i].lo] == Decided(full)[p]
    ensures forall m :: 0 <= m < |full| && Covers(full[m], p) ==> m == i
  {
    var n := |full| - 1;
    assert full == full[..n] + [full[n]];
    TilesBounded(full[..n]);
    if p < full[n].lo {
      i := TilesCover(full[..n], p);
      assert forall m :: 0 <= m < n ==> full[..n][m] == full[m];
    } else {
      i := n;
      assert forall m :: 0 <= m < n ==> full[..n][m] == full[m];
    }
  }

  lemma DecidedIsPrefix(cfg: Cfg, s: Sys)
    requires Inv(cfg, s) && |AllRefs(cfg.scope)| <= MAX_CANDIDATES
    ensures Decided(s.hist.full) <= AllRefs(cfg.scope)
  {
    FoundIsPrefix(cfg, s.keys.hash.scanned);
    assert Decided(s.hist.full) <= s.keys.candidates <= AllRefs(cfg.scope);
  }

  /** Each position below the cursor was decided in exactly one committed full
      batch, on the reference one single pass puts there. */
  lemma {:induction false} DecidedExactlyOnce(cfg: Cfg, verb: Verb, actions: seq<Action>, p: nat) returns (i: nat)
    requires p < After(cfg, Init(verb), actions).keys.hash.actCursor
    ensures var full := After(cfg, Init(verb), actions).hist.full;
            && i < |full| && Covers(full[i], p)
            && (forall m :: 0 <= m < |full| && Covers(full[m], p) ==> m == i)
            && (|AllRefs(cfg.scope)| <= MAX_CANDIDATES ==>
                  p < |AllRefs(cfg.scope)| && full[i].refs[p - full[i].lo] == AllRefs(cfg.scope)[p])
  {
    hide After, Tiles, EnumOk;
    Reachable(cfg, verb, actions);
    var s := After(cfg, Init(verb), actions);
    i := TilesCover(s.hist.full, p);
    if |AllRefs(cfg.scope)| <= MAX_CANDIDATES {
      DecidedIsPrefix(cfg, s);
    }
  }

  lemma {:induction false} TilesPrefix(full: seq<Batch>, n: nat)
    requires Tiles(full) && n <= |full|
    ensures Tiles(full[..n])
  {
    if n == |full| {
      assert full[..n] == full;
    } else {
      TilesPrefix(full[..|full| - 1], n);
      assert full[..|full| - 1][..n] == full[..n];
    }
  }

  lemma {:induction false} TokensAscend(full: seq<Batch>, a: nat, b: nat)
    requires Tiles(full) && a <= b < |full|
    ensures full[a].token <= full[b].token
    decreases b
  {
    TilesPrefix(full, b + 1);
    assert full[..b + 1][..b] == full[..b];
    if a < b {
      TokensAscend(full, a, b - 1);
      assert full[..b + 1][b] == full[b] && full[..b + 1][b - 1] == full[b - 1];
    }
  }

  /** Full batches are committed in token order: a superseded runner commits
      none after its successor has. */
  lemma {:induction false} BatchesInTokenOrder(cfg: Cfg, verb: Verb, actions: seq<Action>, a: nat, b: nat)
    requires a <= b < |After(cfg, Init(verb), actions).hist.full|
    ensures var full := After(cfg, Init(verb), actions).hist.full;
            full[a].token <= full[b].token <= After(cfg, Init(verb), actions).keys.hash.fence
  {
    hide After;
    Reachable(cfg, verb, actions);
    var full := After(cfg, Init(verb), actions).hist.full;
    TokensAscend(full, a, b);
    TokensAscend(full, b, |full| - 1);
  }

  /** A job whose scope fits the cap is done only when every match of the whole
      scope has been decided, in order. */
  lemma {:induction false} DoneMeansAllDecided(cfg: Cfg, verb: Verb, actions: seq<Action>)
    requires |AllRefs(cfg.scope)| <= MAX_CANDIDATES
    requires After(cfg, Init(verb), actions).keys.hash.state == Done
    ensures var s := After(cfg, Init(verb), actions);
            && s.keys.hash.actCursor == s.keys.hash.candidates == |AllRefs(cfg.scope)|
            && Decided(s.hist.full) == AllRefs(cfg.scope)
  {
    Reachable(cfg, verb, actions);
    CompletePreviewIsExact(cfg, verb, actions);
  }

  /** The failure report is the first MAX_FAILURE_REPORT of everything that
      failed, the overflow counts the rest, and the stored number of candidates
      is the length of the list until the list is dropped. */
  lemma {:induction false} ReportConserved(cfg: Cfg, verb: Verb, actions: seq<Action>)
    ensures var s := After(cfg, Init(verb), actions);
            var k, all := s.keys, s.hist.failures;
            && k.failures == all[..Min(|all|, MAX_FAILURE_REPORT)]
            && k.hash.failed == |all| == |k.failures| + k.hash.overflow
            && (s.hist.dropped || k.hash.candidates == |k.candidates|)
            && |k.sample| == Min(k.hash.candidates, SAMPLE_SIZE)
  {
    Reachable(cfg, verb, actions);
  }
}
