/** The vocabulary of a bulk job, the effect of every store script on the Redis
    keys of one job (as functions), and the store itself (as a class). */
module JobStore {
  import opened Collections
  import opened Listings

  datatype Verb = Run | Archive | Delete | Cancel | Count

  datatype Phase = Preview | Execute

  datatype State = Previewing | PreviewReady | Running | Paused | Canceled | Done | Failed {
    predicate IsTerminal() {
      this == Canceled || this == Done || this == Failed
    }

    /** Only these states need a worker. */
    predicate Claimable() {
      this == Previewing || this == Running
    }
  }

  datatype Ctl = NoCtl | PauseCtl | CancelCtl

  datatype Failure = Failure(ref: Ref, error: string)

  const SAMPLE_SIZE: nat := 10
  const MAX_FAILURE_REPORT: nat := 10000
  const MAX_CANDIDATES: nat := 1000000

  /** The job hash. `groups` is None when the stored value is "". */
  datatype Hash = Hash(
    verb: Verb, phase: Phase, state: State,
    previewComplete: bool, proceedOnPartial: bool, ctl: Ctl, fence: nat,
    candidates: nat, scanned: nat, acted: nat, skipped: nat, failed: nat, overflow: nat,
    queues: Option<seq<string>>, groups: Option<seq<string>>,
    qidx: nat, gidx: nat, page: nat, actCursor: nat)

  /** Every key the store keeps for one job. */
  datatype Keys = Keys(hash: Hash, candidates: seq<Ref>, sample: seq<Ref>,
                       failures: seq<Failure>, lease: Option<string>)

  function NewHash(verb: Verb): Hash {
    Hash(verb, Preview, Previewing, false, false, NoCtl, 0, 0, 0, 0, 0, 0, 0, None, None, 0, 0, 0, 0)
  }

  function NewKeys(verb: Verb): Keys {
    Keys(NewHash(verb), [], [], [], None)
  }

  /** The hash fields of one guarded write; None leaves the field alone. No
      writer ever names the fence or the preview_complete flag here. */
  datatype Patch = Patch(
    state: Option<State>, ctl: Option<Ctl>,
    candidates: Option<nat>, scanned: Option<nat>,
    acted: Option<nat>, skipped: Option<nat>, failed: Option<nat>, actCursor: Option<nat>,
    queues: Option<seq<string>>, groups: Option<Option<seq<string>>>,
    qidx: Option<nat>, gidx: Option<nat>, page: Option<nat>)

  const NO_FIELDS := Patch(None, None, None, None, None, None, None, None, None, None, None, None, None)

  datatype Write = Write(fields: Patch, candidates: seq<Ref>, sample: seq<Ref>, failures: seq<Failure>)

  function Or<T>(o: Option<T>, t: T): T {
    if o.Some? then o.value else t
  }

  function ApplyPatch(h: Hash, p: Patch): Hash {
    h.(state := Or(p.state, h.state), ctl := Or(p.ctl, h.ctl),
    candidates := Or(p.candidates, h.candidates), scanned := Or(p.scanned, h.scanned),
    acted := Or(p.acted, h.acted), skipped := Or(p.skipped, h.skipped),
    failed := Or(p.failed, h.failed), actCursor := Or(p.actCursor, h.actCursor),
    queues := if p.queues.Some? then p.queues else h.queues,
    groups := Or(p.groups, h.groups),
    qidx := Or(p.qidx, h.qidx), gidx := Or(p.gidx, h.gidx), page := Or(p.page, h.page))
  }

  /** Append to a list that never grows beyond `cap`. */
  function PushCapped<T>(list: seq<T>, more: seq<T>, cap: nat): seq<T> {
    if |list| >= cap then list else list + more[..Min(|more|, cap - |list|)]
  }

  /** Pushing one row at a time, each push guarded by the length, is PushCapped. */
  lemma PushCappedStep<T>(list: seq<T>, more: seq<T>, m: nat, cap: nat)
    requires m < |more|
    ensures var before := PushCapped(list, more[..m], cap);
            PushCapped(list, more[..m + 1], cap) == if |before| < cap then before + [more[m]] else before
  {
    if |list| + m < cap {
      assert more[..m + 1] == more[..m] + [more[m]];
    } else if |list| < cap {
      assert more[..m + 1][..cap - |list|] == more[..m][..cap - |list|];
    }
  }

  /** The guarded batch write: nothing at all unless the token is current. */
  function Progress(k: Keys, token: nat, w: Write): Keys
  {
    if k.hash.fence != token then k else
      var failures := PushCapped(k.failures, w.failures, MAX_FAILURE_REPORT);
      var h := ApplyPatch(k.hash, w.fields);
      Keys(h.(overflow := h.overflow + (|k.failures| + |w.failures| - |failures|)),
           k.candidates + w.candidates,
           PushCapped(k.sample, w.sample, SAMPLE_SIZE),
           failures, k.lease)
  }

  /** A stale write changes nothing. A current one appends every candidate,
      and of the rows as many as there is room for; what finds none is counted. */
  lemma GuardedWrite(k: Keys, token: nat, w: Write)
    ensures var k' := Progress(k, token, w);
            if k.hash.fence != token then k' == k
            else
              && k'.candidates == k.candidates + w.candidates && k'.lease == k.lease && k'.hash.fence == token
              && k.sample <= k'.sample <= k.sample + w.sample
              && k.failures <= k'.failures <= k.failures + w.failures
              && (|k.sample| <= SAMPLE_SIZE ==> |k'.sample| == Min(|k.sample| + |w.sample|, SAMPLE_SIZE))
              && |k'.failures| + k'.hash.overflow == |k.failures| + |w.failures| + k.hash.overflow
              && (|k.failures| < |k'.failures| || w.failures == [] || |k.failures| >= MAX_FAILURE_REPORT)
  {
    hide Or;
  }

  /** The preview_complete flip, and the preview_ready park when no execute
      request has landed yet. */
  function CompletePreview(k: Keys, token: nat): Keys {
    if k.hash.fence != token then k else
      k.(hash := k.hash.(previewComplete := true,
         state := if k.hash.phase == Preview then PreviewReady else k.hash.state))
  }

  /** Take the lease and mint the next token, in one step. */
  function Claim(k: Keys, inst: string): Keys {
    if k.lease.Some? then k else k.(lease := Some(inst), hash := k.hash.(fence := k.hash.fence + 1))
  }

  function Release(k: Keys, inst: string): Keys {
    if k.lease == Some(inst) then k.(lease := None) else k
  }

  /** The Redis keys of one job, changed in place by the store's scripts. */
  class Store {
    var hash: Hash
    var candidates: seq<Ref>
    var sample: seq<Ref>
    var failures: seq<Failure>
    var lease: Option<string>

    function View(): Keys
      reads this
    {
      Keys(hash, candidates, sample, failures, lease)
    }

    constructor (verb: Verb)
      ensures View() == NewKeys(verb)
    {
      hash := NewHash(verb);
      candidates, sample, failures, lease := [], [], [], None;
    }

    /** Make the store equal to a snapshot (what other clients left behind). */
    method Restore(k: Keys)
      modifies this
      ensures View() == k
    {
      hash, candidates, sample, failures, lease := k.hash, k.candidates, k.sample, k.failures, k.lease;
    }

    method ClaimLease(inst: string) returns (token: nat)
      modifies this
      ensures View() == Claim(old(View()), inst)
      ensures lease == Some(if old(lease).Some? then old(lease).value else inst)
      ensures hash == old(hash).(fence := old(hash).fence + if old(lease).None? then 1 else 0)
      ensures candidates == old(candidates) && sample == old(sample) && failures == old(failures)
      ensures token == if old(lease).None? then hash.fence else 0
    {
      if lease.Some? {
        return 0;
      }
      lease := Some(inst);
      hash := hash.(fence := hash.fence + 1);
      token := hash.fence;
    }

    method RenewClaim(inst: string) returns (held: bool)
      ensures held == (lease == Some(inst))
    {
      held := lease == Some(inst);
    }

    method ReleaseClaim(inst: string)
      modifies this
      ensures View() == Release(old(View()), inst)
      ensures lease == if old(lease) == Some(inst) then None else old(lease)
      ensures hash == old(hash) && candidates == old(candidates) && sample == old(sample) && failures == old(failures)
    {
      if lease == Some(inst) {
        lease := None;
      }
    }

    method WriteProgress(token: nat, w: Write) returns (ok: bool)
      modifies this
      ensures View() == Progress(old(View()), token, w)
      ensures ok == (old(hash).fence == token)
    {
      hide ApplyPatch;
      if hash.fence != token {
        return false;
      }
      hash := ApplyPatch(hash, w.fields);
      for c := 0 to |w.candidates|
        invariant candidates == old(candidates) + w.candidates[..c]
        invariant hash == ApplyPatch(old(hash), w.fields)
        invariant unchanged(`sample) && unchanged(`failures) && unchanged(`lease)
      {
        candidates := candidates + [w.candidates[c]];
      }
      for m := 0 to |w.sample|
        invariant sample == PushCapped(old(sample), w.sample[..m], SAMPLE_SIZE)
        invariant candidates == old(candidates) + w.candidates
        invariant hash == ApplyPatch(old(hash), w.fields)
        invariant unchanged(`failures) && unchanged(`lease)
      {
        PushCappedStep(old(sample), w.sample, m, SAMPLE_SIZE);
        if |sample| < SAMPLE_SIZE {
          sample := sample + [w.sample[m]];
        }
      }
      for f := 0 to |w.failures|
        invariant failures == PushCapped(old(failures), w.failures[..f], MAX_FAILURE_REPORT)
        invariant var h := ApplyPatch(old(hash), w.fields);
                  hash == h.(overflow := h.overflow + (|old(failures)| + f - |failures|))
        invariant candidates == old(candidates) + w.candidates
        invariant sample == PushCapped(old(sample), w.sample, SAMPLE_SIZE)
        invariant unchanged(`lease)
      {
        PushCappedStep(old(failures), w.failures, f, MAX_FAILURE_REPORT);
        if |failures| < MAX_FAILURE_REPORT {
          failures := failures + [w.failures[f]];
        } else {
          hash := hash.(overflow := hash.overflow + 1);
        }
      }
      ok := true;
    }

    method FinishPreview(token: nat) returns (ok: bool)
      modifies this
      ensures View() == CompletePreview(old(View()), token)
      ensures old(hash).fence != token ==> hash == old(hash)
      ensures old(hash).fence == token ==>
                && hash.previewComplete
                && hash.state == (if old(hash).phase == Preview then PreviewReady else old(hash).state)
      ensures candidates == old(candidates) && sample == old(sample) && failures == old(failures) && lease == old(lease)
      ensures ok == (old(hash).fence == token)
    {
      if hash.fence != token {
        return false;
      }
      hash := hash.(previewComplete := true);
      if hash.phase == Preview {
        hash := hash.(state := PreviewReady);
      }
      ok := true;
    }

    method DropCandidates()
      modifies this
      ensures View() == old(View()).(candidates := [])
    {
      candidates := [];
    }

    /** Clear the control flag and, with it, set a state. */
    method Wake(state: Option<State>)
      modifies this
      ensures View() == old(View()).(hash := old(hash).(ctl := NoCtl, state := Or(state, old(hash).state)))
    {
      hash := hash.(ctl := NoCtl, state := Or(state, hash.state));
    }

    /** A plain write of the control flag. */
    method SetCtl(ctl: Ctl)
      modifies this
      ensures View() == old(View()).(hash := old(hash).(ctl := ctl))
    {
      hash := hash.(ctl := ctl);
    }

    /** Write the state only while it is one of the expected ones. */
    method CasState(expected: set<State>, to: Hash -> Hash) returns (ok: bool)
      modifies this
      ensures ok == (old(hash).state in expected)
      ensures View() == if ok then old(View()).(hash := to(old(hash))) else old(View())
    {
      ok := hash.state in expected;
      if ok {
        hash := to(hash);
      }
    }
  }
}
