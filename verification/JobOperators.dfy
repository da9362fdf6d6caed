/** The operator requests: each reads the job, applies its gate, and writes
    later; runners and other operators act in between. */
module JobOperators {
  import opened Collections
  import opened JobStore
  import opened JobProtocol
  import opened JobInvariant
  import opened JobRunner

  datatype Outcome = Accepted | WrongState | PreviewIncomplete | PartialNotAcked

  /** One operator request against the job. */
  class Operator {
    const w: World
    const op: nat

    constructor (w: World, op: nat)
      ensures this.w == w && this.op == op
    {
      this.w, this.op := w, op;
    }

    /** The job as it was before action `n` of the schedule. */
    ghost function SeenAt(n: nat): Hash
      requires n <= |w.trace|
      reads w
    {
      After(w.cfg, Init(w.verb), w.trace[..n]).keys.hash
    }

    /** No runner works such a job. */
    static predicate Dormant(h: Hash) {
      (h.state == PreviewReady && h.phase == Preview) || h.state == Paused
    }

    /** The read of a request. */
    ghost predicate IsRead(a: Action) {
      (a.ExecuteRead? || a.CancelRead? || a.PauseRead? || a.ResumeRead?) && a.op == op
    }

    /** What the read leaves to be written. */
    ghost predicate Noted(h: Hash, a: Action)
      reads w
    {
      match a
      case ExecuteRead(_, proceed) =>
        ExecuteGate(h, proceed) ==> op in w.sys.ops && w.sys.ops[op] == ExecuteGated(proceed)
      case CancelRead(_) =>
        !h.state.IsTerminal() ==> op in w.sys.ops && w.sys.ops[op] == if Dormant(h) then CancelCas else CancelFlag
      case PauseRead(_) => h.state.Claimable() ==> op in w.sys.ops && w.sys.ops[op] == PauseGated
      case ResumeRead(_) =>
        ResumeGate(h) ==> op in w.sys.ops && w.sys.ops[op] == ResumeGated(h.state == Paused, h.phase == Execute)
      case _ => false
    }

    /** Read the job: `n` is the position of this action in the schedule. */
    method Read(a: Action) returns (h: Hash, ghost n: nat)
      requires w.Valid() && op !in w.sys.ops && IsRead(a)
      modifies w, w.store
      ensures w.Valid() && old(w.trace) < w.trace && n + 1 == |w.trace| && old(|w.trace|) <= n && w.trace[n] == a
      ensures h == SeenAt(n) == w.store.hash && Noted(h, a)
      ensures w.turn >= old(w.turn) && (old(w.turn) >= |w.feed| ==> h == old(w.store.hash))
    {
      hide Inv, After, AdvanceSession, ActBatch;
      w.Others(RequestOf(op));
      ghost var before := w.trace;
      h, n := w.store.hash, |w.trace|;
      w.Log(a);
      assert w.trace[..n] == before;
    }

    /** The others act; what was read stays what it was. */
    method Wait(ghost n: nat)
      requires w.Valid() && n < |w.trace|
      modifies w, w.store
      ensures w.Valid() && old(w.trace) <= w.trace && SeenAt(n) == old(SeenAt(n)) && w.turn >= old(w.turn)
      ensures op in old(w.sys).ops ==> op in w.sys.ops && w.sys.ops[op] == old(w.sys).ops[op]
      ensures old(w.turn) >= |w.feed| ==> w.store.hash == old(w.store.hash)
    {
      hide After, Inv;
      ghost var before := w.trace;
      w.Others(RequestOf(op));
      assert w.trace[..n] == before[..n];
    }

    /** The write of a request: the schedule's last action. */
    method Wrote(a: Action, ghost n: nat)
      requires w.sys == After(w.cfg, Init(w.verb), w.trace) && n < |w.trace| && !a.FailSetup?
      requires w.store.View() == Next(w.cfg, w.sys, a).keys
      modifies w
      ensures w.Valid() && w.trace == old(w.trace) + [a] && SeenAt(n) == old(SeenAt(n)) && w.turn == old(w.turn)
      ensures SeenAt(|w.trace| - 1) == old(w.sys).keys.hash && w.sys == Next(w.cfg, old(w.sys), a)
    {
      hide After, Inv, Next;
      ghost var before := w.trace;
      w.Log(a);
      assert w.trace[..n] == before[..n] && w.trace[..|w.trace| - 1] == before;
    }

    /** The gate of an execute request, in the order it is applied. */
    static function Gate(h: Hash, proceed: bool): (r: Outcome)
      ensures r == Accepted <==> ExecuteGate(h, proceed)
      ensures r == WrongState <==>
                h.phase != Preview || h.verb == Count || (h.state != Previewing && h.state != PreviewReady)
      ensures r == PreviewIncomplete ==> h.verb == Delete && !h.previewComplete
      ensures r == PartialNotAcked ==> h.verb != Delete && !h.previewComplete && !proceed
    {
      if h.phase != Preview || (h.state != Previewing && h.state != PreviewReady) then WrongState
      else if h.verb == Count then WrongState
      else if !h.previewComplete && h.verb == Delete then PreviewIncomplete
      else if !h.previewComplete && !proceed then PartialNotAcked
      else Accepted
    }

    /** What the gate demanded holds of an executing job. */
    lemma GateHeld()
      requires w.Valid()
      ensures var h := w.store.hash;
              h.phase == Execute ==> h.verb != Count && (h.previewComplete || (h.verb != Delete && h.proceedOnPartial))
    {
      hide After, EnumOk, CountsOk, CursorTiles, SessionOk;
      w.Invariant();
    }

    /** Execute: refused by the gate on what was read, action `n`, or by the
        state on what is written over, the last action; accepted, the job runs,
        and a delete runs only on a complete preview. */
    method RequestExecute(proceed: bool) returns (r: Outcome, ghost n: nat)
      requires w.Valid() && op !in w.sys.ops
      modifies w, w.store
      ensures w.Valid() && old(w.trace) <= w.trace && old(|w.trace|) <= n < |w.trace| && w.trace[n] == ExecuteRead(op, proceed)
      ensures Gate(SeenAt(n), proceed) != Accepted ==> r == Gate(SeenAt(n), proceed)
      ensures Gate(SeenAt(n), proceed) == Accepted ==>
                r == if SeenAt(|w.trace| - 1).state == Previewing || SeenAt(|w.trace| - 1).state == PreviewReady
                     then Accepted else WrongState
      ensures old(w.turn) >= |w.feed| ==> r == Gate(old(w.sys).keys.hash, proceed)
      ensures r == Accepted ==>
                && w.store.hash.phase == Execute && w.store.hash.state == Running
                && w.store.hash.proceedOnPartial == proceed
                && w.store.hash.verb != Count
                && (w.store.hash.previewComplete || (w.store.hash.verb != Delete && proceed))
    {
      hide After, Inv, AdvanceSession, ActBatch;
      var h;
      h, n := Read(ExecuteRead(op, proceed));
      r := Gate(h, proceed);
      if r != Accepted {
        return;
      }
      Wait(n);
      var ok := w.store.CasState({Previewing, PreviewReady},
        (h: Hash) => h.(phase := Execute, state := Running, proceedOnPartial := proceed));
      Wrote(ExecuteWrite(op), n);
      GateHeld();
      if !ok {
        r := WrongState;
      }
    }

    /** Cancel on the spot a job that is still dormant. */
    method CancelDormant(ghost n: nat) returns (ok: bool)
      requires w.Valid() && n < |w.trace| && op in w.sys.ops && w.sys.ops[op] == CancelCas
      modifies w, w.store
      ensures w.Valid() && old(w.trace) < w.trace && old(w.turn) <= w.turn && SeenAt(n) == old(SeenAt(n))
      ensures if ok then w.store.hash.state == Canceled && w.store.hash.ctl == NoCtl
              else op in w.sys.ops && w.sys.ops[op] == CancelFlag
      ensures old(w.turn) >= |w.feed| && (old(w.store.hash).state == PreviewReady || old(w.store.hash).state == Paused) ==> ok
    {
      hide Inv, After, AdvanceSession, ActBatch;
      Wait(n);
      ok := w.store.CasState({PreviewReady, Paused}, (h: Hash) => h.(state := Canceled, ctl := NoCtl));
      Wrote(CancelWrite(op), n);
    }

    /** Cancel: refused to a job that was read, action `n`, in a terminal state.
        A dormant job is canceled on the spot unless it woke up since it was
        read; otherwise the request is left for whoever works it. */
    method RequestCancel() returns (r: Outcome, ghost n: nat)
      requires w.Valid() && op !in w.sys.ops
      modifies w, w.store
      ensures w.Valid() && old(w.trace) < w.trace && old(|w.trace|) <= n < |w.trace| && w.trace[n] == CancelRead(op)
      ensures r == (if SeenAt(n).state.IsTerminal() then WrongState else Accepted)
      ensures r == Accepted ==> w.store.hash.ctl == CancelCtl || (w.store.hash.state == Canceled && w.store.hash.ctl == NoCtl)
      ensures r == Accepted && !Dormant(SeenAt(n)) ==> w.store.hash.ctl == CancelCtl
      ensures old(w.turn) >= |w.feed| && Dormant(old(w.store.hash)) ==> w.store.hash.state == Canceled
    {
      hide Inv, After, AdvanceSession, ActBatch;
      var h;
      h, n := Read(CancelRead(op));
      if h.state.IsTerminal() {
        return WrongState, n;
      }
      if Dormant(h) {
        var ok := CancelDormant(n);
        if ok {
          return Accepted, n;
        }
      }
      Wait(n);
      w.store.SetCtl(CancelCtl);
      Wrote(CancelWrite(op), n);
      r := Accepted;
    }

    /** Pause: refused to a job that was read, action `n`, in a state no runner
        works; else the request is left for the runner. */
    method RequestPause() returns (r: Outcome, ghost n: nat)
      requires w.Valid() && op !in w.sys.ops
      modifies w, w.store
      ensures w.Valid() && old(w.trace) < w.trace && old(|w.trace|) <= n < |w.trace| && w.trace[n] == PauseRead(op)
      ensures r == (if SeenAt(n).state == Previewing || SeenAt(n).state == Running then Accepted else WrongState)
      ensures if r == Accepted then w.store.hash.ctl == PauseCtl else w.store.hash == SeenAt(n)
    {
      hide Inv, After, AdvanceSession, ActBatch;
      var h;
      h, n := Read(PauseRead(op));
      if !h.state.Claimable() {
        return WrongState, n;
      }
      Wait(n);
      w.store.SetCtl(PauseCtl);
      Wrote(PauseWrite(op), n);
      r := Accepted;
    }

    /** Resume: refused to a job that was read, action `n`, neither paused nor
        with a pending pause. A paused job goes back to the state of its phase,
        and a pending pause is withdrawn, whatever happened since. */
    method RequestResume() returns (r: Outcome, woken: bool, ghost n: nat)
      requires w.Valid() && op !in w.sys.ops
      modifies w, w.store
      ensures w.Valid() && old(w.trace) < w.trace && old(|w.trace|) <= n < |w.trace| && w.trace[n] == ResumeRead(op)
      ensures r == Accepted <==>
                SeenAt(n).state == Paused
                || (SeenAt(n).ctl == PauseCtl && (SeenAt(n).state == Previewing || SeenAt(n).state == Running))
      ensures woken <==> SeenAt(n).state == Paused
      ensures r == Accepted ==> w.store.hash.ctl == NoCtl
      ensures woken ==> w.store.hash.state == if SeenAt(n).phase == Execute then Running else Previewing
      ensures r == Accepted || (r == WrongState && w.store.hash == SeenAt(n))
    {
      hide Inv, After, AdvanceSession, ActBatch;
      var h;
      h, n := Read(ResumeRead(op));
      woken := h.state == Paused;
      if h.state != Paused && !(h.ctl == PauseCtl && h.state.Claimable()) {
        return WrongState, false, n;
      }
      Wait(n);
      w.store.Wake(if !woken then None else if h.phase == Execute then Some(Running) else Some(Previewing));
      Wrote(ResumeWrite(op), n);
      r := Accepted;
    }
  }
}
