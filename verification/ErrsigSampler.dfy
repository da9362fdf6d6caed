/** The signature store between its three writers: the archived tail adds exact
    counts, the retry sampler replaces what it saw last time, and the
    population cap evicts. Each writes one batch, accepted only while its
    fencing token is current. */
module ErrsigSampler {
  import opened Collections
  import opened ErrsigMatrix
  import opened SortedSet

  const MAX_SIGNATURES: nat := 1000

  /** The zero time, in seconds: a signature not seen yet. */
  const NEVER: int := -62_135_596_800

  /** A signature's hash. The index scores it by `lastSeen`. */
  datatype Record = Record(archivedCount: nat, lastSeen: int, counts: seq<Cell>)

  /** What a sweep collected of one signature. */
  datatype Observation = Observation(counts: map<Key, nat>, last: int)

  type Observed = map<string, Observation>

  /** When a signature has been last seen after an observation. */
  function SeenAt(r: Option<Record>, o: Option<Observation>): (at: int)
    ensures at >= (if r.Some? then r.value.lastSeen else NEVER) && (o.Some? ==> at >= o.value.last)
    ensures at == (if r.Some? then r.value.lastSeen else NEVER) || (o.Some? && at == o.value.last)
  {
    var before := if r.Some? then r.value.lastSeen else NEVER;
    if o.Some? && o.value.last > before then o.value.last else before
  }

  predicate RecordOk(r: Record) {
    Distinct(r.counts) && r.archivedCount == ArchivedTotal(r.counts)
  }

  function RetryOf(r: Option<Record>, k: Key): nat {
    if r.Some? then RetryAt(r.value.counts, k) else 0
  }

  function ArchivedOf(r: Option<Record>, k: Key): nat {
    if r.Some? then ArchivedAt(r.value.counts, k) else 0
  }

  function Find<V>(m: map<string, V>, sig: string): Option<V> {
    if sig in m then Some(m[sig]) else None
  }

  function SeenIn(o: Option<Observation>, k: Key): nat {
    if o.Some? && k in o.value.counts then o.value.counts[k] else 0
  }

  /** What one sampler run reads: counts above zero, of swept queues only. */
  predicate RunOk(o: Option<Observation>, swept: set<string>) {
    o.Some? ==> forall k <- o.value.counts :: o.value.counts[k] > 0 && k.0 in swept
  }

  /** The swept queues hold exactly this run's observation; all else is as it was. */
  ghost predicate Resampled(rec: Option<Record>, seen: Option<Observation>, swept: set<string>, out: Option<Record>) {
    && (forall k: Key :: RetryOf(out, k) == if k.0 in swept then SeenIn(seen, k) else RetryOf(rec, k))
    && (forall k: Key :: ArchivedOf(out, k) == ArchivedOf(rec, k))
    && (out.Some? ==> out.value.lastSeen == SeenAt(rec, seen))
  }

  lemma NoCells()
    ensures Distinct([]) && ArchivedTotal([]) == 0
    ensures forall k: Key :: RetryAt([], k) == 0 && ArchivedAt([], k) == 0
  {
  }

  /** One signature resampled; None when nothing is left of it. */
  method Resample(rec: Option<Record>, seen: Option<Observation>, swept: set<string>) returns (out: Option<Record>)
    requires (rec.Some? ==> RecordOk(rec.value)) && RunOk(seen, swept)
    ensures out.Some? ==> RecordOk(out.value)
    ensures Resampled(rec, seen, swept, out)
  {
    hide Distinct, ArchivedTotal, RetryTotal, RetryAt, ArchivedAt;
    NoCells();
    if rec.None? && seen.None? {
      return None;
    }
    var r := if rec.Some? then rec.value else Record(0, NEVER, []);
    var s := new Signature(r.archivedCount, r.counts);
    s.ZeroSwept(swept);
    if seen.Some? {
      s.SetRetry(seen.value.counts);
    }
    s.DropEmpty();
    if s.archivedCount == 0 && RetryTotal(s.counts) == 0 {
      TotalsPositive(s.counts);
      forall k: Key
        ensures RetryAt(s.counts, k) == 0 == RetryOf(None, k) && ArchivedAt(s.counts, k) == 0 == ArchivedOf(None, k)
      {
      }
      return None;
    }
    out := Some(Record(s.archivedCount, SeenAt(rec, seen), s.counts));
  }

  ghost predicate Merged(rec: Option<Record>, add: Option<Observation>, out: Option<Record>) {
    && (forall k: Key :: RetryOf(out, k) == RetryOf(rec, k))
    && (forall k: Key :: ArchivedOf(out, k) == ArchivedOf(rec, k) + SeenIn(add, k))
    && (out.Some? ==> out.value.lastSeen == SeenAt(rec, add))
  }

  lemma MergedNothing(rec: Option<Record>)
    ensures Merged(rec, None, rec)
  {
  }

  ghost predicate Sampled(r: Option<Record>) {
    exists k: Key :: RetryOf(r, k) > 0
  }

  lemma MergedSampled(rec: Option<Record>, add: Option<Observation>, out: Option<Record>)
    requires Merged(rec, add, out)
    ensures Sampled(out) <==> Sampled(rec)
  {
    if Sampled(out) {
      var k: Key :| RetryOf(out, k) > 0;
      assert RetryOf(rec, k) > 0;
    }
    if Sampled(rec) {
      var k: Key :| RetryOf(rec, k) > 0;
      assert RetryOf(out, k) > 0;
    }
  }

  /** One signature after a tail sweep. */
  method Merge(rec: Option<Record>, add: Observation) returns (out: Record)
    requires rec.Some? ==> RecordOk(rec.value)
    ensures RecordOk(out) && Merged(rec, Some(add), Some(out))
  {
    hide Distinct, ArchivedTotal, RetryAt, ArchivedAt;
    NoCells();
    var r := if rec.Some? then rec.value else Record(0, NEVER, []);
    var s := new Signature(r.archivedCount, r.counts);
    s.AddArchived(add.counts);
    out := Record(s.archivedCount, SeenAt(rec, Some(add)), s.counts);
  }

  lemma SampledIff(r: Record)
    ensures RetryTotal(r.counts) > 0 <==> Sampled(Some(r))
  {
    TotalsPositive(r.counts);
    forall k: Key
      ensures RetryOf(Some(r), k) == RetryAt(r.counts, k)
    {
    }
    if RetryTotal(r.counts) > 0 {
      var k: Key :| RetryAt(r.counts, k) > 0;
      assert RetryOf(Some(r), k) > 0;
    }
    if Sampled(Some(r)) {
      var k: Key :| RetryOf(Some(r), k) > 0;
      assert RetryAt(r.counts, k) > 0;
    }
  }

  lemma NothingSampled()
    ensures !Sampled(None)
  {
  }

  /** Rewrite the signatures sampled before or observed now. */
  method ResampleAll(sigs: map<string, Record>, union: set<string>, observed: Observed, swept: set<string>)
    returns (next: map<string, Record>, still: set<string>)
    requires forall sig <- sigs :: RecordOk(sigs[sig])
    requires forall sig: string :: RunOk(Find(observed, sig), swept)
    ensures forall sig <- next :: RecordOk(next[sig])
    ensures forall sig: string :: sig !in union ==> Find(next, sig) == Find(sigs, sig)
    ensures forall sig: string :: sig in union ==>
              Resampled(Find(sigs, sig), Find(observed, sig), swept, Find(next, sig))
    ensures forall sig: string :: sig in still <==> sig in union && Sampled(Find(next, sig))
  {
    hide RecordOk, RunOk, Sampled, Resampled;
    var todo := union;
    next, still := sigs, {};
    while todo != {}
      invariant todo <= union
      invariant forall sig <- next :: RecordOk(next[sig])
      invariant forall sig: string :: sig !in union || sig in todo ==> Find(next, sig) == Find(sigs, sig)
      invariant forall sig: string :: sig in union && sig !in todo ==>
                  Resampled(Find(sigs, sig), Find(observed, sig), swept, Find(next, sig))
      invariant forall sig: string :: sig in still <==> sig in union && sig !in todo && Sampled(Find(next, sig))
      decreases |todo|
    {
      var sig :| sig in todo;
      var out := Resample(Find(sigs, sig), Find(observed, sig), swept);
      if out.None? {
        next := next - {sig};
        NothingSampled();
      } else {
        next := next[sig := out.value];
        SampledIff(out.value);
        if RetryTotal(out.value.counts) > 0 {
          still := still + {sig};
        }
      }
      todo := todo - {sig};
    }
  }

  /** One write of another holder. */
  datatype Write = Sample(observed: Observed, swept: set<string>) | Tail(agg: Observed) | Cap

  ghost predicate WriteOk(w: Write) {
    w.Sample? ==> forall sig: string :: RunOk(Find(w.observed, sig), w.swept)
  }

  /** What happens to the role between two commands of a holder: its lease
      expires, and with `writes` another instance claims it and writes. */
  datatype Turn = Expire | Claim(writes: seq<Write>)

  ghost predicate TurnsOk(turns: seq<Turn>) {
    forall i, k :: 0 <= i < |turns| && turns[i].Claim? && 0 <= k < |turns[i].writes| ==> WriteOk(turns[i].writes[k])
  }

  /** The signature index: every signature, scored by when it was last seen. */
  ghost predicate IsIndex(sigs: map<string, Record>, index: seq<Entry>) {
    && Ascending(index) && |index| == |sigs|
    && forall e: Entry :: e in index <==> e.id in sigs && sigs[e.id].lastSeen == e.score
  }

  lemma InsertCounts(s: seq<Entry>, e: Entry)
    requires Ascending(s) && e !in s
    ensures |Insert(s, e)| == |s| + 1
  {
    hide Filter, Before;
    BeforeIsOrder();
    FilterMembers(s, (x: Entry) => Before(x, e));
    FilterMembers(s, (x: Entry) => Before(e, x));
    var below, above := Filter(s, (x: Entry) => Before(x, e)), Filter(s, (x: Entry) => Before(e, x));
    JoinAscending(below, above);
    AscendingUnique(s, below + above);
  }

  method IndexOf(sigs: map<string, Record>) returns (index: seq<Entry>)
    ensures IsIndex(sigs, index)
  {
    index := [];
    var todo := sigs.Keys;
    while todo != {}
      invariant todo <= sigs.Keys && Ascending(index) && |index| == |sigs| - |todo|
      invariant forall e: Entry :: e in index <==> e.id in sigs && e.id !in todo && sigs[e.id].lastSeen == e.score
      decreases |todo|
    {
      hide Ascending;
      var sig :| sig in todo;
      var e := Entry(sigs[sig].lastSeen, sig);
      InsertMembers(index, e);
      InsertCounts(index, e);
      index, todo := Insert(index, e), todo - {sig};
    }
  }

  function Names(s: seq<Entry>): set<string> {
    set e | e in s :: e.id
  }

  /** A signature that was neither sampled nor observed is unchanged. */
  lemma LeftAlone(r: Option<Record>, swept: set<string>)
    requires !Sampled(r)
    ensures Resampled(r, None, swept, r)
  {
    forall k: Key
      ensures RetryOf(r, k) == 0
    {
    }
  }

  lemma UniqueIds(sigs: map<string, Record>, index: seq<Entry>)
    requires IsIndex(sigs, index)
    ensures forall i, j :: 0 <= i < j < |index| ==> index[i].id != index[j].id
  {
    forall i, j | 0 <= i < j < |index|
      ensures index[i].id != index[j].id
    {
      StringTotal(index[i].id, index[i].id);
      assert index[i] in index && index[j] in index;
    }
  }

  lemma {:induction false} NamesCount(sigs: map<string, Record>, index: seq<Entry>, n: nat)
    requires IsIndex(sigs, index) && n <= |index|
    ensures Names(index[..n]) <= sigs.Keys && |Names(index[..n])| == n
  {
    hide Ascending, Before;
    if n > 0 {
      var e := index[n - 1];
      NamesCount(sigs, index, n - 1);
      assert index[..n] == index[..n - 1] + [e];
      assert Names(index[..n]) == Names(index[..n - 1]) + {e.id};
      UniqueIds(sigs, index);
      assert e in index;
    }
  }

  /** The first `n` of the index are as many signatures, and older than the rest. */
  lemma EvictOldest(sigs: map<string, Record>, index: seq<Entry>, n: nat)
    requires IsIndex(sigs, index) && n <= |index|
    ensures Names(index[..n]) <= sigs.Keys && |sigs - Names(index[..n])| == |sigs| - n
    ensures forall first <- Names(index[..n]), sig <- sigs :: sig !in Names(index[..n]) ==>
              Before(Entry(sigs[first].lastSeen, first), Entry(sigs[sig].lastSeen, sig))
  {
    hide Before;
    var evict := Names(index[..n]);
    NamesCount(sigs, index, n);
    assert (sigs - evict).Keys == sigs.Keys - evict;
    assert forall m :: 0 <= m < n ==> index[m] in index[..n];
    forall first <- evict, sig <- sigs | sig !in evict
      ensures Before(Entry(sigs[first].lastSeen, first), Entry(sigs[sig].lastSeen, sig))
    {
      var e, x := Entry(sigs[first].lastSeen, first), Entry(sigs[sig].lastSeen, sig);
      assert e in index && x in index;
      var i :| 0 <= i < n && index[i].id == first;
      assert index[i] in index;
      var k :| 0 <= k < |index| && index[k] == x;
    }
  }

  /** The signature store under the fence of its writers' role. `leased` says
      that the newest token's minter still holds the lease; `turns` is what the
      other instances do while a holder is between its reads and its write. */
  class Store {
    var sigs: map<string, Record>
    var retrySigs: set<string>
    var fence: nat
    var leased: bool
    var turns: seq<seq<Turn>>

    /** The retry-sampled set is exactly the signatures with a positive retry
        count, and every archived count is the sum of its matrix. */
    ghost predicate Valid()
      reads this
    {
      && (forall sig <- sigs :: RecordOk(sigs[sig]))
      && (forall sig: string :: sig in retrySigs <==> Sampled(Find(sigs, sig)))
      && (forall i :: 0 <= i < |turns| ==> TurnsOk(turns[i]))
    }

    constructor (turns: seq<seq<Turn>>)
      requires forall i :: 0 <= i < |turns| ==> TurnsOk(turns[i])
      ensures Valid() && sigs == map[] && fence == 0
    {
      sigs, retrySigs, fence, leased, this.turns := map[], {}, 0, false, turns;
    }

    /** Nothing happens to the role during the next command. */
    predicate Undisturbed()
      reads `turns
    {
      turns == [] || turns[0] == []
    }

    /** Nobody writes without a newer token. */
    twostate predicate Fenced()
      reads this
    {
      fence >= old(fence) && (fence == old(fence) ==> sigs == old(sigs) && retrySigs == old(retrySigs))
    }

    /** Claim the role. */
    method Mint() returns (token: nat)
      requires Valid()
      modifies `fence, `leased
      ensures fence == token == old(fence) + 1 && leased
    {
      token := fence + 1;
      fence, leased := token, true;
    }

    /** The other instances act. */
    method Others()
      requires Valid()
      modifies this
      ensures Valid() && Fenced()
      ensures old(Undisturbed()) ==> fence == old(fence) && leased == old(leased)
    {
      hide RecordOk, Sampled, WriteOk;
      if turns == [] {
        return;
      }
      var turn := turns[0];
      turns := turns[1..];
      for i := 0 to |turn|
        invariant Valid() && Fenced() && (i == 0 ==> fence == old(fence) && leased == old(leased))
      {
        match turn[i] {
          case Expire => leased := false;
          case Claim(writes) =>
            var token := Mint();
            for k := 0 to |writes|
              invariant Valid() && Fenced() && fence > old(fence)
            {
              Put(writes[k]);
            }
        }
      }
    }

    method Put(w: Write)
      requires Valid() && WriteOk(w)
      modifies this
      ensures Valid() && fence == old(fence)
    {
      hide RecordOk, Sampled, RunOk;
      match w {
        case Sample(observed, swept) =>
          var next, still := Sampling(observed, swept);
          sigs, retrySigs := next, still;
        case Tail(agg) =>
          var next := Merging(agg);
          sigs := next;
        case Cap =>
          var evict := Oldest();
          Evict(evict);
      }
    }

    /** What a sampler run would write over what it has read. */
    method Sampling(observed: Observed, swept: set<string>) returns (next: map<string, Record>, still: set<string>)
      requires Valid() && forall sig: string :: RunOk(Find(observed, sig), swept)
      ensures forall sig <- next :: RecordOk(next[sig])
      ensures forall sig: string :: sig in still <==> Sampled(Find(next, sig))
      ensures forall sig: string :: Resampled(Find(sigs, sig), Find(observed, sig), swept, Find(next, sig))
    {
      hide RecordOk, RunOk, Sampled, Resampled;
      next, still := ResampleAll(sigs, retrySigs + observed.Keys, observed, swept);
      forall sig: string
        ensures Resampled(Find(sigs, sig), Find(observed, sig), swept, Find(next, sig))
        ensures Sampled(Find(next, sig)) <==> sig in still
      {
        if sig !in retrySigs + observed.Keys {
          LeftAlone(Find(sigs, sig), swept);
        }
      }
    }

    /** What a tail sweep would write over what it has read. */
    method Merging(agg: Observed) returns (next: map<string, Record>)
      requires Valid()
      ensures forall sig <- next :: RecordOk(next[sig])
      ensures forall sig: string :: sig in retrySigs <==> Sampled(Find(next, sig))
      ensures forall sig: string :: Merged(Find(sigs, sig), Find(agg, sig), Find(next, sig))
    {
      hide RecordOk, Sampled, Merged;
      var todo := agg.Keys;
      next := sigs;
      while todo != {}
        invariant todo <= agg.Keys
        invariant forall sig <- next :: RecordOk(next[sig])
        invariant forall sig: string :: sig !in agg || sig in todo ==> Find(next, sig) == Find(sigs, sig)
        invariant forall sig: string :: sig in agg && sig !in todo ==>
                    Merged(Find(sigs, sig), Find(agg, sig), Find(next, sig))
        decreases |todo|
      {
        var sig :| sig in todo;
        var out := Merge(Find(next, sig), agg[sig]);
        next, todo := next[sig := out], todo - {sig};
      }
      forall sig: string
        ensures Merged(Find(sigs, sig), Find(agg, sig), Find(next, sig))
        ensures Sampled(Find(next, sig)) <==> Sampled(Find(sigs, sig))
      {
        if sig !in agg {
          MergedNothing(Find(sigs, sig));
        }
        MergedSampled(Find(sigs, sig), Find(agg, sig), Find(next, sig));
      }
    }

    /** One sampler run. It is accepted if and only if its token is still the
        newest and its lease is held when the write arrives; then every retry
        count of a swept queue is this run's observation, and every retry count
        of another queue and every archived count is what it was when the run
        began, whatever the other instances did in between. */
    method SampleRetry(token: nat, observed: Observed, swept: set<string>) returns (ok: bool)
      requires Valid() && token <= fence && forall sig: string :: RunOk(Find(observed, sig), swept)
      modifies this
      ensures Valid() && ok == (token == fence && leased)
      ensures old(Undisturbed()) ==> ok == (token == old(fence) && old(leased))
      ensures !ok ==> Fenced()
      ensures ok ==> fence == old(fence) && forall sig: string ::
                Resampled(Find(old(sigs), sig), Find(observed, sig), swept, Find(sigs, sig))
    {
      hide RecordOk, RunOk, Sampled, Resampled, WriteOk;
      var next, still := Sampling(observed, swept);
      Others();
      ok := token == fence && leased;
      if ok {
        sigs, retrySigs := next, still;
      }
    }

    /** One tail merge: the exact counts accumulate, the sampled ones stand. */
    method MergeTail(token: nat, agg: Observed) returns (ok: bool)
      requires Valid() && token <= fence
      modifies this
      ensures Valid() && ok == (token == fence && leased)
      ensures old(Undisturbed()) ==> ok == (token == old(fence) && old(leased))
      ensures !ok ==> Fenced()
      ensures ok ==> fence == old(fence) && retrySigs == old(retrySigs)
      ensures ok ==> forall sig: string :: Merged(Find(old(sigs), sig), Find(agg, sig), Find(sigs, sig))
    {
      hide RecordOk, Sampled, Merged, WriteOk;
      var next := Merging(agg);
      Others();
      ok := token == fence && leased;
      if ok {
        sigs := next;
      }
    }

    /** The signatures beyond the population cap. */
    method Oldest() returns (evict: set<string>)
      ensures evict <= sigs.Keys && |sigs - evict| == Min(|sigs|, MAX_SIGNATURES)
      ensures forall gone <- evict, sig <- sigs :: sig !in evict ==>
                Before(Entry(sigs[gone].lastSeen, gone), Entry(sigs[sig].lastSeen, sig))
    {
      hide Before;
      var index := IndexOf(sigs);
      if |index| <= MAX_SIGNATURES {
        assert sigs - {} == sigs;
        return {};
      }
      var n := |index| - MAX_SIGNATURES;
      evict := Names(index[..n]);
      EvictOldest(sigs, index, n);
    }

    method Evict(evict: set<string>)
      requires Valid()
      modifies `sigs, `retrySigs
      ensures Valid() && sigs == old(sigs) - evict
    {
      hide RecordOk, Sampled;
      NothingSampled();
      sigs, retrySigs := sigs - evict, retrySigs - evict;
    }

    /** The population cap: beyond it the signatures seen longest ago go, from
        the index and from the sampled set alike, and no more than it takes. */
    method EnforceCap(token: nat) returns (ok: bool)
      requires Valid() && token <= fence
      modifies this
      ensures Valid()
      ensures !ok ==> |old(sigs)| > MAX_SIGNATURES && !(token == fence && leased) && Fenced()
      ensures old(Undisturbed()) ==> ok == (|old(sigs)| <= MAX_SIGNATURES || (token == old(fence) && old(leased)))
      ensures ok && fence == old(fence) ==>
                && |sigs| == Min(|old(sigs)|, MAX_SIGNATURES)
                && (forall sig <- sigs :: sig in old(sigs) && sigs[sig] == old(sigs)[sig])
                && forall sig <- sigs, gone <- old(sigs) :: gone !in sigs ==>
                     Before(Entry(old(sigs)[gone].lastSeen, gone), Entry(sigs[sig].lastSeen, sig))
      ensures ok && fence != old(fence) ==> |old(sigs)| <= MAX_SIGNATURES
    {
      hide RecordOk, Sampled, Before, WriteOk;
      var evict := Oldest();
      Others();
      if evict == {} {
        return true;
      }
      ok := token == fence && leased;
      if ok {
        Evict(evict);
      }
    }
  }
}
