/** A signature's queue-by-type count matrix, and the two ways it changes: exact
    archived counts accumulate, sampled retry counts are replaced. */
module ErrsigMatrix {

  datatype Cell = Cell(queue: string, typ: string, archived: nat, retry: nat)

  type Key = (string, string)

  function KeyOf(c: Cell): Key {
    (c.queue, c.typ)
  }

  function ArchivedTotal(cs: seq<Cell>): nat {
    if cs == [] then 0 else ArchivedTotal(cs[..|cs| - 1]) + cs[|cs| - 1].archived
  }

  function RetryTotal(cs: seq<Cell>): nat {
    if cs == [] then 0 else RetryTotal(cs[..|cs| - 1]) + cs[|cs| - 1].retry
  }

  /** The counts a matrix holds for one (queue, type). */
  function ArchivedAt(cs: seq<Cell>, k: Key): nat {
    if cs == [] then 0 else
      ArchivedAt(cs[..|cs| - 1], k) + if KeyOf(cs[|cs| - 1]) == k then cs[|cs| - 1].archived else 0
  }

  function RetryAt(cs: seq<Cell>, k: Key): nat {
    if cs == [] then 0 else
      RetryAt(cs[..|cs| - 1], k) + if KeyOf(cs[|cs| - 1]) == k then cs[|cs| - 1].retry else 0
  }

  /** No (queue, type) has two cells. */
  predicate Distinct(cs: seq<Cell>) {
    forall i, j :: 0 <= i < j < |cs| ==> KeyOf(cs[i]) != KeyOf(cs[j])
  }

  lemma {:induction false} EntryWithinTotal(cs: seq<Cell>, k: Key)
    ensures RetryAt(cs, k) <= RetryTotal(cs) && ArchivedAt(cs, k) <= ArchivedTotal(cs)
  {
    if cs != [] {
      EntryWithinTotal(cs[..|cs| - 1], k);
    }
  }

  lemma {:induction false} SomeEntry(cs: seq<Cell>) returns (r: Key, a: Key)
    ensures RetryTotal(cs) > 0 ==> RetryAt(cs, r) > 0
    ensures ArchivedTotal(cs) > 0 ==> ArchivedAt(cs, a) > 0
  {
    r, a := ("", ""), ("", "");
    if cs != [] {
      var c := cs[|cs| - 1];
      r, a := SomeEntry(cs[..|cs| - 1]);
      if c.retry > 0 {
        r := KeyOf(c);
      }
      if c.archived > 0 {
        a := KeyOf(c);
      }
    }
  }

  /** A total is positive exactly when some entry is. */
  lemma TotalsPositive(cs: seq<Cell>)
    ensures RetryTotal(cs) > 0 <==> exists k: Key :: RetryAt(cs, k) > 0
    ensures ArchivedTotal(cs) > 0 <==> exists k: Key :: ArchivedAt(cs, k) > 0
  {
    var r, a := SomeEntry(cs);
    forall k: Key {
      EntryWithinTotal(cs, k);
    }
  }

  lemma {:induction false} Absent(cs: seq<Cell>, k: Key)
    requires forall i :: 0 <= i < |cs| ==> KeyOf(cs[i]) != k
    ensures RetryAt(cs, k) == 0 && ArchivedAt(cs, k) == 0
  {
    if cs != [] {
      Absent(cs[..|cs| - 1], k);
    }
  }

  lemma {:induction false} ReplacedAt(cs: seq<Cell>, i: nat, c: Cell, k: Key)
    requires Distinct(cs) && i < |cs| && KeyOf(c) == KeyOf(cs[i])
    ensures RetryAt(cs[i := c], k) == if k == KeyOf(c) then c.retry else RetryAt(cs, k)
    ensures ArchivedAt(cs[i := c], k) == if k == KeyOf(c) then c.archived else ArchivedAt(cs, k)
    ensures ArchivedTotal(cs[i := c]) == ArchivedTotal(cs) - cs[i].archived + c.archived
  {
    var n := |cs| - 1;
    assert KeyOf(cs[n]) == KeyOf(c) <==> i == n;
    if i < n {
      assert cs[i := c][..n] == cs[..n][i := c];
      ReplacedAt(cs[..n], i, c, k);
    } else {
      assert cs[i := c][..n] == cs[..n];
      Absent(cs[..n], KeyOf(c));
    }
  }

  /** A cell that changes changes what the matrix holds for its key alone. */
  lemma Replaced(cs: seq<Cell>, i: nat, c: Cell)
    requires Distinct(cs) && i < |cs| && KeyOf(c) == KeyOf(cs[i])
    ensures Distinct(cs[i := c])
    ensures forall k: Key :: RetryAt(cs[i := c], k) == if k == KeyOf(c) then c.retry else RetryAt(cs, k)
    ensures forall k: Key :: ArchivedAt(cs[i := c], k) == if k == KeyOf(c) then c.archived else ArchivedAt(cs, k)
    ensures ArchivedTotal(cs[i := c]) == ArchivedTotal(cs) - cs[i].archived + c.archived
  {
    hide RetryAt, ArchivedAt, ArchivedTotal;
    forall k: Key {
      ReplacedAt(cs, i, c, k);
    }
    ReplacedAt(cs, i, c, KeyOf(c));
  }

  lemma At(cs: seq<Cell>, i: nat)
    requires Distinct(cs) && i < |cs|
    ensures RetryAt(cs, KeyOf(cs[i])) == cs[i].retry && ArchivedAt(cs, KeyOf(cs[i])) == cs[i].archived
  {
    Replaced(cs, i, cs[i]);
    assert cs[i := cs[i]] == cs;
  }

  lemma Appended(cs: seq<Cell>, c: Cell)
    ensures forall k: Key :: RetryAt(cs + [c], k) == RetryAt(cs, k) + if k == KeyOf(c) then c.retry else 0
    ensures forall k: Key :: ArchivedAt(cs + [c], k) == ArchivedAt(cs, k) + if k == KeyOf(c) then c.archived else 0
    ensures ArchivedTotal(cs + [c]) == ArchivedTotal(cs) + c.archived
    ensures RetryTotal(cs + [c]) == RetryTotal(cs) + c.retry
  {
    assert (cs + [c])[..|cs|] == cs;
  }

  ghost predicate SameTallies(a: seq<Cell>, b: seq<Cell>) {
    && (forall k: Key :: RetryAt(a, k) == RetryAt(b, k) && ArchivedAt(a, k) == ArchivedAt(b, k))
    && ArchivedTotal(a) == ArchivedTotal(b)
  }

  lemma TalliesGrow(a: seq<Cell>, b: seq<Cell>, c: Cell)
    requires SameTallies(a, b)
    ensures SameTallies(a + [c], b + [c])
    ensures c.archived == c.retry == 0 ==> SameTallies(a, b + [c])
  {
    hide RetryAt, ArchivedAt, ArchivedTotal;
    Appended(a, c);
    Appended(b, c);
  }

  /** Dropping an empty cell, or keeping any cell, keeps the tallies. */
  lemma KeepOrDrop(kept: seq<Cell>, cs: seq<Cell>, i: nat)
    requires Distinct(cs) && Distinct(kept) && i < |cs| && SameTallies(kept, cs[..i])
    requires forall c :: c in kept ==> c in cs[..i]
    ensures Distinct(kept + [cs[i]]) && SameTallies(kept + [cs[i]], cs[..i + 1])
    ensures cs[i].archived == cs[i].retry == 0 ==> SameTallies(kept, cs[..i + 1])
  {
    hide SameTallies;
    assert cs[..i + 1] == cs[..i] + [cs[i]];
    TalliesGrow(kept, cs[..i], cs[i]);
    forall j | 0 <= j < |kept|
      ensures KeyOf(kept[j]) != KeyOf(cs[i])
    {
      assert kept[j] in cs[..i];
    }
  }

  lemma {:induction false} ZeroAt(cs: seq<Cell>, k: Key)
    requires forall j :: 0 <= j < |cs| && KeyOf(cs[j]) == k ==> cs[j].retry == 0
    ensures RetryAt(cs, k) == 0
  {
    if cs != [] {
      ZeroAt(cs[..|cs| - 1], k);
    }
  }

  /** One tracked signature; its archived count is kept beside its matrix. */
  class Signature {
    var archivedCount: nat
    var counts: seq<Cell>

    ghost predicate Valid()
      reads this
    {
      Distinct(counts) && archivedCount == ArchivedTotal(counts)
    }

    constructor (archivedCount: nat, counts: seq<Cell>)
      requires Distinct(counts) && archivedCount == ArchivedTotal(counts)
      ensures Valid() && this.archivedCount == archivedCount && this.counts == counts
    {
      this.archivedCount, this.counts := archivedCount, counts;
    }

    /** The index of the cell for (queue, type), created empty if absent. */
    method CellOf(k: Key) returns (i: nat)
      requires Valid()
      modifies this
      ensures Valid() && i < |counts| && KeyOf(counts[i]) == k && archivedCount == old(archivedCount)
      ensures counts[i].retry == RetryAt(old(counts), k) && counts[i].archived == ArchivedAt(old(counts), k)
      ensures forall x: Key :: RetryAt(counts, x) == RetryAt(old(counts), x)
      ensures forall x: Key :: ArchivedAt(counts, x) == ArchivedAt(old(counts), x)
    {
      for j := 0 to |counts|
        invariant forall m :: 0 <= m < j ==> KeyOf(counts[m]) != k
        invariant unchanged(this)
      {
        if KeyOf(counts[j]) == k {
          At(counts, j);
          return j;
        }
      }
      Absent(counts, k);
      Appended(counts, Cell(k.0, k.1, 0, 0));
      i := |counts|;
      counts := counts + [Cell(k.0, k.1, 0, 0)];
    }

    /** Add archived observations: the matrix and the count beside it move together. */
    method AddArchived(add: map<Key, nat>)
      requires Valid()
      modifies this
      ensures Valid()
      ensures forall k: Key :: ArchivedAt(counts, k) == ArchivedAt(old(counts), k) + if k in add then add[k] else 0
      ensures forall k: Key :: RetryAt(counts, k) == RetryAt(old(counts), k)
    {
      var todo := add.Keys;
      while todo != {}
        invariant todo <= add.Keys && Valid()
        invariant forall k: Key :: RetryAt(counts, k) == RetryAt(old(counts), k)
        invariant forall k: Key :: ArchivedAt(counts, k) ==
                    ArchivedAt(old(counts), k) + if k in add && k !in todo then add[k] else 0
        decreases |todo|
      {
        var k :| k in todo;
        var i := CellOf(k);
        var c := counts[i].(archived := counts[i].archived + add[k]);
        Replaced(counts, i, c);
        counts, archivedCount := counts[i := c], archivedCount + add[k];
        todo := todo - {k};
      }
    }

    /** Forget the retry counts of the swept queues. */
    method ZeroSwept(swept: set<string>)
      requires Valid()
      modifies this
      ensures Valid()
      ensures forall k: Key :: RetryAt(counts, k) == if k.0 in swept then 0 else RetryAt(old(counts), k)
      ensures forall k: Key :: ArchivedAt(counts, k) == ArchivedAt(old(counts), k)
    {
      ghost var before := counts;
      assert before[..0] == [] && before[0..] == before;
      for i := 0 to |counts|
        invariant |counts| == |before| && Valid()
        invariant forall j :: 0 <= j < |before| ==> KeyOf(counts[j]) == KeyOf(before[j])
        invariant forall j :: i <= j < |before| ==> counts[j] == before[j]
        invariant forall j :: 0 <= j < i && before[j].queue in swept ==> counts[j].retry == 0
        invariant forall k: Key :: k.0 !in swept ==> RetryAt(counts, k) == RetryAt(before, k)
        invariant forall k: Key :: ArchivedAt(counts, k) == ArchivedAt(before, k)
      {
        if counts[i].queue in swept {
          At(counts, i);
          Replaced(counts, i, counts[i].(retry := 0));
          counts := counts[i := counts[i].(retry := 0)];
        }
      }
      forall k: Key | k.0 in swept
        ensures RetryAt(counts, k) == 0
      {
        ZeroAt(counts, k);
      }
    }

    /** Apply this run's observations. */
    method SetRetry(seen: map<Key, nat>)
      requires Valid()
      modifies this
      ensures Valid()
      ensures forall k: Key :: RetryAt(counts, k) == if k in seen then seen[k] else RetryAt(old(counts), k)
      ensures forall k: Key :: ArchivedAt(counts, k) == ArchivedAt(old(counts), k)
    {
      var todo := seen.Keys;
      while todo != {}
        invariant todo <= seen.Keys && Valid()
        invariant forall k: Key :: ArchivedAt(counts, k) == ArchivedAt(old(counts), k)
        invariant forall k: Key :: RetryAt(counts, k) ==
                    if k in seen && k !in todo then seen[k] else RetryAt(old(counts), k)
        decreases |todo|
      {
        var k :| k in todo;
        var i := CellOf(k);
        Replaced(counts, i, counts[i].(retry := seen[k]));
        counts := counts[i := counts[i].(retry := seen[k])];
        todo := todo - {k};
      }
    }

    /** Drop the cells that hold nothing. */
    method DropEmpty()
      requires Valid()
      modifies this
      ensures Valid()
      ensures forall k: Key :: RetryAt(counts, k) == RetryAt(old(counts), k)
      ensures forall k: Key :: ArchivedAt(counts, k) == ArchivedAt(old(counts), k)
      ensures forall c :: c in counts ==> c.archived > 0 || c.retry > 0
    {
      var kept: seq<Cell> := [];
      for i := 0 to |counts|
        invariant unchanged(this) && Distinct(kept) && (forall c :: c in kept ==> c in counts[..i])
        invariant SameTallies(kept, counts[..i])
        invariant forall c :: c in kept ==> c.archived > 0 || c.retry > 0
      {
        hide SameTallies, Distinct;
        KeepOrDrop(kept, counts, i);
        assert counts[..i + 1] == counts[..i] + [counts[i]];
        if counts[i].archived > 0 || counts[i].retry > 0 {
          kept := kept + [counts[i]];
        }
      }
      assert counts[..|counts|] == counts;
      counts := kept;
    }
  }
}
