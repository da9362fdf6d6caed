/** Sorted-set entries in (score, member) order, and the score windows that a
    range query reads from a sorted set. */
module SortedSet {
  import opened Collections

  /** Byte order of strings. */
  predicate StringBefore(a: string, b: string) {
    b != [] && (a == [] || a[0] < b[0] || (a[0] == b[0] && StringBefore(a[1..], b[1..])))
  }

  lemma {:induction false} StringTotal(a: string, b: string)
    ensures a == b || StringBefore(a, b) || StringBefore(b, a)
    ensures !(StringBefore(a, b) && StringBefore(b, a)) && !StringBefore(a, a)
  {
    if a != [] {
      StringTotal(a[1..], a[1..]);
    }
    if a != [] && b != [] && a[0] == b[0] {
      StringTotal(a[1..], b[1..]);
      assert a == [a[0]] + a[1..] && b == [b[0]] + b[1..];
    }
  }

  lemma {:induction false} StringTransitive(a: string, b: string, c: string)
    requires StringBefore(a, b) && StringBefore(b, c)
    ensures StringBefore(a, c)
  {
    if a != [] && a[0] == b[0] && b[0] == c[0] {
      StringTransitive(a[1..], b[1..], c[1..]);
    }
  }

  /** Names in strictly ascending order. */
  predicate Sorted(names: seq<string>) {
    forall i, j :: 0 <= i < j < |names| ==> StringBefore(names[i], names[j])
  }

  /** One member of a sorted set, for instance an archived task: the second
      it died at, and its id. */
  datatype Entry = Entry(score: int, id: string)

  predicate Before(a: Entry, b: Entry) {
    a.score < b.score || (a.score == b.score && StringBefore(a.id, b.id))
  }

  lemma BeforeIsOrder()
    ensures forall a, b: Entry :: a == b || Before(a, b) || Before(b, a)
    ensures forall a, b: Entry :: !(Before(a, b) && Before(b, a))
    ensures forall a, b, c: Entry {:trigger Before(a, b), Before(b, c)} :: Before(a, b) && Before(b, c) ==> Before(a, c)
    ensures forall a, b: Entry :: Before(a, b) ==> a.score <= b.score
    ensures forall a: Entry, b: Entry {:trigger Before(a, b)} :: a.score < b.score ==> Before(a, b)
  {
    forall a: Entry, b: Entry
      ensures (a == b || Before(a, b) || Before(b, a)) && !(Before(a, b) && Before(b, a))
    {
      StringTotal(a.id, b.id);
    }
    forall a: Entry, b: Entry, c: Entry | Before(a, b) && Before(b, c)
      ensures Before(a, c)
    {
      if a.score == b.score == c.score {
        StringTransitive(a.id, b.id, c.id);
      }
    }
  }

  predicate Ascending(s: seq<Entry>) {
    forall i, j :: 0 <= i < j < |s| ==> Before(s[i], s[j])
  }

  /** At or before a position; nothing is at or before no position. */
  predicate Upto(e: Entry, pos: Option<Entry>) {
    pos.Some? && (e == pos.value || Before(e, pos.value))
  }

  lemma LastIsApart(s: seq<Entry>, e: Entry)
    requires Ascending(s) && s != []
    ensures e in s[..|s| - 1] <==> e in s && e != s[|s| - 1]
  {
    BeforeIsOrder();
    if e in s && e != s[|s| - 1] {
      var k :| 0 <= k < |s| && s[k] == e;
      assert s[..|s| - 1][k] == e;
    }
  }

  /** Two ascending sequences with the same members are the same sequence. */
  lemma {:induction false} AscendingUnique(s: seq<Entry>, t: seq<Entry>)
    requires Ascending(s) && Ascending(t)
    requires forall e: Entry :: e in s <==> e in t
    ensures s == t
  {
    hide Before;
    BeforeIsOrder();
    assert (s != [] ==> s[0] in t) && (t != [] ==> t[0] in s);
    if s != [] && t != [] {
      var n, m := |s| - 1, |t| - 1;
      assert s[n] in t && t[m] in s;
      assert s[n] == t[m];
      forall e: Entry
        ensures e in s[..n] <==> e in t[..m]
      {
        LastIsApart(s, e);
        LastIsApart(t, e);
      }
      AscendingUnique(s[..n], t[..m]);
      assert s == s[..n] + [s[n]] && t == t[..m] + [t[m]];
    }
  }

  function Filter(s: seq<Entry>, keep: Entry -> bool): (r: seq<Entry>) {
    if s == [] then [] else
      var n := |s| - 1;
      Filter(s[..n], keep) + if keep(s[n]) then [s[n]] else []
  }

  lemma {:induction false} FilterMembers(s: seq<Entry>, keep: Entry -> bool)
    ensures forall e: Entry :: e in Filter(s, keep) <==> e in s && keep(e)
    ensures Ascending(s) ==> Ascending(Filter(s, keep))
  {
    if s != [] {
      var n := |s| - 1;
      FilterMembers(s[..n], keep);
      assert s == s[..n] + [s[n]];
      var front := Filter(s[..n], keep);
      if Ascending(s) {
        forall e | e in front
          ensures Before(e, s[n])
        {
          var k :| 0 <= k < n && s[..n][k] == e;
          assert s[k] == e;
        }
      }
    }
  }

  /** The entries up to a member of an ascending sequence are its front. */
  lemma FrontIsUpto(s: seq<Entry>, n: nat, e: Entry)
    requires Ascending(s) && 0 < n <= |s|
    ensures Ascending(s[..n])
    ensures e in s[..n] <==> e in s && Upto(e, Some(s[n - 1]))
  {
    hide StringBefore;
    BeforeIsOrder();
    if e in s && Upto(e, Some(s[n - 1])) {
      var k :| 0 <= k < |s| && s[k] == e;
      assert k < n;
      assert s[..n][k] == e;
    }
  }

  lemma {:induction false} FilterShrinks(s: seq<Entry>, keep: Entry -> bool, keep': Entry -> bool)
    requires forall e: Entry :: keep'(e) ==> keep(e)
    ensures |Filter(s, keep')| <= |Filter(s, keep)|
    ensures (exists e: Entry :: e in s && keep(e) && !keep'(e)) ==> |Filter(s, keep')| < |Filter(s, keep)|
  {
    if s != [] {
      var n := |s| - 1;
      FilterShrinks(s[..n], keep, keep');
      assert s == s[..n] + [s[n]];
    }
  }

  lemma {:induction false} FilterConcat(a: seq<Entry>, b: seq<Entry>, keep: Entry -> bool)
    ensures Filter(a + b, keep) == Filter(a, keep) + Filter(b, keep)
  {
    if b == [] {
      assert a + b == a;
    } else {
      assert (a + b)[..|a + b| - 1] == a + b[..|b| - 1];
      FilterConcat(a, b[..|b| - 1], keep);
    }
  }

  lemma {:induction false} FilterTwice(s: seq<Entry>, p: Entry -> bool, q: Entry -> bool, both: Entry -> bool)
    requires forall e: Entry :: both(e) <==> p(e) && q(e)
    ensures Filter(Filter(s, p), q) == Filter(s, both)
  {
    if s != [] {
      var n := |s| - 1;
      FilterTwice(s[..n], p, q, both);
      if p(s[n]) {
        assert (Filter(s[..n], p) + [s[n]])[..|Filter(s[..n], p)|] == Filter(s[..n], p);
      } else {
        assert Filter(s, p) == Filter(s[..n], p);
      }
    }
  }

  lemma JoinAscending(a: seq<Entry>, b: seq<Entry>)
    requires Ascending(a) && Ascending(b)
    requires forall x, y :: x in a && y in b ==> Before(x, y)
    ensures Ascending(a + b)
  {
  }

  /** A sorted set with one more entry. */
  function Insert(s: seq<Entry>, e: Entry): seq<Entry> {
    if e in s then s else Filter(s, (x: Entry) => Before(x, e)) + [e] + Filter(s, (x: Entry) => Before(e, x))
  }

  lemma InsertMembers(s: seq<Entry>, e: Entry)
    requires Ascending(s)
    ensures Ascending(Insert(s, e)) && forall x: Entry :: x in Insert(s, e) <==> x == e || x in s
  {
    hide Filter, Before;
    BeforeIsOrder();
    FilterMembers(s, (x: Entry) => Before(x, e));
    FilterMembers(s, (x: Entry) => Before(e, x));
    var below, above := Filter(s, (x: Entry) => Before(x, e)), Filter(s, (x: Entry) => Before(e, x));
    JoinAscending(below, [e]);
    JoinAscending(below + [e], above);
  }

  /** The entries of a closed score range; a missing bound is infinite. */
  predicate InRange(min: Option<int>, max: Option<int>, e: Entry) {
    (min.None? || min.value <= e.score) && (max.None? || e.score <= max.value)
  }

  function Window(entries: seq<Entry>, min: Option<int>, max: Option<int>): seq<Entry> {
    Filter(entries, (e: Entry) => InRange(min, max, e))
  }
}
