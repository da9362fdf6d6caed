/** One result page of a streamed scan: window arithmetic on machine integers,
    and the collector that keeps only the window. */
module SearchPage {
  import opened Collections
  import opened Listings

  const MAX_INT: int := 0x7FFF_FFFF_FFFF_FFFF
  const MIN_INT: int := -0x8000_0000_0000_0000

  newtype int64 = x: int | MIN_INT <= x <= MAX_INT

  /** Addition that wraps. */
  function WrapAdd(a: int64, b: int64): int64 {
    var s := a as int + b as int;
    if s > MAX_INT then (s - 0x1_0000_0000_0000_0000) as int64
    else if s < MIN_INT then (s + 0x1_0000_0000_0000_0000) as int64
    else s as int64
  }

  /** Where a page starts among unboundedly many rows. */
  function IdealStart(page: int64, size: int64): nat {
    if size < 1 || page < 1 then 0 else (page as int - 1) * size as int
  }

  function Saturate(n: int): int64
    requires n >= 0
  {
    if n > MAX_INT then MAX_INT as int64 else n as int64
  }

  lemma QuotientBound(a: int, b: int, n: int)
    requires a >= 0 && b > 0 && n >= 0
    ensures a <= n / b <==> a * b <= n
  {
    if a <= n / b {
      assert a * b <= (n / b) * b <= n;
    } else {
      assert a * b >= (n / b + 1) * b > n;
    }
  }

  /** The window of a page, saturating instead of overflowing. */
  method PageWindow(page0: int64, size: int64) returns (start: int64, end: int64)
    ensures start == if size < 1 then 0 else Saturate(IdealStart(page0, size))
    ensures end == if size < 1 then 0 else Saturate(IdealStart(page0, size) + size as int)
  {
    var page := page0;
    if page < 1 {
      page := 1;
    }
    if size < 1 {
      return 0, 0;
    }
    QuotientBound(page as int - 1, size as int, MAX_INT);
    if page - 1 > (MAX_INT as int64) / size {
      return MAX_INT as int64, MAX_INT as int64;
    }
    start := (page - 1) * size;
    end := WrapAdd(start, size);
    if end < start {
      end := MAX_INT as int64;
    }
  }

  /** The window clamped to a known total. */
  method PageBounds(total: int64, page0: int64, size: int64) returns (start: int64, end: int64)
    requires total >= 0
    ensures 0 <= start <= end <= total
    ensures size < 1 ==> start == end == total
    ensures size >= 1 ==>
              && start as int == Min(IdealStart(page0, size), total as int)
              && end as int == Min(IdealStart(page0, size) + size as int, total as int)
  {
    var page := page0;
    if page < 1 {
      page := 1;
    }
    start := total;
    if size > 0 {
      QuotientBound(page as int - 1, size as int, total as int);
      if page - 1 <= total / size {
        start := (page - 1) * size;
      }
    }
    end := WrapAdd(start, size);
    if end > total || end < start {
      end := total;
    }
  }

  /** The rows of a page. */
  function PageOf<T>(rows: seq<T>, page: int64, size: int64): seq<T> {
    if size < 1 then [] else Slice(rows, IdealStart(page, size), size as nat)
  }

  lemma PageGrows<T>(rows: seq<T>, x: T, page: int64, size: int64)
    ensures PageOf(rows + [x], page, size) ==
            PageOf(rows, page, size) +
            if size >= 1 && IdealStart(page, size) <= |rows| < IdealStart(page, size) + size as nat then [x] else []
  {
  }

  /** What the first `n` pages show. */
  function Pages<T>(rows: seq<T>, n: nat, size: int64): seq<T>
    requires n <= MAX_INT
  {
    if n == 0 then [] else Pages(rows, n - 1, size) + PageOf(rows, n as int64, size)
  }

  lemma OnePage<T>(rows: seq<T>, start: nat, size: nat)
    ensures rows[..Min(start, |rows|)] + Slice(rows, start, size) == rows[..Min(start + size, |rows|)]
  {
  }

  /** The first page begins with the first row and each page where the one
      before it ends: together they are a front of the rows, and as many pages
      as it takes show every row once and in order. */
  lemma {:induction false} PagesTile<T>(rows: seq<T>, n: nat, size: int64)
    requires n <= MAX_INT && size >= 1
    ensures Pages(rows, n, size) == rows[..Min(n * size as nat, |rows|)]
  {
    if n > 0 {
      PagesTile(rows, n - 1, size);
      OnePage(rows, (n - 1) * size as nat, size as nat);
      assert n * size as nat == (n - 1) * size as nat + size as nat;
    }
  }

  /** A page number below one is the first page. */
  lemma FirstPage<T>(rows: seq<T>, page: int64, size: int64)
    requires page <= 1 && size >= 1
    ensures PageOf(rows, page, size) == rows[..Min(size as nat, |rows|)]
  {
  }

  /** Keeps the matches inside one page window and counts the rest. */
  class PageCollector {
    const page: int64
    const size: int64
    var start: int64
    var end: int64
    var total: int64
    var rows: seq<Ref>
    ghost var seen: seq<Ref>

    ghost predicate Valid()
      reads this
    {
      && total as int == |seen| && rows == PageOf(seen, page, size)
      && start == (if size < 1 then 0 else Saturate(IdealStart(page, size)))
      && end == (if size < 1 then 0 else Saturate(IdealStart(page, size) + size as int))
    }

    constructor (page: int64, size: int64)
      ensures Valid() && seen == [] && this.page == page && this.size == size
    {
      this.page, this.size := page, size;
      total, rows, seen := 0, [], [];
      new;
      start, end := PageWindow(page, size);
    }

    method Sink(ref: Ref)
      requires Valid() && |seen| < MAX_INT
      modifies this
      ensures Valid() && seen == old(seen) + [ref]
    {
      PageGrows(seen, ref, page, size);
      if total >= start && total < end {
        rows := rows + [ref];
      }
      total, seen := total + 1, seen + [ref];
    }
  }
}
