/** The stored form of a tail cursor. */
module ErrsigCursor {
  import opened Collections
  import opened SortedSet

  const MIN_INT64 := -0x8000_0000_0000_0000
  const MAX_INT64 := 0x7FFF_FFFF_FFFF_FFFF

  predicate IsDigit(c: char) {
    '0' <= c <= '9'
  }

  function Digit(d: nat): (c: char)
    requires d < 10
    ensures IsDigit(c)
  {
    '0' + d as char
  }

  function Digits(n: nat): (s: string)
    ensures s != [] && forall k :: 0 <= k < |s| ==> IsDigit(s[k])
  {
    if n < 10 then [Digit(n)] else Digits(n / 10) + [Digit(n % 10)]
  }

  function FormatInt(n: int): string {
    if n < 0 then ['-'] + Digits(-n) else Digits(n)
  }

  function ParseDigits(s: string): Option<nat> {
    if s == [] then None
    else
      var c := s[|s| - 1];
      if !IsDigit(c) then None
      else if |s| == 1 then Some((c - '0') as nat)
      else match ParseDigits(s[..|s| - 1])
           case None => None
           case Some(n) => Some(10 * n + (c - '0') as nat)
  }

  /** Base ten, an optional sign, and only values an int64 holds. */
  function ParseInt(s: string): Option<int> {
    if s == [] then None else
      var digits := ParseDigits(if s[0] == '-' || s[0] == '+' then s[1..] else s);
      if digits.None? then None else
        var n: int := if s[0] == '-' then -(digits.value as int) else digits.value;
        if MIN_INT64 <= n <= MAX_INT64 then Some(n) else None
  }

  function Encode(c: Entry): string {
    FormatInt(c.score) + ['|'] + c.id
  }

  /** Where the first '|' is, or the length when there is none. */
  method FindBar(s: string) returns (i: nat)
    ensures i <= |s| && (i < |s| ==> s[i] == '|') && forall k :: 0 <= k < i ==> s[k] != '|'
  {
    i := |s|;
    for j := 0 to |s|
      invariant i == |s| && forall k :: 0 <= k < j ==> s[k] != '|'
    {
      if s[j] == '|' {
        i := j;
        break;
      }
    }
  }

  lemma NoBar(n: int)
    ensures forall k :: 0 <= k < |FormatInt(n)| ==> FormatInt(n)[k] != '|'
  {
  }

  lemma {:induction false} ParseDigitsOf(n: nat)
    ensures ParseDigits(Digits(n)) == Some(n)
  {
    if n >= 10 {
      ParseDigitsOf(n / 10);
      assert Digits(n)[..|Digits(n)| - 1] == Digits(n / 10);
    }
  }

  lemma ParseFormat(n: int)
    requires MIN_INT64 <= n <= MAX_INT64
    ensures ParseInt(FormatInt(n)) == Some(n)
  {
    ParseDigitsOf(if n < 0 then -n else n);
    if n < 0 {
      assert FormatInt(n)[1..] == Digits(-n);
    }
  }

  /** Cut at the first '|'; anything malformed restarts the tail from the bottom. */
  method Decode(s: string) returns (c: Option<Entry>)
    ensures forall e: Entry | MIN_INT64 <= e.score <= MAX_INT64 && s == Encode(e) :: c == Some(e)
    ensures c.Some? ==>
              exists i :: 0 <= i < |s| && s[i] == '|' && c.value.id == s[i + 1..] && ParseInt(s[..i]) == Some(c.value.score)
    ensures c.None? ==> forall i | 0 <= i < |s| && s[i] == '|' && '|' !in s[..i] :: ParseInt(s[..i]) == None
  {
    var i := FindBar(s);
    forall e: Entry | MIN_INT64 <= e.score <= MAX_INT64 && s == Encode(e)
      ensures i < |s| && s[..i] == FormatInt(e.score) && s[i + 1..] == e.id && ParseInt(s[..i]) == Some(e.score)
    {
      NoBar(e.score);
      assert s[|FormatInt(e.score)|] == '|';
      ParseFormat(e.score);
    }
    if i == |s| {
      return None;
    }
    var n := ParseInt(s[..i]);
    if n.None? {
      return None;
    }
    c := Some(Entry(n.value, s[i + 1..]));
  }
}
