/** The reader accepts exactly the encodings of the wire format, and returns
    what they mean. */
module MsgpackLaws {
  import opened Collections
  import opened MsgpackFormat

  /** What a wire format announces. */
  function StartOf(x: Wire): Start {
    match x
    case NilFormat => Scalar(Null)
    case BoolFormat(b) => Scalar(Bool(b))
    case PosFixInt(n) => Scalar(Int(n))
    case NegFixInt(n) => Scalar(Int(n))
    case UIntFormat(_, n) => Scalar(Int(n))
    case IntFormat(_, n) => Scalar(Int(n))
    case Float32Format(bits) => Scalar(Float32(bits))
    case Float64Format(bits) => Scalar(Float64(bits))
    case BinFormat(_, raw) => RawBin(|raw|)
    case StrFormat(_, raw) => RawStr(|raw|)
    case ArrayFormat(_, items) => Elements(|items|)
    case MapFormat(_, items) => Entries(|items| / 2)
  }

  lemma FieldOf(c: byte, n: nat, w: nat, tail: Bytes)
    requires n < Pow256(w)
    ensures FieldAt([c] + Field(n, w) + tail, w) == Some(n)
  {
    FieldRoundTrip(n, w);
    assert ([c] + Field(n, w) + tail)[1..1 + w] == Field(n, w);
  }

  lemma Widths()
    ensures Pow256(1) == 0x100 && Pow256(2) == 0x1_0000
    ensures Pow256(4) == 0x1_0000_0000 && Pow256(8) == 0x1_0000_0000_0000_0000
  {
    assert Pow256(0) == 1 && Pow256(1) == 256 && Pow256(2) == 256 * 256 && Pow256(3) == 256 * Pow256(2);
    assert Pow256(4) == 256 * Pow256(3) && Pow256(5) == 256 * Pow256(4) && Pow256(6) == 256 * Pow256(5);
    assert Pow256(7) == 256 * Pow256(6) && Pow256(8) == 256 * Pow256(7);
  }

  lemma SignedOf(n: int, w: nat)
    requires NumberWidth(w) && -(Pow256(w) / 2) <= n < Pow256(w) / 2
    ensures Signed(n % Pow256(w), w) == n
  {
    Widths();
    if n < 0 {
      assert n % Pow256(w) == n + Pow256(w);
    }
  }

  /** Numbers in range are stored as they are, negative ones in two's complement. */
  lemma NumberHead(w: nat, n: int)
    requires NumberWidth(w)
    ensures 0 <= n < Pow256(w) ==> Head(UIntFormat(w, n)) == [0xcc + WidthIndex(w)] + Field(n, w)
    ensures Head(IntFormat(w, n)) == [0xd0 + WidthIndex(w)] + Field(n % Pow256(w), w)
  {
    hide Pow256, Field;
    if 0 <= n < Pow256(w) {
      assert n % Pow256(w) == n;
    }
  }

  /** How a number of each width starts. */
  lemma NumberStart(b: Bytes, w: nat, n: nat)
    requires NumberWidth(w) && b != [] && FieldAt(b, w) == Some(n)
    ensures b[0] == 0xcc + WidthIndex(w) ==> ReadStart(b) == Some((Scalar(Int(n)), 1 + w))
    ensures b[0] == 0xd0 + WidthIndex(w) ==> ReadStart(b) == Some((Scalar(Int(Signed(n, w))), 1 + w))
  {
    hide FieldAt, Signed;
  }

  lemma ReadUInt(w: nat, n: int, tail: Bytes)
    requires Ranges(UIntFormat(w, n))
    ensures var h := Head(UIntFormat(w, n)); ReadStart(h + tail) == Some((Scalar(Int(n)), |h|))
  {
    hide Pow256, Field, FieldAt, Head, ReadStart;
    NumberHead(w, n);
    FieldOf(0xcc + WidthIndex(w), n, w, tail);
    NumberStart(Head(UIntFormat(w, n)) + tail, w, n);
  }

  lemma ReadInt(w: nat, n: int, tail: Bytes)
    requires Ranges(IntFormat(w, n))
    ensures var h := Head(IntFormat(w, n)); ReadStart(h + tail) == Some((Scalar(Int(n)), |h|))
  {
    hide Pow256, Field, FieldAt, Head, ReadStart, Signed;
    NumberHead(w, n);
    SignedOf(n, w);
    FieldOf(0xd0 + WidthIndex(w), n % Pow256(w), w, tail);
    NumberStart(Head(IntFormat(w, n)) + tail, w, n % Pow256(w));
  }

  lemma ReadFloat(x: Wire, tail: Bytes)
    requires Ranges(x) && (x.Float32Format? || x.Float64Format?)
    ensures ReadStart(Head(x) + tail) == Some((StartOf(x), |Head(x)|))
  {
    hide Pow256, Field, BigEndian, FieldAt;
    match x
    case Float32Format(bits) => FieldOf(0xca, bits, 4, tail);
    case Float64Format(bits) => FieldOf(0xcb, bits, 8, tail);
  }

  lemma ReadRawLength(x: Wire, tail: Bytes)
    requires Ranges(x) && (x.BinFormat? || x.StrFormat?)
    ensures ReadStart(Head(x) + tail) == Some((StartOf(x), |Head(x)|))
  {
    hide Pow256, Field, BigEndian, FieldAt;
    match x
    case BinFormat(w, raw) => FieldOf(0xc4 + WidthIndex(w), |raw|, w, tail);
    case StrFormat(w, raw) =>
      if w > 0 {
        FieldOf(0xd9 + WidthIndex(w), |raw|, w, tail);
      }
  }

  lemma ReadArrayCount(w: nat, items: seq<Wire>, tail: Bytes)
    requires Ranges(ArrayFormat(w, items))
    ensures var h := Head(ArrayFormat(w, items)); ReadStart(h + tail) == Some((Elements(|items|), |h|))
  {
    hide Pow256, Field, BigEndian, FieldAt;
    if w > 0 {
      FieldOf(0xdb + WidthIndex(w), |items|, w, tail);
    }
  }

  lemma ReadMapCount(w: nat, items: seq<Wire>, tail: Bytes)
    requires Ranges(MapFormat(w, items))
    ensures var h := Head(MapFormat(w, items)); ReadStart(h + tail) == Some((Entries(|items| / 2), |h|))
  {
    hide Pow256, Field, BigEndian, FieldAt;
    if w > 0 {
      FieldOf(0xdd + WidthIndex(w), |items| / 2, w, tail);
    }
  }

  /** The first byte and field are read back whatever follows. */
  lemma ReadStartOf(x: Wire, tail: Bytes)
    requires Ranges(x)
    ensures ReadStart(Head(x) + tail) == Some((StartOf(x), |Head(x)|))
  {
    hide Pow256, Field, BigEndian, FieldAt, Signed;
    if x.UIntFormat? {
      ReadUInt(x.w, x.n, tail);
    } else if x.IntFormat? {
      ReadInt(x.w, x.n, tail);
    } else if x.Float32Format? || x.Float64Format? {
      ReadFloat(x, tail);
    } else if x.BinFormat? || x.StrFormat? {
      ReadRawLength(x, tail);
    } else if x.ArrayFormat? {
      ReadArrayCount(x.w, x.items, tail);
    } else if x.MapFormat? {
      ReadMapCount(x.w, x.items, tail);
    } else {
      assert |Head(x)| == 1;
    }
  }

  // --- every encoding is read back ---

  /** The bytes of an encoding: its head, then its payload. */
  lemma HeadThenPayload(x: Wire, tail: Bytes)
    requires Ranges(x)
    ensures var b, k := Encoding(x) + tail, |Head(x)|;
            && k <= |Encoding(x)| && b[k..] == Encoding(x)[k..] + tail
            && ReadStart(b) == Some((StartOf(x), k))
  {
    hide ReadStart, Head, Ranges;
    var body := Encoding(x)[|Head(x)|..] + tail;
    assert Encoding(x) + tail == Head(x) + body;
    ReadStartOf(x, body);
  }

  lemma CompleteLeaf(t: Text, x: Wire, tail: Bytes, depth: nat)
    requires Fits(t, x, depth) && !x.ArrayFormat? && !x.MapFormat?
    ensures Read(t, Encoding(x) + tail, depth) == Some((Meaning(t, x), |Encoding(x)|))
  {
    hide ReadStart, Head, Ranges, Binary;
    HeadThenPayload(x, tail);
    var b, k := Encoding(x) + tail, |Head(x)|;
    if x.BinFormat? || x.StrFormat? {
      assert b[k..k + |x.raw|] == x.raw;
    }
  }

  lemma ReadArray(t: Text, b: Bytes, depth: nat, n: nat, k: nat, vs: seq<Value>, m: nat)
    requires depth <= MAX_DEPTH && b != [] && ReadStart(b) == Some((Elements(n), k))
    requires ReadAll(t, b[k..], n, depth + 1) == Some((vs, m))
    ensures Read(t, b, depth) == Some((Arr(vs), k + m))
  {
    hide ReadStart, ReadAll;
  }

  lemma ReadMap(t: Text, b: Bytes, depth: nat, n: nat, k: nat, vs: seq<Value>, m: nat)
    requires depth <= MAX_DEPTH && b != [] && ReadStart(b) == Some((Entries(n), k))
    requires ReadAll(t, b[k..], 2 * n, depth + 1) == Some((vs, m))
    ensures Read(t, b, depth) == Some((Obj(Pairs(t, vs)), k + m))
  {
    hide ReadStart, ReadAll;
  }

  lemma CompleteArray(t: Text, x: Wire, tail: Bytes, depth: nat)
    requires x.ArrayFormat? && Ranges(x) && depth <= MAX_DEPTH
    requires ReadAll(t, Encodings(x.items) + tail, |x.items|, depth + 1) == Some((Meanings(t, x.items), |Encodings(x.items)|))
    ensures Read(t, Encoding(x) + tail, depth) == Some((Meaning(t, x), |Encoding(x)|))
  {
    hide ReadStart, Head, Ranges, Read, ReadAll, Encodings, Meanings;
    HeadThenPayload(x, tail);
    assert Encoding(x)[|Head(x)|..] == Encodings(x.items);
    ReadArray(t, Encoding(x) + tail, depth, |x.items|, |Head(x)|, Meanings(t, x.items), |Encodings(x.items)|);
  }

  lemma EvenItems(x: Wire)
    requires x.MapFormat? && Ranges(x)
    ensures 2 * (|x.items| / 2) == |x.items|
  {
  }

  lemma CompleteMap(t: Text, x: Wire, tail: Bytes, depth: nat)
    requires x.MapFormat? && Ranges(x) && depth <= MAX_DEPTH
    requires ReadAll(t, Encodings(x.items) + tail, |x.items|, depth + 1) == Some((Meanings(t, x.items), |Encodings(x.items)|))
    ensures Read(t, Encoding(x) + tail, depth) == Some((Meaning(t, x), |Encoding(x)|))
  {
    hide ReadStart, Head, Ranges, Read, ReadAll, Encodings, Meanings, Pairs;
    HeadThenPayload(x, tail);
    EvenItems(x);
    assert Encoding(x)[|Head(x)|..] == Encodings(x.items);
    ReadMap(t, Encoding(x) + tail, depth, |x.items| / 2, |Head(x)|, Meanings(t, x.items), |Encodings(x.items)|);
  }

  /** An encoding is read back exactly, whatever follows it. */
  lemma {:induction false} Complete(t: Text, x: Wire, tail: Bytes, depth: nat)
    requires Fits(t, x, depth)
    ensures Read(t, Encoding(x) + tail, depth) == Some((Meaning(t, x), |Encoding(x)|))
    decreases x
  {
    hide ReadStart, Head, Ranges, Read, ReadAll, Encoding, Encodings, Meanings, Meaning;
    if x.ArrayFormat? {
      CompleteAll(t, x.items, tail, depth + 1);
      CompleteArray(t, x, tail, depth);
    } else if x.MapFormat? {
      CompleteAll(t, x.items, tail, depth + 1);
      CompleteMap(t, x, tail, depth);
    } else {
      CompleteLeaf(t, x, tail, depth);
    }
  }

  lemma {:induction false} CompleteAll(t: Text, xs: seq<Wire>, tail: Bytes, depth: nat)
    requires AllFit(t, xs, depth)
    ensures ReadAll(t, Encodings(xs) + tail, |xs|, depth) == Some((Meanings(t, xs), |Encodings(xs)|))
    decreases xs
  {
    hide Read, Encoding, Fits, Meaning;
    if xs != [] {
      var first, rest := Encoding(xs[0]), Encodings(xs[1..]) + tail;
      Complete(t, xs[0], rest, depth);
      CompleteAll(t, xs[1..], tail, depth);
      assert Encodings(xs) + tail == first + rest;
      assert (first + rest)[|first|..] == rest;
    }
  }

  // --- whatever is read is an encoding ---

  lemma FieldSound(b: Bytes, w: nat)
    requires |b| >= 1 + w
    ensures FieldAt(b, w).value < Pow256(w) && b[..1 + w] == [b[0]] + Field(FieldAt(b, w).value, w)
  {
    BigEndianRoundTrip(b[1..1 + w]);
    assert b[..1 + w] == [b[0]] + b[1..1 + w];
  }

  lemma SignedBack(n: nat, w: nat)
    requires NumberWidth(w) && n < Pow256(w)
    ensures -(Pow256(w) / 2) <= Signed(n, w) < Pow256(w) / 2 && Signed(n, w) % Pow256(w) == n
  {
    Widths();
  }

  lemma UIntSound(b: Bytes, w: nat, n: nat)
    requires NumberWidth(w) && |b| >= 1 + w && FieldAt(b, w) == Some(n) && b[0] == 0xcc + WidthIndex(w)
    ensures Ranges(UIntFormat(w, n)) && Encoding(UIntFormat(w, n)) == b[..1 + w]
  {
    hide Field, Pow256, BigEndian, FieldAt;
    FieldSound(b, w);
    assert n % Pow256(w) == n;
  }

  lemma IntSound(b: Bytes, w: nat, n: nat)
    requires NumberWidth(w) && |b| >= 1 + w && FieldAt(b, w) == Some(n) && b[0] == 0xd0 + WidthIndex(w)
    ensures Ranges(IntFormat(w, Signed(n, w))) && Encoding(IntFormat(w, Signed(n, w))) == b[..1 + w]
  {
    hide Field, Pow256, BigEndian, FieldAt, Signed;
    FieldSound(b, w);
    SignedBack(n, w);
  }

  function Max(a: nat, b: nat): nat {
    if a < b then b else a
  }

  /** The format a scalar was written in: `k` bytes, the value `v`. */
  function ScalarFormat(c: byte, v: Value, k: nat): Wire {
    match v
    case Null => NilFormat
    case Bool(b) => BoolFormat(b)
    case Float32(bits) => Float32Format(bits)
    case Float64(bits) => Float64Format(bits)
    case Int(n) =>
      if c <= 0x7f then PosFixInt(n) else if c >= 0xe0 then NegFixInt(n)
      else if c < 0xd0 then UIntFormat(Max(k, 1) - 1, n) else IntFormat(Max(k, 1) - 1, n)
    case _ => NilFormat
  }

  ghost predicate WrittenAs(t: Text, x: Wire, b: Bytes, v: Value) {
    && Ranges(x) && Items(x) == [] && !x.StrFormat? && !x.ArrayFormat? && !x.MapFormat?
    && Encoding(x) == b && Meaning(t, x) == v
  }

  lemma NumberSound(t: Text, b: Bytes, v: Value, k: nat)
    requires b != [] && ReadStart(b) == Some((Scalar(v), k)) && 0xcc <= b[0] <= 0xd3
    ensures WrittenAs(t, ScalarFormat(b[0], v, k), b[..k], v)
  {
    hide Field, Pow256, BigEndian, FieldAt, Signed, Encoding, Ranges;
    var n := FieldAt(b, k - 1).value;
    if b[0] <= 0xcf {
      UIntSound(b, k - 1, n);
    } else {
      IntSound(b, k - 1, n);
    }
  }

  lemma FloatSound(t: Text, b: Bytes, v: Value, k: nat)
    requires b != [] && ReadStart(b) == Some((Scalar(v), k)) && 0xca <= b[0] <= 0xcb
    ensures WrittenAs(t, ScalarFormat(b[0], v, k), b[..k], v)
  {
    hide Field, Pow256, BigEndian, FieldAt;
    FieldSound(b, k - 1);
  }

  lemma FixSound(t: Text, b: Bytes, v: Value, k: nat)
    requires b != [] && ReadStart(b) == Some((Scalar(v), k)) && (b[0] < 0xca || b[0] >= 0xd4)
    ensures k == 1 && WrittenAs(t, ScalarFormat(b[0], v, k), b[..k], v)
  {
    hide Field, Pow256, BigEndian, FieldAt;
    assert b[..1] == [b[0]];
  }

  lemma ScalarSound(t: Text, b: Bytes, v: Value, k: nat)
    requires b != [] && ReadStart(b) == Some((Scalar(v), k))
    ensures WrittenAs(t, ScalarFormat(b[0], v, k), b[..k], v)
  {
    hide ReadStart, WrittenAs, ScalarFormat;
    if 0xcc <= b[0] <= 0xd3 {
      NumberSound(t, b, v, k);
    } else if 0xca <= b[0] <= 0xcb {
      FloatSound(t, b, v, k);
    } else {
      FixSound(t, b, v, k);
    }
  }

  /** A length or count in front of anything is one of the formats that state it. */
  lemma RawBinSound(b: Bytes, n: nat, k: nat, raw: Bytes)
    requires b != [] && ReadStart(b) == Some((RawBin(n), k)) && |raw| == n
    ensures Ranges(BinFormat(k - 1, raw)) && Head(BinFormat(k - 1, raw)) == b[..k]
  {
    hide Field, Pow256, BigEndian, FieldAt;
    FieldSound(b, k - 1);
  }

  lemma RawStrSound(b: Bytes, n: nat, k: nat, raw: Bytes)
    requires b != [] && ReadStart(b) == Some((RawStr(n), k)) && |raw| == n
    ensures Ranges(StrFormat(k - 1, raw)) && Head(StrFormat(k - 1, raw)) == b[..k]
  {
    hide Field, Pow256, BigEndian, FieldAt;
    if k == 1 {
      assert b[..1] == [b[0]];
    } else {
      FieldSound(b, k - 1);
    }
  }

  lemma ElementsSound(b: Bytes, n: nat, k: nat, items: seq<Wire>)
    requires b != [] && ReadStart(b) == Some((Elements(n), k)) && |items| == n
    ensures Ranges(ArrayFormat(k - 1, items)) && Head(ArrayFormat(k - 1, items)) == b[..k]
  {
    hide Field, Pow256, BigEndian, FieldAt;
    if k == 1 {
      assert b[..1] == [b[0]];
    } else {
      FieldSound(b, k - 1);
    }
  }

  lemma EntriesSound(b: Bytes, n: nat, k: nat, items: seq<Wire>)
    requires b != [] && ReadStart(b) == Some((Entries(n), k)) && |items| == 2 * n
    ensures Ranges(MapFormat(k - 1, items)) && Head(MapFormat(k - 1, items)) == b[..k]
  {
    hide Field, Pow256, BigEndian, FieldAt;
    if k == 1 {
      assert b[..1] == [b[0]];
    } else {
      FieldSound(b, k - 1);
    }
  }

  ghost predicate ReadFrom(t: Text, b: Bytes, depth: nat, x: Wire) {
    && Fits(t, x, depth) && Read(t, b, depth) == Some((Meaning(t, x), |Encoding(x)|))
    && |Encoding(x)| <= |b| && Encoding(x) == b[..|Encoding(x)|]
  }

  lemma SoundLeaf(t: Text, b: Bytes, depth: nat) returns (x: Wire)
    requires Read(t, b, depth).Some? && !ReadStart(b).value.0.Elements? && !ReadStart(b).value.0.Entries?
    ensures ReadFrom(t, b, depth, x)
  {
    hide ReadStart, Head, Ranges, ScalarFormat, Binary, Pairs;
    var (start, k) := ReadStart(b).value;
    match start {
      case Scalar(v) =>
        ScalarSound(t, b, v, k);
        x := ScalarFormat(b[0], v, k);
      case RawBin(n) =>
        RawBinSound(b, n, k, b[k..k + n]);
        x := BinFormat(k - 1, b[k..k + n]);
        assert Encoding(x) == b[..k + n];
      case RawStr(n) =>
        RawStrSound(b, n, k, b[k..k + n]);
        x := StrFormat(k - 1, b[k..k + n]);
        assert Encoding(x) == b[..k + n];
    }
  }

  lemma FrontGrows(b: Bytes, k: nat, more: Bytes)
    requires k + |more| <= |b| && more == b[k..][..|more|]
    ensures b[..k] + more == b[..k + |more|]
  {
  }

  lemma SoundArray(t: Text, b: Bytes, depth: nat, n: nat, k: nat, items: seq<Wire>)
    requires depth <= MAX_DEPTH && b != [] && ReadStart(b) == Some((Elements(n), k))
    requires |items| == n && AllFit(t, items, depth + 1)
    requires |Encodings(items)| <= |b| - k && Encodings(items) == b[k..][..|Encodings(items)|]
    requires ReadAll(t, b[k..], n, depth + 1) == Some((Meanings(t, items), |Encodings(items)|))
    ensures ReadFrom(t, b, depth, ArrayFormat(k - 1, items))
  {
    hide ReadStart, ReadAll, Head, Ranges, Read, AllFit, Encodings, Meanings;
    ElementsSound(b, n, k, items);
    ReadArray(t, b, depth, n, k, Meanings(t, items), |Encodings(items)|);
    FrontGrows(b, k, Encodings(items));
  }

  lemma SoundMap(t: Text, b: Bytes, depth: nat, n: nat, k: nat, items: seq<Wire>)
    requires depth <= MAX_DEPTH && b != [] && ReadStart(b) == Some((Entries(n), k))
    requires |items| == 2 * n && AllFit(t, items, depth + 1)
    requires |Encodings(items)| <= |b| - k && Encodings(items) == b[k..][..|Encodings(items)|]
    requires ReadAll(t, b[k..], 2 * n, depth + 1) == Some((Meanings(t, items), |Encodings(items)|))
    ensures ReadFrom(t, b, depth, MapFormat(k - 1, items))
  {
    hide ReadStart, ReadAll, Head, Ranges, Read, AllFit, Encodings, Meanings, Pairs;
    EntriesSound(b, n, k, items);
    ReadMap(t, b, depth, n, k, Meanings(t, items), |Encodings(items)|);
    FrontGrows(b, k, Encodings(items));
  }

  /** Whatever is read was written in the wire format, and means what was read. */
  lemma {:induction false} Sound(t: Text, b: Bytes, depth: nat) returns (x: Wire)
    requires Read(t, b, depth).Some?
    ensures ReadFrom(t, b, depth, x)
    decreases |b|, 0
  {
    hide ReadStart, ReadFrom, Meanings, Encodings;
    var (start, k) := ReadStart(b).value;
    match start {
      case Elements(n) =>
        var items := SoundAll(t, b[k..], n, depth + 1);
        SoundArray(t, b, depth, n, k, items);
        x := ArrayFormat(k - 1, items);
      case Entries(n) =>
        var items := SoundAll(t, b[k..], 2 * n, depth + 1);
        SoundMap(t, b, depth, n, k, items);
        x := MapFormat(k - 1, items);
      case _ =>
        x := SoundLeaf(t, b, depth);
    }
  }

  lemma {:induction false} SoundAll(t: Text, b: Bytes, n: nat, depth: nat) returns (xs: seq<Wire>)
    requires ReadAll(t, b, n, depth).Some?
    ensures |xs| == n && AllFit(t, xs, depth)
    ensures ReadAll(t, b, n, depth) == Some((Meanings(t, xs), |Encodings(xs)|))
    ensures |Encodings(xs)| <= |b| && Encodings(xs) == b[..|Encodings(xs)|]
    decreases |b|, n
  {
    hide Read, Encoding, Fits, Meaning;
    xs := [];
    if n > 0 {
      var x := Sound(t, b, depth);
      var k := |Encoding(x)|;
      var rest := SoundAll(t, b[k..], n - 1, depth);
      xs := [x] + rest;
      assert xs[1..] == rest;
    }
  }

  // --- what follows ---

  /** A successful read is unchanged by whatever is appended. */
  lemma AppendedIsIgnored(t: Text, b: Bytes, tail: Bytes, depth: nat)
    requires Read(t, b, depth).Some?
    ensures Read(t, b + tail, depth) == Read(t, b, depth)
  {
    hide Read, Encoding, Fits, Meaning;
    var x := Sound(t, b, depth);
    var n := |Encoding(x)|;
    assert b + tail == Encoding(x) + (b[n..] + tail);
    Complete(t, x, b[n..] + tail, depth);
  }

  /** No encoding is the front of another, and none has two meanings. */
  lemma {:induction false} EncodingsArePrefixFree(t: Text, x: Wire, y: Wire, depth: nat)
    requires Fits(t, x, depth) && Fits(t, y, depth) && Encoding(x) <= Encoding(y)
    ensures Encoding(x) == Encoding(y) && Meaning(t, x) == Meaning(t, y)
  {
    hide Read, Encoding, Fits, Meaning;
    var n := |Encoding(x)|;
    Complete(t, x, Encoding(y)[n..], depth);
    Complete(t, y, [], depth);
    assert Encoding(y) + [] == Encoding(y) == Encoding(x) + Encoding(y)[n..];
  }

  function KeyAt(t: Text, vs: seq<Value>, i: nat): Bytes
    requires i < |vs| / 2
  {
    Key(t, vs[2 * i])
  }

  lemma {:induction false} ShownKeys(t: Text, vs: seq<Value>, k: Bytes)
    requires |vs| % 2 == 0
    ensures k in Pairs(t, vs) <==> exists i :: 0 <= i < |vs| / 2 && KeyAt(t, vs, i) == k
    ensures |Pairs(t, vs)| <= |vs| / 2
  {
    if |vs| >= 2 {
      var front, n := vs[..|vs| - 2], |vs| / 2 - 1;
      ShownKeys(t, front, k);
      assert KeyAt(t, vs, n) == Key(t, vs[|vs| - 2]);
      if k in Pairs(t, front) {
        var i :| 0 <= i < n && KeyAt(t, front, i) == k;
        assert KeyAt(t, vs, i) == k;
      }
      forall i | 0 <= i < n && KeyAt(t, vs, i) == k
        ensures k in Pairs(t, front)
      {
        assert KeyAt(t, front, i) == k;
      }
    }
  }

  /** A map shows as many entries as it holds exactly when no two of its keys
      are shown as the same string; then each key shows its own value. */
  lemma {:induction false} EveryEntryShownIff(t: Text, vs: seq<Value>)
    requires |vs| % 2 == 0
    ensures |Pairs(t, vs)| == |vs| / 2 <==>
              forall i, j :: 0 <= i < j < |vs| / 2 ==> KeyAt(t, vs, i) != KeyAt(t, vs, j)
    ensures |Pairs(t, vs)| == |vs| / 2 ==>
              forall i :: 0 <= i < |vs| / 2 ==>
                KeyAt(t, vs, i) in Pairs(t, vs) && Pairs(t, vs)[KeyAt(t, vs, i)] == vs[2 * i + 1]
  {
    hide Key;
    if |vs| >= 2 {
      var front, n := vs[..|vs| - 2], |vs| / 2 - 1;
      var k := KeyAt(t, vs, n);
      EveryEntryShownIff(t, front);
      ShownKeys(t, front, k);
      forall i | 0 <= i < n
        ensures KeyAt(t, front, i) == KeyAt(t, vs, i)
      {
      }
      if k in Pairs(t, front) {
        var i :| 0 <= i < n && KeyAt(t, front, i) == k;
        assert KeyAt(t, vs, i) == KeyAt(t, vs, n);
      }
    }
  }

  // --- bytes whose meaning is known ---

  lemma KnownScalars(t: Text)
    ensures Read(t, [0xc0], 0) == Some((Null, 1))
    ensures Read(t, [0xc2], 0) == Some((Bool(false), 1)) && Read(t, [0xc3], 0) == Some((Bool(true), 1))
    ensures Read(t, [0x7f], 0) == Some((Int(127), 1)) && Read(t, [0xff], 0) == Some((Int(-1), 1))
    ensures Read(t, [0xc1], 0) == None
  {
  }

  lemma Known16Bits(b: Bytes)
    requires |b| >= 3
    ensures BigEndian(b[1..3]) == 256 * (b[1] as int) + b[2]
  {
    assert b[1..3][..1] == [b[1]] && [b[1]][..0] == [];
    assert BigEndian(b[1..3]) == 256 * BigEndian([b[1]]) + b[2];
  }

  lemma KnownNumbers(t: Text)
    ensures Read(t, [0xcd, 0x01, 0x2c], 0) == Some((Int(300), 3))
    ensures Read(t, [0xd1, 0xff, 0x7f], 0) == Some((Int(-129), 3))
  {
    hide BigEndian, Pow256, ReadAll;
    Known16Bits([0xcd, 0x01, 0x2c]);
    Known16Bits([0xd1, 0xff, 0x7f]);
    Widths();
  }

  /** {1: 2}, whose key is shown as a string. */
  lemma KnownMap(t: Text)
    ensures Read(t, [0x81, 0x01, 0x02], 0) == Some((Obj(map[t.show(Int(1)) := Int(2)]), 3))
  {
    var b: Bytes := [0x81, 0x01, 0x02];
    assert ReadStart(b) == Some((Entries(1), 1));
    assert Read(t, b[1..], 1) == Some((Int(1), 1)) && Read(t, b[1..][1..], 1) == Some((Int(2), 1));
    assert ReadAll(t, b[1..][1..][1..], 0, 1) == Some(([], 0));
    assert ReadAll(t, b[1..][1..], 1, 1) == Some(([Int(2)] + [], 1));
    assert ReadAll(t, b[1..], 2, 1) == Some(([Int(1)] + ([Int(2)] + []), 2));
    var vs := [Int(1)] + ([Int(2)] + []);
    assert vs[..0] == [];
    assert Pairs(t, vs) == map[][t.show(Int(1)) := Int(2)];
  }
}
