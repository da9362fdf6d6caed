/** The decoder as it is written: a buffer, a position that every read moves
    forward, and recursive reads of containers. */
module MsgpackDecoder {
  import opened Collections
  import opened MsgpackFormat
  import opened MsgpackLaws

  /** Values already read, in front of the ones to come. */
  function Prepend(vs: seq<Value>, k: nat, r: Option<(seq<Value>, nat)>): Option<(seq<Value>, nat)> {
    match r
    case None => None
    case Some((ws, m)) => Some((vs + ws, k + m))
  }

  lemma ReadAllStep(t: Text, b: Bytes, n: nat, depth: nat, v: Value, k: nat)
    requires n > 0 && k <= |b| && Read(t, b, depth) == Some((v, k))
    ensures ReadAll(t, b, n, depth) == Prepend([v], k, ReadAll(t, b[k..], n - 1, depth))
  {
    hide Read;
  }

  lemma ReadAllDone(t: Text, b: Bytes, depth: nat, vs: seq<Value>, k: nat)
    ensures Prepend(vs, k, ReadAll(t, b, 0, depth)) == Some((vs, k))
  {
    assert vs + [] == vs;
  }

  /** The width of the k-th format of a family. */
  function Shift(k: nat): (w: nat)
    requires k <= 3
    ensures w == 1 || w == 2 || w == 4 || w == 8
  {
    if k == 0 then 1 else if k == 1 then 2 else if k == 2 then 4 else 8
  }

  /** The tags, family by family. */
  lemma Tags(b: Bytes)
    requires b != []
    ensures b[0] == 0xc0 ==> ReadStart(b) == Some((Scalar(Null), 1))
    ensures b[0] == 0xc2 ==> ReadStart(b) == Some((Scalar(Bool(false)), 1))
    ensures b[0] == 0xc3 ==> ReadStart(b) == Some((Scalar(Bool(true)), 1))
    ensures 0xc4 <= b[0] <= 0xc6 ==> ReadStart(b) == WithField(b, Shift(b[0] - 0xc4), (n: nat) => RawBin(n))
    ensures b[0] == 0xca ==> ReadStart(b) == WithField(b, 4, (n: nat) => Scalar(Float32(n)))
    ensures b[0] == 0xcb ==> ReadStart(b) == WithField(b, 8, (n: nat) => Scalar(Float64(n)))
    ensures 0xcc <= b[0] <= 0xcf ==> ReadStart(b) == WithField(b, Shift(b[0] - 0xcc), (n: nat) => Scalar(Int(n)))
    ensures 0xd0 <= b[0] <= 0xd3 ==>
              ReadStart(b) == WithField(b, Shift(b[0] - 0xd0), (n: nat) => Scalar(Int(Signed(n, Shift(b[0] - 0xd0)))))
    ensures 0xd9 <= b[0] <= 0xdb ==> ReadStart(b) == WithField(b, Shift(b[0] - 0xd9), (n: nat) => RawStr(n))
    ensures 0xdc <= b[0] <= 0xdd ==> ReadStart(b) == WithField(b, 2 * Shift(b[0] - 0xdc), (n: nat) => Elements(n))
    ensures 0xde <= b[0] <= 0xdf ==> ReadStart(b) == WithField(b, 2 * Shift(b[0] - 0xde), (n: nat) => Entries(n))
    ensures b[0] == 0xc1 || 0xc7 <= b[0] <= 0xc9 || 0xd4 <= b[0] <= 0xd8 ==> ReadStart(b) == None
  {
    hide FieldAt, Signed;
  }

  lemma BinAt(t: Text, b: Bytes, depth: nat, n: nat, k: nat)
    requires depth <= MAX_DEPTH && b != [] && ReadStart(b) == Some((RawBin(n), k))
    ensures Read(t, b, depth) == if n <= |b[k..]| then Some((Str(Binary(t, b[k..][..n])), k + n)) else None
  {
    hide ReadStart, Binary;
    if n <= |b[k..]| {
      assert b[k..][..n] == b[k..k + n];
    }
  }

  lemma StrAt(t: Text, b: Bytes, depth: nat, n: nat, k: nat)
    requires depth <= MAX_DEPTH && b != [] && ReadStart(b) == Some((RawStr(n), k))
    ensures Read(t, b, depth) == if n <= |b[k..]| && t.utf8(b[k..][..n]) then Some((Str(b[k..][..n]), k + n)) else None
  {
    hide ReadStart;
    if n <= |b[k..]| {
      assert b[k..][..n] == b[k..k + n];
    }
  }

  /** The first bytes that carry their own value or length. */
  lemma Fixes(b: Bytes)
    requires b != []
    ensures b[0] <= 0x7f ==> ReadStart(b) == Some((Scalar(Int(b[0])), 1))
    ensures b[0] >= 0xe0 ==> ReadStart(b) == Some((Scalar(Int(b[0] as int - 256)), 1))
    ensures 0x80 <= b[0] <= 0x8f ==> ReadStart(b) == Some((Entries(b[0] - 0x80), 1))
    ensures 0x90 <= b[0] <= 0x9f ==> ReadStart(b) == Some((Elements(b[0] - 0x90), 1))
    ensures 0xa0 <= b[0] <= 0xbf ==> ReadStart(b) == Some((RawStr(b[0] - 0xa0), 1))
  {
    hide FieldAt, Signed;
  }

  lemma PrependNone(r: Option<(seq<Value>, nat)>)
    ensures Prepend([], 0, r) == r
  {
    if r.Some? {
      assert [] + r.value.0 == r.value.0;
    }
  }

  lemma PrependOne(vs: seq<Value>, v: Value, k: nat, n: nat, r: Option<(seq<Value>, nat)>)
    ensures Prepend(vs, k, Prepend([v], n, r)) == Prepend(vs + [v], k + n, r)
  {
    if r.Some? {
      assert vs + ([v] + r.value.0) == (vs + [v]) + r.value.0;
    }
  }

  class Decoder {
    const text: Text
    const buf: Bytes
    var pos: nat

    ghost predicate Valid()
      reads this
    {
      pos <= |buf|
    }

    constructor (text: Text, buf: Bytes)
      ensures Valid() && this.text == text && this.buf == buf && pos == 0
    {
      this.text, this.buf, pos := text, buf, 0;
    }

    /** What is left to read. */
    ghost function Rest(): (b: Bytes)
      reads this
      requires Valid()
      ensures |b| == |buf| - pos
    {
      buf[pos..]
    }

    method Next(n: nat) returns (b: Option<Bytes>)
      requires Valid()
      modifies this
      ensures Valid() && (b.Some? <==> n <= |old(Rest())|)
      ensures b.Some? ==> b.value == old(Rest())[..n] && Rest() == old(Rest())[n..]
      ensures b.None? ==> pos == old(pos)
    {
      if pos + n > |buf| {
        return None;
      }
      b := Some(buf[pos..pos + n]);
      pos := pos + n;
    }

    method Byte() returns (c: Option<byte>)
      requires Valid()
      modifies this
      ensures Valid() && (c.Some? <==> old(Rest()) != [])
      ensures c.Some? ==> c.value == old(Rest())[0] && Rest() == old(Rest())[1..]
    {
      var b := Next(1);
      c := if b.Some? then Some(b.value[0]) else None;
    }

    /** An n-byte big-endian unsigned integer. */
    method UInt(n: nat) returns (v: Option<nat>)
      requires Valid() && n <= 8
      modifies this
      ensures Valid() && (v.Some? <==> n <= |old(Rest())|)
      ensures v.Some? ==> v.value == BigEndian(old(Rest())[..n]) && Rest() == old(Rest())[n..]
      ensures v.Some? ==> v.value < Pow256(n)
    {
      var b := Next(n);
      if b.None? {
        return None;
      }
      var x: nat := 0;
      for i := 0 to n
        invariant x == BigEndian(b.value[..i])
      {
        assert b.value[..i + 1][..i] == b.value[..i];
        x := 256 * x + b.value[i];
      }
      assert b.value[..n] == b.value;
      BigEndianRoundTrip(b.value);
      v := Some(x);
    }

    method DecodeStringN(n: nat) returns (v: Option<Value>)
      requires Valid()
      modifies this
      ensures Valid() && (v.Some? <==> n <= |old(Rest())| && text.utf8(old(Rest())[..n]))
      ensures v.Some? ==> v.value == Str(old(Rest())[..n]) && Rest() == old(Rest())[n..]
    {
      if n > |buf| {
        return None;
      }
      var b := Next(n);
      if b.None? || !text.utf8(b.value) {
        return None;
      }
      v := Some(Str(b.value));
    }

    method DecodeBinary(n: nat) returns (v: Option<Value>)
      requires Valid()
      modifies this
      ensures Valid() && (v.Some? <==> n <= |old(Rest())|)
      ensures v.Some? ==> v.value == Str(Binary(text, old(Rest())[..n])) && Rest() == old(Rest())[n..]
    {
      if n > |buf| {
        return None;
      }
      var b := Next(n);
      if b.None? {
        return None;
      }
      v := Some(Str(Binary(text, b.value)));
    }

    /** Read one value: exactly what the wire format says is there, and no byte
        more. Every read moves forward, so the recursion ends. */
    method DecodeValue(depth: nat) returns (v: Option<Value>)
      requires Valid()
      modifies this
      ensures Valid() && (v.Some? <==> Read(text, old(Rest()), depth).Some?)
      ensures v.Some? ==> Read(text, old(Rest()), depth) == Some((v.value, pos - old(pos))) && old(pos) < pos
      decreases |buf| - pos, 0
    {
      hide FieldAt, ReadStart, Binary, ReadAll, Pairs;
      if depth > MAX_DEPTH {
        return None;
      }
      ghost var b := Rest();
      var first := Byte();
      if first.None? {
        return None;
      }
      var c := first.value;
      Fixes(b);
      if c <= 0x7f {
        v := Some(Int(c));
      } else if c >= 0xe0 {
        v := Some(Int(c as int - 256));
      } else if 0x80 <= c <= 0x8f {
        v := DecodeMap(c - 0x80, depth);
      } else if 0x90 <= c <= 0x9f {
        v := DecodeArray(c - 0x90, depth);
      } else if 0xa0 <= c <= 0xbf {
        StrAt(text, b, depth, c - 0xa0, 1);
        v := DecodeStringN(c - 0xa0);
      } else {
        v := DecodeTagged(c, depth, b);
      }
    }

    /** The field of `w` bytes after the first byte of `b`, which has been read. */
    method TagField(w: nat, ghost b: Bytes) returns (n: Option<nat>)
      requires Valid() && b != [] && b[1..] == Rest() && w <= 8
      modifies this
      ensures Valid() && n == FieldAt(b, w)
      ensures n.Some? ==> pos == old(pos) + w && Rest() == b[1 + w..] && n.value < Pow256(w)
    {
      n := UInt(w);
      if n.Some? {
        assert b[1..1 + w] == b[1..][..w];
        assert b[1 + w..] == b[1..][w..];
      }
    }

    /** The formats whose first byte is only a tag. */
    method DecodeTagged(c: byte, depth: nat, ghost b: Bytes) returns (v: Option<Value>)
      requires Valid() && depth <= MAX_DEPTH && b != [] && b[0] == c && b[1..] == Rest() && 0xc0 <= c <= 0xdf
      modifies this
      ensures Valid() && (v.Some? <==> Read(text, b, depth).Some?)
      ensures v.Some? ==> Read(text, b, depth) == Some((v.value, 1 + pos - old(pos))) && old(pos) <= pos
      decreases |buf| - pos, 3
    {
      hide FieldAt, ReadStart, Binary, ReadAll, Pairs, Pow256;
      Tags(b);
      v := None;
      if c == 0xc0 {
        v := Some(Null);
      } else if c == 0xc2 {
        v := Some(Bool(false));
      } else if c == 0xc3 {
        v := Some(Bool(true));
      } else if 0xc4 <= c <= 0xc6 {
        var n := TagField(Shift(c - 0xc4), b);
        if n.Some? {
          BinAt(text, b, depth, n.value, 1 + Shift(c - 0xc4));
          v := DecodeBinary(n.value);
        }
      } else if 0xca <= c <= 0xd3 {
        v := DecodeNumber(c, depth, b);
      } else if 0xd9 <= c <= 0xdb {
        var n := TagField(Shift(c - 0xd9), b);
        if n.Some? {
          StrAt(text, b, depth, n.value, 1 + Shift(c - 0xd9));
          v := DecodeStringN(n.value);
        }
      } else if 0xdc <= c <= 0xdd {
        v := DecodeCounted(2 * Shift(c - 0xdc), false, depth, b);
      } else if 0xde <= c <= 0xdf {
        v := DecodeCounted(2 * Shift(c - 0xde), true, depth, b);
      }
    }

    /** Floats and the wide integers. */
    method DecodeNumber(c: byte, depth: nat, ghost b: Bytes) returns (v: Option<Value>)
      requires Valid() && depth <= MAX_DEPTH && b != [] && b[0] == c && b[1..] == Rest() && 0xca <= c <= 0xd3
      modifies this
      ensures Valid() && (v.Some? <==> Read(text, b, depth).Some?)
      ensures v.Some? ==> Read(text, b, depth) == Some((v.value, 1 + pos - old(pos))) && old(pos) <= pos
    {
      hide FieldAt, ReadStart, Binary, ReadAll, Pairs, Pow256, Signed;
      Tags(b);
      if c == 0xca {
        var n := TagField(4, b);
        v := if n.Some? then Some(Float32(n.value)) else None;
      } else if c == 0xcb {
        var n := TagField(8, b);
        v := if n.Some? then Some(Float64(n.value)) else None;
      } else if 0xcc <= c <= 0xcf {
        var n := TagField(Shift(c - 0xcc), b);
        v := if n.Some? then Some(Int(n.value)) else None;
      } else if 0xd0 <= c <= 0xd3 {
        var w := Shift(c - 0xd0);
        var n := TagField(w, b);
        v := if n.Some? then Some(Int(Signed(n.value, w))) else None;
      }
    }

    /** A container whose count is a field. A count above the buffer's size is
        refused before anything is read, which refuses nothing that could be
        read: every item takes a byte. */
    method DecodeCounted(w: nat, entries: bool, depth: nat, ghost b: Bytes) returns (v: Option<Value>)
      requires Valid() && depth <= MAX_DEPTH && b != [] && b[1..] == Rest() && 0 < w <= 8
      requires ReadStart(b) == WithField(b, w, (n: nat) => if entries then Entries(n) else Elements(n))
      modifies this
      ensures Valid() && (v.Some? <==> Read(text, b, depth).Some?)
      ensures v.Some? ==> Read(text, b, depth) == Some((v.value, 1 + pos - old(pos))) && old(pos) <= pos
      decreases |buf| - pos, 2
    {
      hide FieldAt, ReadStart, Binary, ReadAll, Pairs, Pow256;
      v := None;
      var n := TagField(w, b);
      if n.None? || n.value > |buf| {
        return;
      }
      if entries {
        v := DecodeMap(n.value, depth);
      } else {
        v := DecodeArray(n.value, depth);
      }
    }

    /** Read the next of `n` values; `out` are those already read since `from`. */
    method NextItem(depth: nat, ghost b: Bytes, ghost n: nat, ghost out: seq<Value>, ghost from: nat)
      returns (item: Option<Value>)
      requires Valid() && |out| < n && from <= pos
      requires ReadAll(text, b, n, depth) == Prepend(out, pos - from, ReadAll(text, Rest(), n - |out|, depth))
      modifies this
      ensures Valid()
      ensures item.None? ==> ReadAll(text, b, n, depth).None?
      ensures item.Some? ==>
                old(pos) < pos
                && ReadAll(text, b, n, depth) ==
                   Prepend(out + [item.value], pos - from, ReadAll(text, Rest(), n - |out| - 1, depth))
      decreases |buf| - pos, 1
    {
      hide Read;
      ghost var here, seen := Rest(), pos - from;
      item := DecodeValue(depth);
      if item.Some? {
        ghost var k := |here| - |Rest()|;
        assert here[k..] == Rest();
        ghost var later := ReadAll(text, Rest(), n - |out| - 1, depth);
        ReadAllStep(text, here, n - |out|, depth, item.value, k);
        PrependOne(out, item.value, seen, k, later);
      }
    }

    method DecodeArray(n: nat, depth: nat) returns (v: Option<Value>)
      requires Valid()
      modifies this
      ensures Valid() && (v.Some? <==> ReadAll(text, old(Rest()), n, depth + 1).Some?)
      ensures v.Some? ==>
                v.value.Arr? && ReadAll(text, old(Rest()), n, depth + 1) == Some((v.value.items, pos - old(pos)))
      decreases |buf| - pos, 2
    {
      hide Read, ReadAll;
      var out := [];
      ghost var b, from := Rest(), pos;
      PrependNone(ReadAll(text, b, n, depth + 1));
      for i := 0 to n
        invariant Valid() && |out| == i && from <= pos
        invariant ReadAll(text, b, n, depth + 1) == Prepend(out, pos - from, ReadAll(text, Rest(), n - i, depth + 1))
      {
        var item := NextItem(depth + 1, b, n, out, from);
        if item.None? {
          return None;
        }
        out := out + [item.value];
      }
      ReadAllDone(text, Rest(), depth + 1, out, pos - from);
      v := Some(Arr(out));
    }

    method DecodeMap(n: nat, depth: nat) returns (v: Option<Value>)
      requires Valid()
      modifies this
      ensures Valid() && (v.Some? <==> ReadAll(text, old(Rest()), 2 * n, depth + 1).Some?)
      ensures v.Some? ==>
                ReadAll(text, old(Rest()), 2 * n, depth + 1).value.1 == pos - old(pos)
                && v.value == Obj(Pairs(text, ReadAll(text, old(Rest()), 2 * n, depth + 1).value.0))
      decreases |buf| - pos, 2
    {
      hide Read, ReadAll, Key;
      var out: map<Bytes, Value> := map[];
      ghost var b, from, items := Rest(), pos, [];
      PrependNone(ReadAll(text, b, 2 * n, depth + 1));
      for i := 0 to n
        invariant Valid() && |items| == 2 * i && from <= pos && out == Pairs(text, items)
        invariant ReadAll(text, b, 2 * n, depth + 1) ==
                  Prepend(items, pos - from, ReadAll(text, Rest(), 2 * n - 2 * i, depth + 1))
      {
        var key := NextItem(depth + 1, b, 2 * n, items, from);
        if key.None? {
          return None;
        }
        var value := NextItem(depth + 1, b, 2 * n, items + [key.value], from);
        if value.None? {
          return None;
        }
        ghost var more := items + [key.value] + [value.value];
        assert more[..|more| - 2] == items;
        out := out[Key(text, key.value) := value.value];
        items := more;
      }
      ReadAllDone(text, Rest(), depth + 1, items, pos - from);
      v := Some(Obj(out));
    }
  }

  /** A payload shows as a value exactly when all of it is one encoded array or
      map; then it shows what the encoding means. */
  method DecodePayload(text: Text, data: Bytes) returns (v: Option<Value>)
    ensures v.Some? <==> exists x: Wire :: Fits(text, x, 0) && Encoding(x) == data && (x.ArrayFormat? || x.MapFormat?)
    ensures forall x: Wire | Fits(text, x, 0) && Encoding(x) == data && (x.ArrayFormat? || x.MapFormat?) ::
              v == Some(Meaning(text, x))
  {
    hide Read, Fits, Encoding;
    var d := new Decoder(text, data);
    assert d.Rest() == data;
    v := d.DecodeValue(0);
    ghost var read := Read(text, data, 0);
    forall x: Wire | Fits(text, x, 0) && Encoding(x) == data
      ensures read == Some((Meaning(text, x), |data|))
    {
      Complete(text, x, [], 0);
      assert data + [] == data;
    }
    if v.None? || d.pos != |data| || (!v.value.Arr? && !v.value.Obj?) {
      return None;
    }
    ghost var x := Sound(text, data, 0);
    assert data[..|data|] == data;
  }
}
