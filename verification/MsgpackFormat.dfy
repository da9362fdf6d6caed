/** The MessagePack wire format: what each format's bytes are and mean, after
    the section "Formats" of the MessagePack specification, for every format
    but the extension types. */
module MsgpackFormat {
  import opened Collections

  type byte = b: int | 0 <= b < 256

  type Bytes = seq<byte>

  const MAX_DEPTH: nat := 32

  /** A decoded value. Integers of either signedness are numbers, floats keep
      their bits, and binary has become text. */
  datatype Value =
    | Null
    | Bool(b: bool)
    | Int(n: int)
    | Float32(bits: nat)
    | Float64(bits: nat)
    | Str(s: Bytes)
    | Arr(items: seq<Value>)
    | Obj(m: map<Bytes, Value>)

  /** Byte-level questions the decoder asks of its libraries. */
  datatype Text = Text(utf8: Bytes -> bool, printable: Bytes -> bool, show: Value -> Bytes)

  // --- big-endian fields ---

  function Pow256(w: nat): (p: nat)
    ensures p > 0
  {
    if w == 0 then 1 else 256 * Pow256(w - 1)
  }

  function BigEndian(b: Bytes): nat {
    if b == [] then 0 else 256 * BigEndian(b[..|b| - 1]) + b[|b| - 1]
  }

  function Field(n: nat, w: nat): (b: Bytes)
    ensures |b| == w
  {
    if w == 0 then [] else Field(n / 256, w - 1) + [n % 256]
  }

  lemma {:induction false} FieldRoundTrip(n: nat, w: nat)
    requires n < Pow256(w)
    ensures BigEndian(Field(n, w)) == n
  {
    if w > 0 {
      FieldRoundTrip(n / 256, w - 1);
      assert Field(n, w)[..w - 1] == Field(n / 256, w - 1);
    }
  }

  lemma {:induction false} BigEndianRoundTrip(b: Bytes)
    ensures BigEndian(b) < Pow256(|b|)
    ensures Field(BigEndian(b), |b|) == b
  {
    if b != [] {
      var n := |b| - 1;
      BigEndianRoundTrip(b[..n]);
      assert BigEndian(b) / 256 == BigEndian(b[..n]) && BigEndian(b) % 256 == b[n];
      assert b == b[..n] + [b[n]];
    }
  }

  // --- the formats ---

  /** An encoding: the format chosen for each value, and its payload. `w` is
      the width in bytes of the length or number that follows the first byte;
      0 is the fix format. Map items are keys and values in turn. */
  datatype Wire =
    | NilFormat
    | BoolFormat(b: bool)
    | PosFixInt(n: int)
    | NegFixInt(n: int)
    | UIntFormat(w: nat, n: int)
    | IntFormat(w: nat, n: int)
    | Float32Format(bits: nat)
    | Float64Format(bits: nat)
    | BinFormat(w: nat, raw: Bytes)
    | StrFormat(w: nat, raw: Bytes)
    | ArrayFormat(w: nat, items: seq<Wire>)
    | MapFormat(w: nat, items: seq<Wire>)

  /** A length that the format can state. */
  predicate LengthFits(w: nat, n: nat, fix: nat, least: nat) {
    if w == 0 then n < fix else (w == least || w == 2 || w == 4) && n < Pow256(w)
  }

  predicate NumberWidth(w: nat) {
    w == 1 || w == 2 || w == 4 || w == 8
  }

  /** A format that can hold what it carries. */
  predicate Ranges(x: Wire) {
    match x
    case NilFormat => true
    case BoolFormat(_) => true
    case PosFixInt(n) => 0 <= n < 128
    case NegFixInt(n) => -32 <= n < 0
    case UIntFormat(w, n) => NumberWidth(w) && 0 <= n < Pow256(w)
    case IntFormat(w, n) => NumberWidth(w) && -(Pow256(w) / 2) <= n < Pow256(w) / 2
    case Float32Format(bits) => bits < Pow256(4)
    case Float64Format(bits) => bits < Pow256(8)
    case BinFormat(w, raw) => w > 0 && LengthFits(w, |raw|, 0, 1)
    case StrFormat(w, raw) => LengthFits(w, |raw|, 32, 1)
    case ArrayFormat(w, items) => LengthFits(w, |items|, 16, 2)
    case MapFormat(w, items) => |items| % 2 == 0 && LengthFits(w, |items| / 2, 16, 2)
  }

  function Items(x: Wire): seq<Wire> {
    match x
    case ArrayFormat(_, items) => items
    case MapFormat(_, items) => items
    case _ => []
  }

  /** A wire tree whose strings are UTF-8 and which nests no deeper than the
      reader follows. */
  predicate Fits(t: Text, x: Wire, depth: nat)
    decreases x
  {
    depth <= MAX_DEPTH && Ranges(x) && (x.StrFormat? ==> t.utf8(x.raw)) &&
    match x
    case ArrayFormat(_, items) => AllFit(t, items, depth + 1)
    case MapFormat(_, items) => AllFit(t, items, depth + 1)
    case _ => true
  }

  predicate AllFit(t: Text, xs: seq<Wire>, depth: nat)
    decreases xs
  {
    xs == [] || (Fits(t, xs[0], depth) && AllFit(t, xs[1..], depth))
  }

  /** The widths 1, 2, 4 and 8 pick consecutive formats. */
  function WidthIndex(w: nat): (k: nat)
    ensures k <= 3
  {
    if w <= 1 then 0 else if w == 2 then 1 else if w <= 4 then 2 else 3
  }

  /** The first byte, and the length or number after it. A number is stored
      modulo its width: two's complement. */
  function Head(x: Wire): (b: Bytes)
    ensures b != []
  {
    match x
    case NilFormat => [0xc0]
    case BoolFormat(b) => [if b then 0xc3 else 0xc2]
    case PosFixInt(n) => [n % 256]
    case NegFixInt(n) => [n % 256]
    case UIntFormat(w, n) => [0xcc + WidthIndex(w)] + Field(n % Pow256(w), w)
    case IntFormat(w, n) => [0xd0 + WidthIndex(w)] + Field(n % Pow256(w), w)
    case Float32Format(bits) => [0xca] + Field(bits, 4)
    case Float64Format(bits) => [0xcb] + Field(bits, 8)
    case BinFormat(w, raw) => [0xc4 + WidthIndex(w)] + Field(|raw|, w)
    case StrFormat(w, raw) => if w == 0 then [(0xa0 + |raw|) % 256] else [0xd9 + WidthIndex(w)] + Field(|raw|, w)
    case ArrayFormat(w, items) =>
      if w == 0 then [(0x90 + |items|) % 256] else [0xdb + WidthIndex(w)] + Field(|items|, w)
    case MapFormat(w, items) =>
      if w == 0 then [(0x80 + |items| / 2) % 256] else [0xdd + WidthIndex(w)] + Field(|items| / 2, w)
  }

  /** The bytes of a wire tree. */
  function Encoding(x: Wire): (b: Bytes)
    ensures b != []
    decreases x
  {
    Head(x) +
    match x
    case BinFormat(_, raw) => raw
    case StrFormat(_, raw) => raw
    case ArrayFormat(_, items) => Encodings(items)
    case MapFormat(_, items) => Encodings(items)
    case _ => []
  }

  function Encodings(xs: seq<Wire>): (b: Bytes)
    ensures |b| >= |xs|
    decreases xs
  {
    if xs == [] then [] else Encoding(xs[0]) + Encodings(xs[1..])
  }

  // --- what it means ---

  function HexDigit(d: nat): byte
    requires d < 16
  {
    if d < 10 then 0x30 + d else 0x61 + (d - 10)
  }

  function Hex(b: Bytes): (h: Bytes)
    ensures |h| == 2 * |b|
  {
    if b == [] then [] else [HexDigit(b[0] / 16), HexDigit(b[0] % 16)] + Hex(b[1..])
  }

  /** Nested binary is shown as it is when it is printable text, else as hex. */
  function Binary(t: Text, raw: Bytes): Bytes {
    if t.utf8(raw) && t.printable(raw) then raw else [0x30, 0x78] + Hex(raw)
  }

  function HexValue(c: byte): int {
    if c < 0x61 then c - 0x30 else c - 0x61 + 10
  }

  lemma {:induction false} HexDigits(b: Bytes)
    ensures forall c <- Hex(b) :: 0x30 <= c <= 0x39 || 0x61 <= c <= 0x66
  {
    if b != [] {
      HexDigits(b[1..]);
    }
  }

  lemma {:induction false} HexReadsBack(b: Bytes, i: nat)
    requires i < |b|
    ensures 16 * HexValue(Hex(b)[2 * i]) + HexValue(Hex(b)[2 * i + 1]) == b[i]
    ensures forall c <- Hex(b) :: 0x30 <= c <= 0x39 || 0x61 <= c <= 0x66
  {
    if i > 0 {
      HexReadsBack(b[1..], i - 1);
      assert Hex(b)[2 * i] == Hex(b[1..])[2 * (i - 1)] && Hex(b)[2 * i + 1] == Hex(b[1..])[2 * (i - 1) + 1];
    } else {
      HexDigits(b);
    }
  }

  /** Printable text is shown as it is; anything else as "0x" and two
      lower-case digits a byte, from which its bytes can be read back. */
  lemma BinaryShown(t: Text, raw: Bytes)
    ensures t.utf8(raw) && t.printable(raw) ==> Binary(t, raw) == raw
    ensures !(t.utf8(raw) && t.printable(raw)) ==>
              var shown := Binary(t, raw);
              && |shown| == 2 + 2 * |raw| && shown[..2] == [0x30, 0x78]
              && (forall c <- shown[2..] :: 0x30 <= c <= 0x39 || 0x61 <= c <= 0x66)
              && forall i :: 0 <= i < |raw| ==> 16 * HexValue(shown[2 + 2 * i]) + HexValue(shown[3 + 2 * i]) == raw[i]
  {
    HexDigits(raw);
    forall i | 0 <= i < |raw|
      ensures 16 * HexValue(Hex(raw)[2 * i]) + HexValue(Hex(raw)[2 * i + 1]) == raw[i]
    {
      HexReadsBack(raw, i);
    }
  }

  /** Object keys must be strings, so any other key is shown as one. */
  function Key(t: Text, v: Value): Bytes {
    match v
    case Str(s) => s
    case Null => [0x6e, 0x75, 0x6c, 0x6c]
    case _ => t.show(v)
  }

  /** Keys and values in turn; a key that comes again replaces its value. */
  function Pairs(t: Text, vs: seq<Value>): map<Bytes, Value> {
    if |vs| < 2 then map[] else Pairs(t, vs[..|vs| - 2])[Key(t, vs[|vs| - 2]) := vs[|vs| - 1]]
  }

  function Meaning(t: Text, x: Wire): Value
    decreases x
  {
    match x
    case NilFormat => Null
    case BoolFormat(b) => Bool(b)
    case PosFixInt(n) => Int(n)
    case NegFixInt(n) => Int(n)
    case UIntFormat(_, n) => Int(n)
    case IntFormat(_, n) => Int(n)
    case Float32Format(bits) => Float32(bits)
    case Float64Format(bits) => Float64(bits)
    case BinFormat(_, raw) => Str(Binary(t, raw))
    case StrFormat(_, raw) => Str(raw)
    case ArrayFormat(_, items) => Arr(Meanings(t, items))
    case MapFormat(_, items) => Obj(Pairs(t, Meanings(t, items)))
  }

  function Meanings(t: Text, xs: seq<Wire>): (vs: seq<Value>)
    ensures |vs| == |xs|
    decreases xs
  {
    if xs == [] then [] else [Meaning(t, xs[0])] + Meanings(t, xs[1..])
  }

  // --- reading, as a function ---

  datatype Start =
    | Scalar(v: Value)
    | RawBin(n: nat)
    | RawStr(n: nat)
    | Elements(n: nat)
    | Entries(n: nat)

  /** A field of `w` bytes after the first byte. */
  function FieldAt(b: Bytes, w: nat): Option<nat> {
    if |b| < 1 + w then None else Some(BigEndian(b[1..1 + w]))
  }

  /** Two's complement of `w` bytes. */
  function Signed(n: nat, w: nat): int {
    if n < Pow256(w) / 2 then n else n - Pow256(w)
  }

  function WithField(b: Bytes, w: nat, start: nat -> Start): Option<(Start, nat)> {
    match FieldAt(b, w)
    case None => None
    case Some(n) => Some((start(n), 1 + w))
  }

  /** What the first byte and its field announce, and their length. */
  function ReadStart(b: Bytes): (r: Option<(Start, nat)>)
    requires b != []
    ensures r.Some? ==> 1 <= r.value.1 <= |b|
  {
    var c := b[0];
    if c <= 0x7f then Some((Scalar(Int(c)), 1))
    else if c <= 0x8f then Some((Entries(c - 0x80), 1))
    else if c <= 0x9f then Some((Elements(c - 0x90), 1))
    else if c <= 0xbf then Some((RawStr(c - 0xa0), 1))
    else if c >= 0xe0 then Some((Scalar(Int(c as int - 256)), 1))
    else match c
      case 0xc0 => Some((Scalar(Null), 1))
      case 0xc2 => Some((Scalar(Bool(false)), 1))
      case 0xc3 => Some((Scalar(Bool(true)), 1))
      case 0xc4 => WithField(b, 1, (n: nat) => RawBin(n))
      case 0xc5 => WithField(b, 2, (n: nat) => RawBin(n))
      case 0xc6 => WithField(b, 4, (n: nat) => RawBin(n))
      case 0xca => WithField(b, 4, (n: nat) => Scalar(Float32(n)))
      case 0xcb => WithField(b, 8, (n: nat) => Scalar(Float64(n)))
      case 0xcc => WithField(b, 1, (n: nat) => Scalar(Int(n)))
      case 0xcd => WithField(b, 2, (n: nat) => Scalar(Int(n)))
      case 0xce => WithField(b, 4, (n: nat) => Scalar(Int(n)))
      case 0xcf => WithField(b, 8, (n: nat) => Scalar(Int(n)))
      case 0xd0 => WithField(b, 1, (n: nat) => Scalar(Int(Signed(n, 1))))
      case 0xd1 => WithField(b, 2, (n: nat) => Scalar(Int(Signed(n, 2))))
      case 0xd2 => WithField(b, 4, (n: nat) => Scalar(Int(Signed(n, 4))))
      case 0xd3 => WithField(b, 8, (n: nat) => Scalar(Int(Signed(n, 8))))
      case 0xd9 => WithField(b, 1, (n: nat) => RawStr(n))
      case 0xda => WithField(b, 2, (n: nat) => RawStr(n))
      case 0xdb => WithField(b, 4, (n: nat) => RawStr(n))
      case 0xdc => WithField(b, 2, (n: nat) => Elements(n))
      case 0xdd => WithField(b, 4, (n: nat) => Elements(n))
      case 0xde => WithField(b, 2, (n: nat) => Entries(n))
      case 0xdf => WithField(b, 4, (n: nat) => Entries(n))
      case _ => None
  }

  function Raw(b: Bytes, k: nat, n: nat): Option<Bytes>
    requires k <= |b|
  {
    if k + n > |b| then None else Some(b[k..k + n])
  }

  /** A value at the front of `b`, and how many bytes it takes. */
  function Read(t: Text, b: Bytes, depth: nat): (r: Option<(Value, nat)>)
    ensures r.Some? ==> 1 <= r.value.1 <= |b|
    decreases |b|, 0
  {
    if depth > MAX_DEPTH || b == [] then None else
      match ReadStart(b)
      case None => None
      case Some((Scalar(v), k)) => Some((v, k))
      case Some((RawBin(n), k)) =>
        (match Raw(b, k, n)
         case None => None
         case Some(raw) => Some((Str(Binary(t, raw)), k + n)))
      case Some((RawStr(n), k)) =>
        (match Raw(b, k, n)
         case None => None
         case Some(raw) => if t.utf8(raw) then Some((Str(raw), k + n)) else None)
      case Some((Elements(n), k)) =>
        (match ReadAll(t, b[k..], n, depth + 1)
         case None => None
         case Some((vs, m)) => Some((Arr(vs), k + m)))
      case Some((Entries(n), k)) =>
        (match ReadAll(t, b[k..], 2 * n, depth + 1)
         case None => None
         case Some((vs, m)) => Some((Obj(Pairs(t, vs)), k + m)))
  }

  /** `n` values, one after another. */
  function ReadAll(t: Text, b: Bytes, n: nat, depth: nat): (r: Option<(seq<Value>, nat)>)
    ensures r.Some? ==> |r.value.0| == n && n <= r.value.1 <= |b|
    decreases |b|, n
  {
    if n == 0 then Some(([], 0)) else
      match Read(t, b, depth)
      case None => None
      case Some((v, k)) =>
        match ReadAll(t, b[k..], n - 1, depth)
        case None => None
        case Some((vs, m)) => Some(([v] + vs, k + m))
  }
}
