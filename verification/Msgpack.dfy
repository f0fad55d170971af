/**
  The MessagePack subset spoken over the LTX FIFO pair: what `decode_one` accepts, refuses or
  leaves undecided, and the encoding of the requests' own fields.
  Formats follow the MessagePack specification, section "Formats".
 */
module Msgpack {
  import opened Bytes

  const MAX_FIELDS: nat := 8
  const MAX_FIELD_BYTES: nat := 8 * 0x10_0000

  /** A scalar value; text and binary payloads are kept as bytes, floats as their raw bits. */
  datatype Field =
    | Nil
    | Bool(b: bool)
    | U64(u: nat)
    | I64(i: int)
    | F64(bits: bytes)
    | Str(text: bytes)
    | Bin(data: bytes)

  /**
    Outcome of reading a value: complete, ending before position `end`; cut short but fine so far;
    or refused for good.
   */
  datatype Parse<+T> = Done(value: T, end: nat) | More | Corrupt

  // ---------------------------------------------------------------- decoding

  /** Number of length or value bytes that follow a marker; the families double within a group. */
  function Wide(step: nat): (w: nat)
    requires step < 4
    ensures 1 <= w <= 8
  {
    if step == 0 then 1 else if step == 1 then 2 else if step == 2 then 4 else 8
  }

  function Signed(v: nat, width: nat): int {
    if width == 1 then if v < 0x80 then v else v - 0x100
    else if width == 2 then if v < 0x8000 then v else v - 0x1_0000
    else if width == 4 then if v < 0x8000_0000 then v else v - 0x1_0000_0000
    else if v < 0x8000_0000_0000_0000 then v else v - 0x1_0000_0000_0000_0000
  }

  /** The payload of a string or binary value; text that is not UTF-8 is handed over as binary. */
  function Payload(b: bytes, at: nat, len: nat, text: bool): (r: Parse<Field>)
    ensures r.Done? ==> r.end == at + len <= |b|
  {
    if |b| < at + len then More
    else if len > MAX_FIELD_BYTES then Corrupt
    else
      var d := b[at..at + len];
      Done(if text && Utf8(d) then Str(d) else Bin(d), at + len)
  }

  function Sized(b: bytes, at: nat, width: nat, text: bool): (r: Parse<Field>)
    ensures r.Done? ==> at + width <= r.end <= |b|
  {
    if |b| < at + width then More
    else Payload(b, at + width, Number(b, at, width), text)
  }

  /** Containers and extensions are refused as soon as their length has been read. */
  function Refused(b: bytes, at: nat, width: nat): Parse<Field> {
    if |b| < at + width then More else Corrupt
  }

  /** Reads the scalar value that starts at position `at`. */
  function DecodeField(b: bytes, at: nat): (r: Parse<Field>)
    ensures r.Done? ==> at < r.end <= |b|
  {
    if |b| <= at then More else
    var m: int := b[at];
    var next := at + 1;
    if m < 0x80 then Done(U64(m), next)
    else if m < 0xA0 then Corrupt
    else if m < 0xC0 then Payload(b, next, m - 0xA0, true)
    else if m == 0xC0 then Done(Nil, next)
    else if m == 0xC1 then Corrupt
    else if m <= 0xC3 then Done(Bool(m == 0xC3), next)
    else if m <= 0xC6 then Sized(b, next, Wide(m - 0xC4), false)
    else if m <= 0xC9 then Refused(b, next, Wide(m - 0xC7))
    else if m <= 0xCB then
      var w := Wide(m - 0xC8);
      if |b| < next + w then More else Done(F64(b[next..next + w]), next + w)
    else if m <= 0xCF then
      var w := Wide(m - 0xCC);
      if |b| < next + w then More else Done(U64(Number(b, next, w)), next + w)
    else if m <= 0xD3 then
      var w := Wide(m - 0xD0);
      if |b| < next + w then More else Done(I64(Signed(Number(b, next, w), w)), next + w)
    else if m <= 0xD8 then Corrupt
    else if m <= 0xDB then Sized(b, next, Wide(m - 0xD9), true)
    else if m <= 0xDD then Refused(b, next, Wide(m - 0xDB))
    else if m <= 0xDF then Refused(b, next, Wide(m - 0xDD))
    else Done(I64(m - 256), next)
  }

  /** `left` more elements behind `got` accepted ones; the ninth element is refused once read. */
  function DecodeFields(b: bytes, at: nat, left: nat, got: nat): (r: Parse<seq<Field>>)
    requires at <= |b|
    ensures r.Done? ==> at <= r.end <= |b|
    decreases left
  {
    if left == 0 then Done([], at) else
    match DecodeField(b, at)
    case More => More
    case Corrupt => Corrupt
    case Done(f, next) =>
      if got + 1 > MAX_FIELDS then Corrupt else
      match DecodeFields(b, next, left - 1, got + 1)
      case More => More
      case Corrupt => Corrupt
      case Done(fs, end) => Done([f] + fs, end)
  }

  /** One frame from the head of the stream: a flat array; any other top-level value is refused. */
  function DecodeOne(b: bytes): (r: Parse<seq<Field>>)
    ensures r.Done? ==> 1 <= r.end <= |b|
  {
    if b == [] then More else
    var m: int := b[0];
    if 0x90 <= m < 0xA0 then DecodeFields(b, 1, m - 0x90, 0)
    else if 0xDC <= m <= 0xDD then
      var w := Wide(m - 0xDB);
      if |b| < 1 + w then More else DecodeFields(b, 1 + w, Number(b, 1, w), 0)
    else if DecodeField(b, 0).More? then More else Corrupt
  }

  // ------------------------------------------------- decisions survive more input

  lemma SliceOfLonger(b: bytes, c: bytes, i: nat, j: nat)
    requires i <= j <= |b|
    ensures (b + c)[i..j] == b[i..j]
  {}

  lemma NumberOfLonger(b: bytes, c: bytes, at: nat, width: nat)
    requires at + width <= |b|
    ensures Number(b + c, at, width) == Number(b, at, width)
  {
    SameNumber(b + c, at, b, at, width);
  }

  lemma PayloadDecided(b: bytes, c: bytes, at: nat, len: nat, text: bool)
    requires !Payload(b, at, len, text).More?
    ensures Payload(b + c, at, len, text) == Payload(b, at, len, text)
  {
    SliceOfLonger(b, c, at, at + len);
  }

  lemma SizedDecided(b: bytes, c: bytes, at: nat, width: nat, text: bool)
    requires !Sized(b, at, width, text).More?
    ensures Sized(b + c, at, width, text) == Sized(b, at, width, text)
  {
    NumberOfLonger(b, c, at, width);
    PayloadDecided(b, c, at + width, Number(b, at, width), text);
  }

  lemma FieldDecided(b: bytes, c: bytes, at: nat)
    requires !DecodeField(b, at).More?
    ensures DecodeField(b + c, at) == DecodeField(b, at)
  {
    var m: int := b[at];
    assert (b + c)[at] == m;
    if 0xA0 <= m < 0xC0 {
      PayloadDecided(b, c, at + 1, m - 0xA0, true);
    } else if 0xC4 <= m <= 0xC6 {
      SizedDecided(b, c, at + 1, Wide(m - 0xC4), false);
    } else if 0xCA <= m <= 0xCB {
      SliceOfLonger(b, c, at + 1, at + 1 + Wide(m - 0xC8));
    } else if 0xCC <= m <= 0xCF {
      NumberOfLonger(b, c, at + 1, Wide(m - 0xCC));
    } else if 0xD0 <= m <= 0xD3 {
      NumberOfLonger(b, c, at + 1, Wide(m - 0xD0));
    } else if 0xD9 <= m <= 0xDB {
      SizedDecided(b, c, at + 1, Wide(m - 0xD9), true);
    }
  }

  lemma {:induction false} FieldsDecided(b: bytes, c: bytes, at: nat, left: nat, got: nat)
    requires at <= |b| && !DecodeFields(b, at, left, got).More?
    ensures DecodeFields(b + c, at, left, got) == DecodeFields(b, at, left, got)
    decreases left
  {
    if left > 0 {
      FieldDecided(b, c, at);
      var head := DecodeField(b, at);
      if head.Done? && got + 1 <= MAX_FIELDS {
        FieldsDecided(b, c, head.end, left - 1, got + 1);
      }
    }
  }

  /** Once a frame is complete or refused, later bytes cannot change the verdict. */
  lemma FrameDecided(b: bytes, c: bytes)
    requires !DecodeOne(b).More?
    ensures DecodeOne(b + c) == DecodeOne(b)
  {
    var m: int := b[0];
    assert (b + c)[0] == m;
    if 0x90 <= m < 0xA0 {
      FieldsDecided(b, c, 1, m - 0x90, 0);
    } else if 0xDC <= m <= 0xDD {
      var w := Wide(m - 0xDB);
      NumberOfLonger(b, c, 1, w);
      FieldsDecided(b, c, 1 + w, Number(b, 1, w), 0);
    } else {
      FieldDecided(b, c, 0);
    }
  }

  /** Every strict prefix of a complete frame asks for more bytes: frames are self-delimiting. */
  lemma StrictPrefixNeedsMore(b: bytes, k: nat)
    requires DecodeOne(b).Done? && k < DecodeOne(b).end
    ensures DecodeOne(b[..k]) == More
  {
    if !DecodeOne(b[..k]).More? {
      assert b[..k] + b[k..] == b;
      FrameDecided(b[..k], b[k..]);
    }
  }

  // ---------------------------------------------------------------- encoding

  /** The kinds of values requests are made of: a byte, text, or a binary payload. */
  predicate Packable(f: Field) {
    match f
    case U64(u) => u < 256
    case Str(t) => Utf8(t) && |t| < 0x1_0000_0000
    case Bin(d) => |d| < 0x1_0000_0000
    case _ => false
  }

  /** A packable value the receiving side accepts. */
  predicate Fits(f: Field) {
    && Packable(f)
    && (f.Str? ==> |f.text| <= MAX_FIELD_BYTES)
    && (f.Bin? ==> |f.data| <= MAX_FIELD_BYTES)
  }

  /** The shortest marker and length of a string or binary value; `base` is the one-byte form. */
  function Header(base: byte, n: nat): (h: bytes)
    requires base < 0xF0 && n < 0x1_0000_0000
    ensures 2 <= |h| <= 5 && base <= h[0] <= base + 2
    ensures |h| - 1 == Wide(h[0] as int - base) && Number(h, 1, |h| - 1) == n
  {
    if n < 0x100 then
      var h := [base, n];
      assert Number(h, 1, 0) == 0;
      h
    else if n < 0x1_0000 then
      var h := [base + 1] + TwoBytes(n);
      SameNumber(h, 1, TwoBytes(n), 0, 2);
      h
    else
      var h := [base + 2] + FourBytes(n);
      SameNumber(h, 1, FourBytes(n), 0, 4);
      h
  }

  function EncodeField(f: Field): (b: bytes)
    requires Packable(f)
    ensures b != []
  {
    match f
    case U64(u) => if u < 128 then [u] else [0xCC, u]
    case Str(t) => (if |t| < 32 then [0xA0 + |t|] else Header(0xD9, |t|)) + t
    case Bin(d) => Header(0xC4, |d|) + d
  }

  function EncodeFields(fs: seq<Field>): bytes
    requires forall i :: 0 <= i < |fs| ==> Packable(fs[i])
  {
    if fs == [] then [] else EncodeField(fs[0]) + EncodeFields(fs[1..])
  }

  predicate PackableFrame(fs: seq<Field>) {
    |fs| <= MAX_FIELDS && forall i :: 0 <= i < |fs| ==> Packable(fs[i])
  }

  predicate FittingFrame(fs: seq<Field>) {
    |fs| <= MAX_FIELDS && forall i :: 0 <= i < |fs| ==> Fits(fs[i])
  }

  /** A tuple of fewer than sixteen values becomes a one-byte array header and its values. */
  function EncodeFrame(fs: seq<Field>): (b: bytes)
    requires PackableFrame(fs)
    ensures b != []
  {
    [0x90 + |fs|] + EncodeFields(fs)
  }

  /** `part` occurs in `b` at position `at`. */
  predicate Occurs(b: bytes, at: nat, part: bytes) {
    at + |part| <= |b| && b[at..at + |part|] == part
  }

  lemma OccursSplit(b: bytes, at: nat, x: bytes, y: bytes)
    requires Occurs(b, at, x + y)
    ensures Occurs(b, at, x) && Occurs(b, at + |x|, y)
  {
    var s := b[at..at + |x + y|];
    assert |s| == |x| + |y| && s == x + y;
    assert b[at..at + |x|] == s[..|x|];
    assert s[..|x|] == x;
    assert b[at + |x|..at + |x| + |y|] == s[|x|..];
    assert s[|x|..] == y;
  }

  lemma OccursAt(b: bytes, at: nat, part: bytes, k: nat)
    requires Occurs(b, at, part) && k < |part|
    ensures b[at + k] == part[k]
  {
    assert b[at..at + |part|][k] == part[k];
  }

  /** The number written behind a header's marker is the one read back in place. */
  lemma HeaderNumber(b: bytes, at: nat, h: bytes)
    requires h != [] && Occurs(b, at, h)
    ensures Number(b, at + 1, |h| - 1) == Number(h, 1, |h| - 1)
  {
    forall k | at + 1 <= k < at + 1 + (|h| - 1)
      ensures b[k] == h[k - (at + 1) + 1]
    {
      OccursAt(b, at, h, k - at);
    }
    SameNumber(b, at + 1, h, 1, |h| - 1);
  }

  lemma SizedInPlace(b: bytes, at: nat, width: nat, d: bytes, text: bool)
    requires at + width <= |b| && Number(b, at, width) == |d| <= MAX_FIELD_BYTES
    requires Occurs(b, at + width, d) && (text ==> Utf8(d))
    ensures Sized(b, at, width, text) == Done(if text then Str(d) else Bin(d), at + width + |d|)
  {}

  /** A string or binary value with an explicit length is read back in place. */
  lemma SizedRoundTrip(b: bytes, at: nat, base: byte, d: bytes, text: bool)
    requires base < 0xF0 && |d| <= MAX_FIELD_BYTES && (text ==> Utf8(d))
    requires Occurs(b, at, Header(base, |d|) + d)
    ensures base <= b[at] <= base + 2
    ensures Sized(b, at + 1, Wide(b[at] as int - base), text)
         == Done(if text then Str(d) else Bin(d), at + |Header(base, |d|)| + |d|)
  {
    hide Utf8;
    var h := Header(base, |d|);
    var width := |h| - 1;
    assert Occurs(b, at, h) && Occurs(b, at + 1 + width, d) by {
      OccursSplit(b, at, h, d);
    }
    assert Number(b, at + 1, width) == |d| by {
      HeaderNumber(b, at, h);
    }
    assert b[at] == h[0] by {
      OccursAt(b, at, h, 0);
    }
    SizedInPlace(b, at + 1, width, d, text);
  }

  lemma ShortTextRoundTrip(b: bytes, at: nat, t: bytes)
    requires Utf8(t) && |t| < 32 && Occurs(b, at, [0xA0 + |t|] + t)
    ensures DecodeField(b, at) == Done(Str(t), at + 1 + |t|)
  {
    OccursSplit(b, at, [0xA0 + |t|], t);
    OccursAt(b, at, [0xA0 + |t|], 0);
  }

  lemma FieldRoundTrip(b: bytes, at: nat, f: Field)
    requires Fits(f) && Occurs(b, at, EncodeField(f))
    ensures DecodeField(b, at) == Done(f, at + |EncodeField(f)|)
  {
    hide Utf8;
    match f
    case U64(u) =>
      OccursAt(b, at, EncodeField(f), 0);
      if u >= 128 {
        OccursAt(b, at, EncodeField(f), 1);
        assert Number(b, at + 1, 0) == 0;
      }
    case Str(t) =>
      if |t| < 32 {
        ShortTextRoundTrip(b, at, t);
      } else {
        SizedRoundTrip(b, at, 0xD9, t, true);
      }
    case Bin(d) => SizedRoundTrip(b, at, 0xC4, d, false);
  }

  lemma {:induction false} FieldsRoundTrip(b: bytes, at: nat, fs: seq<Field>, got: nat)
    requires got + |fs| <= MAX_FIELDS && forall i :: 0 <= i < |fs| ==> Packable(fs[i]) && Fits(fs[i])
    requires Occurs(b, at, EncodeFields(fs))
    ensures DecodeFields(b, at, |fs|, got) == Done(fs, at + |EncodeFields(fs)|)
    decreases |fs|
  {
    hide DecodeField, EncodeField;
    if fs != [] {
      OccursSplit(b, at, EncodeField(fs[0]), EncodeFields(fs[1..]));
      FieldRoundTrip(b, at, fs[0]);
      FieldsRoundTrip(b, at + |EncodeField(fs[0])|, fs[1..], got + 1);
      assert fs == [fs[0]] + fs[1..];
    }
  }

  lemma BodyOccurs(head: byte, body: bytes, rest: bytes)
    ensures var b := [head] + body + rest; b[0] == head && Occurs(b, 1, body)
  {
    var b := [head] + body + rest;
    assert b[1..1 + |body|] == body;
  }

  /** A packed frame followed by anything decodes to its own fields and uses exactly its own bytes. */
  lemma FrameRoundTrip(fs: seq<Field>, rest: bytes)
    requires PackableFrame(fs) && FittingFrame(fs)
    ensures DecodeOne(EncodeFrame(fs) + rest) == Done(fs, |EncodeFrame(fs)|)
  {
    hide EncodeFields, DecodeFields, DecodeField, Occurs, Packable, Fits, Wide, Number;
    BodyOccurs(0x90 + |fs|, EncodeFields(fs), rest);
    FieldsRoundTrip(EncodeFrame(fs) + rest, 1, fs, 0);
  }
}
