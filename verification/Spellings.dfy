/**
  MessagePack from the writer's side: every form a scalar value may be written in, after the
  specification's section "Formats", and that the decoder reads exactly those.
 */
module Spellings {
  import opened Bytes
  import opened Msgpack

  // ---------------------------------------------------------------- numbers

  /** 256 to the power of `width`. */
  function Power(width: nat): (p: nat)
    ensures p > 0
  {
    if width == 0 then 1 else 256 * Power(width - 1)
  }

  /** The lowest `width` base-256 digits of `v`, most significant first. */
  function BigEndian(v: nat, width: nat): (b: bytes)
    ensures |b| == width
  {
    if width == 0 then [] else BigEndian(v / 256, width - 1) + [v % 256]
  }

  lemma {:induction false} NumberIsSpelled(b: bytes, at: nat, width: nat)
    requires at + width <= |b|
    ensures Number(b, at, width) < Power(width)
    ensures BigEndian(Number(b, at, width), width) == b[at..at + width]
  {
    if width > 0 {
      NumberIsSpelled(b, at, width - 1);
      assert b[at..at + width] == b[at..at + width - 1] + [b[at + width - 1]];
    }
  }

  lemma {:induction false} SpellingIsInjective(v: nat, w: nat, width: nat)
    requires v < Power(width) && w < Power(width) && BigEndian(v, width) == BigEndian(w, width)
    ensures v == w
  {
    if width > 0 {
      var x, y := BigEndian(v / 256, width - 1), BigEndian(w / 256, width - 1);
      assert (x + [v % 256])[..width - 1] == x && (y + [w % 256])[..width - 1] == y;
      assert (x + [v % 256])[width - 1] == (y + [w % 256])[width - 1];
      SpellingIsInjective(v / 256, w / 256, width - 1);
    }
  }

  /** A marker and a number of `width` bytes. */
  predicate Marked(s: bytes, marker: byte, width: nat, v: int) {
    0 <= v < Power(width) && s == [marker] + BigEndian(v, width)
  }

  /** The same for a signed number, in two's complement. */
  predicate MarkedSigned(s: bytes, marker: byte, width: nat, v: int) {
    && 0 <= 2 * v + Power(width) < 2 * Power(width)
    && Marked(s, marker, width, if v < 0 then v + Power(width) else v)
  }

  /** A marker, the length in `width` bytes, and the payload itself. */
  predicate Prefixed(s: bytes, marker: byte, width: nat, d: bytes) {
    |d| < Power(width) && s == [marker] + BigEndian(|d|, width) + d
  }

  /** The forms of a string: a short one with its length in the marker, or a length of 1, 2 or 4 bytes. */
  predicate TextForm(s: bytes, d: bytes) {
    || (|d| < 32 && s == [0xA0 + |d|] + d)
    || Prefixed(s, 0xD9, 1, d) || Prefixed(s, 0xDA, 2, d) || Prefixed(s, 0xDB, 4, d)
  }

  predicate BinaryForm(s: bytes, d: bytes) {
    Prefixed(s, 0xC4, 1, d) || Prefixed(s, 0xC5, 2, d) || Prefixed(s, 0xC6, 4, d)
  }

  /** The bytes are one of the forms of the value; a string that is not UTF-8 counts as binary. */
  predicate Spells(s: bytes, f: Field) {
    match f
    case Nil => s == [0xC0]
    case Bool(b) => s == [if b then 0xC3 else 0xC2]
    case U64(u) =>
      || (u < 128 && s == [u])
      || Marked(s, 0xCC, 1, u) || Marked(s, 0xCD, 2, u) || Marked(s, 0xCE, 4, u) || Marked(s, 0xCF, 8, u)
    case I64(i) =>
      || (-32 <= i < 0 && s == [256 + i])
      || MarkedSigned(s, 0xD0, 1, i) || MarkedSigned(s, 0xD1, 2, i)
      || MarkedSigned(s, 0xD2, 4, i) || MarkedSigned(s, 0xD3, 8, i)
    case F64(bits) => (|bits| == 4 && s == [0xCA] + bits) || (|bits| == 8 && s == [0xCB] + bits)
    case Str(t) => |t| <= 0x80_0000 && Utf8(t) && TextForm(s, t)
    case Bin(d) => |d| <= 0x80_0000 && (BinaryForm(s, d) || (!Utf8(d) && TextForm(s, d)))
  }

  // ---------------------------------------------------------------- one value in a buffer

  lemma PowerValues()
    ensures Power(1) == 0x100 && Power(2) == 0x1_0000 && Power(4) == 0x1_0000_0000
    ensures Power(8) == 0x1_0000_0000_0000_0000
  {
    assert Power(2) == 256 * Power(1);
    assert Power(3) == 256 * Power(2) && Power(4) == 256 * Power(3);
    assert Power(5) == 256 * Power(4) && Power(6) == 256 * Power(5);
    assert Power(7) == 256 * Power(6) && Power(8) == 256 * Power(7);
  }

  /** A marked number between two positions of a buffer. */
  lemma MarkedAt(b: bytes, at: nat, end: nat, marker: byte, width: nat, v: int)
    requires at < end <= |b|
    ensures Marked(b[at..end], marker, width, v)
       <==> b[at] == marker && end == at + 1 + width && Number(b, at + 1, width) == v
  {
    hide BigEndian, Power, Number;
    var s := b[at..end];
    if Marked(s, marker, width, v) {
      assert s[0] == b[at] && |s| == 1 + width;
      assert s[1..] == b[at + 1..end];
      NumberIsSpelled(b, at + 1, width);
      SpellingIsInjective(Number(b, at + 1, width), v, width);
    }
    if b[at] == marker && end == at + 1 + width && Number(b, at + 1, width) == v {
      NumberIsSpelled(b, at + 1, width);
      assert s == [b[at]] + b[at + 1..end];
    }
  }

  lemma PrefixedAt(b: bytes, at: nat, end: nat, marker: byte, width: nat, d: bytes)
    requires at < end <= |b|
    ensures Prefixed(b[at..end], marker, width, d)
       <==> b[at] == marker && at + 1 + width <= end && Number(b, at + 1, width) == |d|
            && end == at + 1 + width + |d| && b[at + 1 + width..end] == d
  {
    hide BigEndian, Power, Number;
    var s := b[at..end];
    if Prefixed(s, marker, width, d) {
      assert s[0] == b[at] && |s| == 1 + width + |d|;
      assert s == [marker] + (BigEndian(|d|, width) + d);
      assert s[1..] == b[at + 1..end] == BigEndian(|d|, width) + d;
      assert b[at + 1..end][..width] == b[at + 1..at + 1 + width];
      assert b[at + 1..end][width..] == b[at + 1 + width..end];
      NumberIsSpelled(b, at + 1, width);
      SpellingIsInjective(Number(b, at + 1, width), |d|, width);
    }
    if b[at] == marker && at + 1 + width <= end && Number(b, at + 1, width) == |d|
       && end == at + 1 + width + |d| && b[at + 1 + width..end] == d {
      NumberIsSpelled(b, at + 1, width);
      assert s == [b[at]] + b[at + 1..at + 1 + width] + b[at + 1 + width..end];
    }
  }

  lemma ShortAt(b: bytes, at: nat, end: nat, head: byte, d: bytes)
    requires at < end <= |b|
    ensures b[at..end] == [head] + d <==> b[at] == head && end == at + 1 + |d| && b[at + 1..end] == d
  {
    var s := b[at..end];
    assert s[0] == b[at] && s[1..] == b[at + 1..end];
  }

  lemma OneByteAt(b: bytes, at: nat, end: nat)
    requires at < end <= |b|
    ensures forall head :: b[at..end] == [head] <==> b[at] == head && end == at + 1
  {
    assert b[at..end][0] == b[at];
    if end == at + 1 {
      assert b[at..end] == [b[at]];
    }
  }

  lemma TextFormAt(b: bytes, at: nat, end: nat, d: bytes)
    requires at < end <= |b|
    ensures TextForm(b[at..end], d) <==>
      (|| (|d| < 32 && b[at] == 0xA0 + |d| && end == at + 1 + |d| && b[at + 1..end] == d)
       || LongAt(b, at, end, 0xD9, 1, d) || LongAt(b, at, end, 0xDA, 2, d) || LongAt(b, at, end, 0xDB, 4, d))
  {
    hide BigEndian, Power, Number, Prefixed;
    if |d| < 32 {
      ShortAt(b, at, end, 0xA0 + |d|, d);
    }
    PrefixedAt(b, at, end, 0xD9, 1, d);
    PrefixedAt(b, at, end, 0xDA, 2, d);
    PrefixedAt(b, at, end, 0xDB, 4, d);
  }

  lemma BinaryFormAt(b: bytes, at: nat, end: nat, d: bytes)
    requires at < end <= |b|
    ensures BinaryForm(b[at..end], d) <==>
      LongAt(b, at, end, 0xC4, 1, d) || LongAt(b, at, end, 0xC5, 2, d) || LongAt(b, at, end, 0xC6, 4, d)
  {
    hide BigEndian, Power, Number, Prefixed;
    PrefixedAt(b, at, end, 0xC4, 1, d);
    PrefixedAt(b, at, end, 0xC5, 2, d);
    PrefixedAt(b, at, end, 0xC6, 4, d);
  }

  /** A payload behind a marker and its length. */
  predicate LongAt(b: bytes, at: nat, end: nat, marker: byte, width: nat, d: bytes)
    requires at < end <= |b|
  {
    b[at] == marker && at + 1 + width <= end && Number(b, at + 1, width) == |d|
    && end == at + 1 + width + |d| && b[at + 1 + width..end] == d
  }

  lemma UnsignedIff(b: bytes, at: nat, end: nat, u: nat)
    requires at < end <= |b|
    ensures DecodeField(b, at) == Done(U64(u), end) <==> Spells(b[at..end], U64(u))
  {
    hide BigEndian, Power, Number, Marked, Msgpack.Signed, Utf8;
    MarkedAt(b, at, end, 0xCC, 1, u);
    MarkedAt(b, at, end, 0xCD, 2, u);
    MarkedAt(b, at, end, 0xCE, 4, u);
    MarkedAt(b, at, end, 0xCF, 8, u);
    OneByteAt(b, at, end);
  }

  lemma SignedAt(b: bytes, at: nat, end: nat, marker: byte, width: nat, i: int)
    requires at < end <= |b| && width in {1, 2, 4, 8}
    ensures MarkedSigned(b[at..end], marker, width, i)
       <==> b[at] == marker && end == at + 1 + width && Msgpack.Signed(Number(b, at + 1, width), width) == i
  {
    hide BigEndian, Number, Marked, Power;
    PowerValues();
    MarkedAt(b, at, end, marker, width, if i < 0 then i + Power(width) else i);
    if end == at + 1 + width {
      NumberIsSpelled(b, at + 1, width);
    }
  }

  lemma SignedIff(b: bytes, at: nat, end: nat, i: int)
    requires at < end <= |b|
    ensures DecodeField(b, at) == Done(I64(i), end) <==> Spells(b[at..end], I64(i))
  {
    hide BigEndian, Power, Number, MarkedSigned, Msgpack.Signed, Utf8;
    SignedAt(b, at, end, 0xD0, 1, i);
    SignedAt(b, at, end, 0xD1, 2, i);
    SignedAt(b, at, end, 0xD2, 4, i);
    SignedAt(b, at, end, 0xD3, 8, i);
    OneByteAt(b, at, end);
  }

  lemma PlainIff(b: bytes, at: nat, end: nat, f: Field)
    requires at < end <= |b| && (f.Nil? || f.Bool? || f.F64?)
    ensures DecodeField(b, at) == Done(f, end) <==> Spells(b[at..end], f)
  {
    hide Number, Msgpack.Signed, Utf8;
    OneByteAt(b, at, end);
    if f.F64? {
      ShortAt(b, at, end, 0xCA, f.bits);
      ShortAt(b, at, end, 0xCB, f.bits);
    }
  }

  lemma TextIff(b: bytes, at: nat, end: nat, t: bytes)
    requires at < end <= |b|
    ensures DecodeField(b, at) == Done(Str(t), end) <==> Spells(b[at..end], Str(t))
  {
    hide Number, Msgpack.Signed, Utf8, TextForm;
    TextFormAt(b, at, end, t);
  }

  lemma BinaryIff(b: bytes, at: nat, end: nat, d: bytes)
    requires at < end <= |b|
    ensures DecodeField(b, at) == Done(Bin(d), end) <==> Spells(b[at..end], Bin(d))
  {
    hide Number, Msgpack.Signed, Utf8, TextForm, BinaryForm;
    TextFormAt(b, at, end, d);
    BinaryFormAt(b, at, end, d);
  }

  /** The decoder reads a value between two positions exactly when the bytes there are one of its forms. */
  lemma DecodesIffSpelled(b: bytes, at: nat, f: Field, end: nat)
    ensures DecodeField(b, at) == Done(f, end) <==> at < end <= |b| && Spells(b[at..end], f)
  {
    hide DecodeField, Spells;
    if at < end <= |b| {
      match f
      case U64(u) => UnsignedIff(b, at, end, u);
      case I64(i) => SignedIff(b, at, end, i);
      case Str(t) => TextIff(b, at, end, t);
      case Bin(d) => BinaryIff(b, at, end, d);
      case _ => PlainIff(b, at, end, f);
    }
  }

  // ---------------------------------------------------------------- a frame

  /** The bytes are forms of the values, one behind the other. */
  ghost predicate SpellsAll(s: bytes, fs: seq<Field>)
    decreases |fs|
  {
    if fs == [] then s == []
    else exists k :: 0 <= k <= |s| && Spells(s[..k], fs[0]) && SpellsAll(s[k..], fs[1..])
  }

  /** The header of an array of `n` values: short, or with the number in 2 or 4 bytes. */
  predicate ArrayHeader(s: bytes, n: nat) {
    (n < 16 && s == [0x90 + n]) || Marked(s, 0xDC, 2, n) || Marked(s, 0xDD, 4, n)
  }

  /** The bytes are an array of these values, no more than eight. */
  ghost predicate SpellsFrame(s: bytes, fs: seq<Field>) {
    |fs| <= 8 && exists k :: 0 <= k <= |s| && ArrayHeader(s[..k], |fs|) && SpellsAll(s[k..], fs)
  }

  lemma {:induction false} FieldsIff(b: bytes, at: nat, left: nat, got: nat, fs: seq<Field>, end: nat)
    requires at <= |b|
    ensures DecodeFields(b, at, left, got) == Done(fs, end)
       <==> |fs| == left && (left == 0 || got + left <= MAX_FIELDS) && at <= end <= |b| && SpellsAll(b[at..end], fs)
    decreases left
  {
    hide DecodeField, Spells;
    if left > 0 {
      if DecodeFields(b, at, left, got) == Done(fs, end) {
        var next := DecodeField(b, at).end;
        DecodesIffSpelled(b, at, fs[0], next);
        FieldsIff(b, next, left - 1, got + 1, fs[1..], end);
        assert b[at..end][..next - at] == b[at..next] && b[at..end][next - at..] == b[next..end];
      }
      if |fs| == left && got + left <= MAX_FIELDS && at <= end <= |b| && SpellsAll(b[at..end], fs) {
        var k :| 0 <= k <= |b[at..end]| && Spells(b[at..end][..k], fs[0]) && SpellsAll(b[at..end][k..], fs[1..]);
        assert b[at..end][..k] == b[at..at + k] && b[at..end][k..] == b[at + k..end];
        SpellingIsNotEmpty(b[at..at + k], fs[0]);
        DecodesIffSpelled(b, at, fs[0], at + k);
        FieldsIff(b, at + k, left - 1, got + 1, fs[1..], end);
        assert fs == [fs[0]] + fs[1..];
      }
    }
  }

  lemma SpellingIsNotEmpty(s: bytes, f: Field)
    requires Spells(s, f)
    ensures s != []
  {}

  lemma HeaderAt(b: bytes, k: nat, n: nat)
    requires 0 < k <= |b|
    ensures ArrayHeader(b[..k], n) <==>
      (|| (n < 16 && b[0] == 0x90 + n && k == 1)
       || (b[0] == 0xDC && k == 3 && Number(b, 1, 2) == n) || (b[0] == 0xDD && k == 5 && Number(b, 1, 4) == n))
  {
    hide Marked, Number;
    assert b[..k] == b[0..k];
    OneByteAt(b, 0, k);
    MarkedAt(b, 0, k, 0xDC, 2, n);
    MarkedAt(b, 0, k, 0xDD, 4, n);
  }

  /** Behind a header of `k` bytes the frame's values are read up to its end. */
  lemma BehindHeader(b: bytes, k: nat, fs: seq<Field>, end: nat)
    requires 0 < k <= end <= |b| && ArrayHeader(b[..k], |fs|)
    ensures DecodeOne(b) == Done(fs, end) <==> |fs| <= 8 && SpellsAll(b[k..end], fs)
  {
    HeaderAt(b, k, |fs|);
    FieldsIff(b, k, |fs|, 0, fs, end);
    hide ArrayHeader, SpellsAll, DecodeField, Number, Spells;
  }

  /**
    The decoder takes a frame of this length off the buffer exactly when those bytes are an array of at
    most eight scalar values, whichever of their forms the writer chose.
   */
  lemma FrameDecodesIffSpelled(b: bytes, fs: seq<Field>, end: nat)
    ensures DecodeOne(b) == Done(fs, end) <==> end <= |b| && SpellsFrame(b[..end], fs)
  {
    hide SpellsAll, DecodeField;
    if DecodeOne(b) == Done(fs, end) {
      var k := if b[0] < 0xA0 then 1 else if b[0] == 0xDC then 3 else 5;
      FieldsIff(b, k, if b[0] < 0xA0 then b[0] as int - 0x90 else Number(b, 1, k - 1), 0, fs, end);
      HeaderAt(b, k, |fs|);
      hide DecodeOne, Number, ArrayHeader;
      BehindHeader(b, k, fs, end);
      assert b[..end][..k] == b[..k] && b[..end][k..] == b[k..end];
    }
    hide DecodeOne, Number, ArrayHeader;
    if end <= |b| && SpellsFrame(b[..end], fs) {
      var k :| 0 <= k <= |b[..end]| && ArrayHeader(b[..end][..k], |fs|) && SpellsAll(b[..end][k..], fs);
      assert b[..end][..k] == b[..k] && b[..end][k..] == b[k..end];
      HeaderIsNotEmpty(b[..k], |fs|);
      BehindHeader(b, k, fs, end);
    }
  }

  lemma HeaderIsNotEmpty(s: bytes, n: nat)
    requires ArrayHeader(s, n)
    ensures s != []
  {}
}
