/**
  What the bytes left in the reader's buffer can still become.

  The reader keeps waiting while `DecodeOne` answers `More`. That is not the same as holding the
  beginning of a frame: a cut-short top-level number, or a header that already announces too many
  fields or too long a value, is only refused once its last byte arrives. `FrameOpen` tells the two
  apart by looking at the bytes received so far.
 */
module Residue {
  import opened Bytes
  import opened Msgpack

  /** The bytes `b` begin some complete frame. */
  ghost predicate BeginsFrame(b: bytes) {
    exists c: bytes :: DecodeOne(b + c).Done?
  }

  /** The smallest value the number at `at` can still take; missing bytes count as zero. */
  function LeastNumber(b: bytes, at: nat, width: nat): nat {
    if width == 0 then 0
    else LeastNumber(b, at, width - 1) * 256 + (if at + width - 1 < |b| then b[at + width - 1] else 0)
  }

  /** A cut-short value at `at` may still be accepted. */
  predicate FieldOpen(b: bytes, at: nat) {
    |b| <= at ||
    var m: int := b[at];
    if 0xC4 <= m <= 0xC6 then LeastNumber(b, at + 1, Wide(m - 0xC4)) <= MAX_FIELD_BYTES
    else if 0xD9 <= m <= 0xDB then LeastNumber(b, at + 1, Wide(m - 0xD9)) <= MAX_FIELD_BYTES
    else !(0xC7 <= m <= 0xC9) && !(0xDC <= m <= 0xDF)
  }

  predicate FieldsOpen(b: bytes, at: nat, left: nat)
    decreases left
  {
    left == 0 ||
    match DecodeField(b, at)
    case More => FieldOpen(b, at)
    case Corrupt => false
    case Done(_, next) => FieldsOpen(b, next, left - 1)
  }

  /** An undecided buffer may still become a frame: judged from its own bytes only. */
  predicate FrameOpen(b: bytes) {
    b == [] ||
    var m: int := b[0];
    if 0x90 <= m < 0xA0 then m - 0x90 <= MAX_FIELDS && FieldsOpen(b, 1, m - 0x90)
    else if 0xDC <= m <= 0xDD then
      var w := Wide(m - 0xDB);
      var count := LeastNumber(b, 1, w);
      count <= MAX_FIELDS && (|b| < 1 + w || FieldsOpen(b, 1 + w, count))
    else false
  }

  // ------------------------------------------------------------ no way back once shut

  lemma {:induction false} LeastNumberIsLeast(b: bytes, c: bytes, at: nat, width: nat)
    requires at + width <= |b + c|
    ensures LeastNumber(b, at, width) <= Number(b + c, at, width)
    ensures at + width <= |b| ==> LeastNumber(b, at, width) == Number(b + c, at, width)
  {
    if width > 0 {
      LeastNumberIsLeast(b, c, at, width - 1);
    }
  }

  lemma ShutFieldStaysShut(b: bytes, c: bytes, at: nat)
    requires DecodeField(b, at).More? && !FieldOpen(b, at)
    ensures !DecodeField(b + c, at).Done?
  {
    var m: int := b[at];
    assert (b + c)[at] == m;
    if 0xC4 <= m <= 0xC6 && at + 1 + Wide(m - 0xC4) <= |b + c| {
      LeastNumberIsLeast(b, c, at + 1, Wide(m - 0xC4));
    } else if 0xD9 <= m <= 0xDB && at + 1 + Wide(m - 0xD9) <= |b + c| {
      LeastNumberIsLeast(b, c, at + 1, Wide(m - 0xD9));
    }
  }

  lemma {:induction false} TooManyFieldsNeverDone(b: bytes, at: nat, left: nat, got: nat)
    requires at <= |b| && left > 0 && got + left > MAX_FIELDS
    ensures !DecodeFields(b, at, left, got).Done?
    decreases left
  {
    hide DecodeField;
    var head := DecodeField(b, at);
    if head.Done? && left > 1 {
      TooManyFieldsNeverDone(b, head.end, left - 1, got + 1);
    }
  }

  lemma {:induction false} ShutFieldsStayShut(b: bytes, c: bytes, at: nat, left: nat, got: nat)
    requires at <= |b| && DecodeFields(b, at, left, got).More? && !FieldsOpen(b, at, left)
    ensures !DecodeFields(b + c, at, left, got).Done?
    decreases left
  {
    hide DecodeField, FieldOpen;
    match DecodeField(b, at)
    case More => ShutFieldStaysShut(b, c, at);
    case Corrupt =>
    case Done(_, next) =>
      FieldDecided(b, c, at);
      ShutFieldsStayShut(b, c, next, left - 1, got + 1);
  }

  lemma ShutFrameStaysShut(b: bytes, c: bytes)
    requires DecodeOne(b).More? && !FrameOpen(b)
    ensures !DecodeOne(b + c).Done?
  {
    hide DecodeField;
    var m: int := b[0];
    assert (b + c)[0] == m;
    if 0x90 <= m < 0xA0 {
      if m - 0x90 > MAX_FIELDS {
        TooManyFieldsNeverDone(b + c, 1, m - 0x90, 0);
      } else {
        ShutFieldsStayShut(b, c, 1, m - 0x90, 0);
      }
    } else if 0xDC <= m <= 0xDD {
      var w := Wide(m - 0xDB);
      if 1 + w <= |b + c| {
        LeastNumberIsLeast(b, c, 1, w);
        if LeastNumber(b, 1, w) > MAX_FIELDS {
          TooManyFieldsNeverDone(b + c, 1 + w, Number(b + c, 1, w), 0);
        } else {
          LeastNumberIsLeast(b, [], 1, w);
          assert b + [] == b;
          ShutFieldsStayShut(b, c, 1 + w, Number(b, 1, w), 0);
        }
      }
    }
  }

  // ------------------------------------------------------------ zeros complete what is open

  function Zeros(n: nat): (z: bytes)
    ensures |z| == n && forall i :: 0 <= i < n ==> z[i] == 0
  {
    seq(n, i => 0)
  }

  lemma {:induction false} PaddedNumber(b: bytes, k: nat, at: nat, width: nat)
    requires at + width <= |b| + k
    ensures Number(b + Zeros(k), at, width) == LeastNumber(b, at, width)
  {
    if width > 0 {
      PaddedNumber(b, k, at, width - 1);
    }
  }

  lemma {:induction false} LeastOfNarrow(b: bytes, at: nat, width: nat)
    requires width <= 2
    ensures LeastNumber(b, at, width) < 0x1_0000
    ensures width <= 1 ==> LeastNumber(b, at, width) < 0x100
  {
    if width > 0 {
      LeastOfNarrow(b, at, width - 1);
    }
  }

  /** How many zero bytes complete the open value at `at`. */
  function Missing(b: bytes, at: nat): int {
    if |b| <= at then at + 1 - |b| else
    var m: int := b[at];
    var body :=
      if m < 0xA0 then 0
      else if m < 0xC0 then m - 0xA0
      else if 0xC4 <= m <= 0xC6 then Wide(m - 0xC4) + LeastNumber(b, at + 1, Wide(m - 0xC4))
      else if 0xD9 <= m <= 0xDB then Wide(m - 0xD9) + LeastNumber(b, at + 1, Wide(m - 0xD9))
      else if 0xCA <= m <= 0xCB then Wide(m - 0xC8)
      else if 0xCC <= m <= 0xCF then Wide(m - 0xCC)
      else if 0xD0 <= m <= 0xD3 then Wide(m - 0xD0)
      else 0;
    at + 1 + body - |b|
  }

  lemma SizedPadded(b: bytes, k: nat, at: nat, width: nat, text: bool)
    requires |b| + k == at + width + LeastNumber(b, at, width)
    requires LeastNumber(b, at, width) <= MAX_FIELD_BYTES
    ensures Sized(b + Zeros(k), at, width, text).Done?
    ensures Sized(b + Zeros(k), at, width, text).end == |b| + k
  {
    hide Utf8;
    PaddedNumber(b, k, at, width);
  }

  lemma SizedMissing(b: bytes, at: nat, width: nat, text: bool)
    requires Sized(b, at, width, text).More?
    ensures at + width + LeastNumber(b, at, width) > |b|
  {
    hide Utf8;
    if at + width <= |b| {
      LeastNumberIsLeast(b, [], at, width);
      assert b + [] == b;
    }
  }

  lemma OpenFieldCompletes(b: bytes, at: nat)
    requires at <= |b| && DecodeField(b, at).More? && FieldOpen(b, at)
    ensures Missing(b, at) > 0
    ensures var z := b + Zeros(Missing(b, at)); DecodeField(z, at).Done? && DecodeField(z, at).end == |z|
  {
    hide Utf8;
    if |b| <= at {
      assert (b + Zeros(1))[at] == 0;
    } else {
      var m: int := b[at];
      if 0xC4 <= m <= 0xC6 {
        SizedMissing(b, at + 1, Wide(m - 0xC4), false);
        SizedPadded(b, Missing(b, at), at + 1, Wide(m - 0xC4), false);
      } else if 0xD9 <= m <= 0xDB {
        SizedMissing(b, at + 1, Wide(m - 0xD9), true);
        SizedPadded(b, Missing(b, at), at + 1, Wide(m - 0xD9), true);
      }
      assert (b + Zeros(Missing(b, at)))[at] == m;
    }
  }

  lemma {:induction false} ZeroFieldsDecode(b: bytes, at: nat, left: nat, got: nat)
    requires at + left <= |b| && got + left <= MAX_FIELDS
    requires forall i :: at <= i < at + left ==> b[i] == 0
    ensures DecodeFields(b, at, left, got).Done?
    decreases left
  {
    if left > 0 {
      assert b[at] == 0;
      ZeroFieldsDecode(b, at + 1, left - 1, got + 1);
    }
  }

  lemma {:induction false} OpenFieldsComplete(b: bytes, at: nat, left: nat, got: nat) returns (k: nat)
    requires at <= |b| && got + left <= MAX_FIELDS
    requires DecodeFields(b, at, left, got).More? && FieldsOpen(b, at, left)
    ensures DecodeFields(b + Zeros(k), at, left, got).Done?
    decreases left
  {
    hide DecodeField, FieldOpen, Missing;
    match DecodeField(b, at)
    case More =>
      OpenFieldCompletes(b, at);
      var j := Missing(b, at);
      k := j + left - 1;
      var z := b + Zeros(j);
      assert b + Zeros(k) == z + Zeros(left - 1);
      FieldDecided(z, Zeros(left - 1), at);
      ZeroFieldsDecode(b + Zeros(k), |z|, left - 1, got + 1);
    case Done(_, next) =>
      k := OpenFieldsComplete(b, next, left - 1, got + 1);
      FieldDecided(b, Zeros(k), at);
  }

  lemma OpenFrameCompletes(b: bytes) returns (c: bytes)
    requires DecodeOne(b).More? && FrameOpen(b)
    ensures DecodeOne(b + c).Done?
  {
    hide DecodeField, FieldOpen, Missing;
    if b == [] {
      c := [0x90];
    } else {
      var m: int := b[0];
      if m < 0xA0 {
        var k := OpenFieldsComplete(b, 1, m - 0x90, 0);
        c := Zeros(k);
      } else {
        var w := Wide(m - 0xDB);
        var count := LeastNumber(b, 1, w);
        if |b| < 1 + w {
          c := Zeros(1 + w - |b| + count);
          ZeroFieldsDecode(b + c, 1 + w, count, 0);
        } else {
          PaddedNumber(b, 0, 1, w);
          assert b + Zeros(0) == b;
          var k := OpenFieldsComplete(b, 1 + w, count, 0);
          c := Zeros(k);
        }
        PaddedNumber(b, |c|, 1, w);
      }
      assert (b + c)[0] == m;
    }
  }

  /** An undecided buffer is the beginning of a frame exactly when `FrameOpen` says so. */
  lemma BeginsFrameIffOpen(b: bytes)
    requires DecodeOne(b).More?
    ensures BeginsFrame(b) <==> FrameOpen(b)
  {
    hide DecodeOne, FrameOpen;
    if FrameOpen(b) {
      var c := OpenFrameCompletes(b);
    } else {
      forall c: bytes ensures !DecodeOne(b + c).Done? {
        ShutFrameStaysShut(b, c);
      }
    }
  }

  /** One byte of a cut-short top-level number keeps the reader waiting for a frame that cannot come. */
  lemma WaitingInVain()
    ensures DecodeOne([0xCC]).More? && !BeginsFrame([0xCC])
  {
    BeginsFrameIffOpen([0xCC]);
  }
}
