/** Bytes, big-endian numbers and UTF-8, shared by the wire codec and the text scanners. */
module Bytes {

  type byte = x: int | 0 <= x < 256

  type bytes = seq<byte>

  /** Value of the big-endian number of `width` bytes that starts at position `at`. */
  function Number(b: bytes, at: nat, width: nat): nat
    requires at + width <= |b|
  {
    if width == 0 then 0 else Number(b, at, width - 1) * 256 + b[at + width - 1]
  }

  lemma {:induction false} SameNumber(b: bytes, i: nat, c: bytes, j: nat, width: nat)
    requires i + width <= |b| && j + width <= |c|
    requires forall k :: i <= k < i + width ==> b[k] == c[k - i + j]
    ensures Number(b, i, width) == Number(c, j, width)
  {
    if width > 0 {
      SameNumber(b, i, c, j, width - 1);
    }
  }

  function TwoBytes(n: nat): (b: bytes)
    requires n < 0x1_0000
    ensures |b| == 2 && Number(b, 0, 2) == n
  {
    var b := [n / 256, n % 256];
    assert Number(b, 0, 1) == n / 256;
    b
  }

  function FourBytes(n: nat): (b: bytes)
    requires n < 0x1_0000_0000
    ensures |b| == 4 && Number(b, 0, 4) == n
  {
    var b := [n / 0x100_0000, n / 0x1_0000 % 256, n / 0x100 % 256, n % 256];
    assert Number(b, 0, 1) == n / 0x100_0000;
    assert Number(b, 0, 2) == n / 0x1_0000;
    assert Number(b, 0, 3) == n / 0x100;
    b
  }

  /** A byte of the form 10xxxxxx never starts a character. */
  predicate Continuation(x: byte) {
    0x80 <= x < 0xC0
  }

  /** Length of the well-formed UTF-8 character at position `i` (RFC 3629, section 4), or 0. */
  function CharLength(b: bytes, i: nat): (n: nat)
    requires i < |b|
    ensures i + n <= |b|
  {
    var h: int := b[i];
    var left := |b| - i;
    if h < 0x80 then 1
    else if 0xC2 <= h < 0xE0 && left >= 2 && Continuation(b[i + 1]) then 2
    else if 0xE0 <= h < 0xF0 && left >= 3 && Continuation(b[i + 1]) && Continuation(b[i + 2])
         && (h == 0xE0 ==> 0xA0 <= b[i + 1]) && (h == 0xED ==> b[i + 1] < 0xA0) then 3
    else if 0xF0 <= h < 0xF5 && left >= 4
         && Continuation(b[i + 1]) && Continuation(b[i + 2]) && Continuation(b[i + 3])
         && (h == 0xF0 ==> 0x90 <= b[i + 1]) && (h == 0xF4 ==> b[i + 1] < 0x90) then 4
    else 0
  }

  predicate Utf8From(b: bytes, i: nat)
    requires i <= |b|
    decreases |b| - i
  {
    i == |b| || (CharLength(b, i) > 0 && Utf8From(b, i + CharLength(b, i)))
  }

  predicate Utf8(b: bytes) {
    Utf8From(b, 0)
  }
}
