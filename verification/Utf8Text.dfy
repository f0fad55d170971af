/** UTF-8 from the writer's side: well-formed text is exactly what encoding some characters gives. */
module Utf8Text {
  import opened Bytes

  /** A code point that stands for a character: no surrogate. */
  predicate Scalar(c: nat) {
    c < 0x11_0000 && !(0xD800 <= c < 0xE000)
  }

  /** The encoding of a character (RFC 3629, section 3). */
  function EncodeChar(c: nat): (b: bytes)
    requires Scalar(c)
    ensures 1 <= |b| <= 4
  {
    if c < 0x80 then [c]
    else if c < 0x800 then [0xC0 + c / 0x40, 0x80 + c % 0x40]
    else if c < 0x1_0000 then [0xE0 + c / 0x1000, 0x80 + c / 0x40 % 0x40, 0x80 + c % 0x40]
    else [0xF0 + c / 0x4_0000, 0x80 + c / 0x1000 % 0x40, 0x80 + c / 0x40 % 0x40, 0x80 + c % 0x40]
  }

  predicate Scalars(cs: seq<nat>) {
    forall i :: 0 <= i < |cs| ==> Scalar(cs[i])
  }

  function EncodeText(cs: seq<nat>): bytes
    requires Scalars(cs)
  {
    if cs == [] then [] else EncodeChar(cs[0]) + EncodeText(cs[1..])
  }

  lemma CharIsRecognised(b: bytes, i: nat, c: nat)
    requires Scalar(c) && i + |EncodeChar(c)| <= |b| && b[i..i + |EncodeChar(c)|] == EncodeChar(c)
    ensures CharLength(b, i) == |EncodeChar(c)|
  {
    var e := EncodeChar(c);
    assert b[i] == e[0];
    if |e| > 1 { assert b[i + 1] == e[1]; }
    if |e| > 2 { assert b[i + 2] == e[2]; }
    if |e| > 3 { assert b[i + 3] == e[3]; }
  }

  lemma Sextets(q: nat, r: nat)
    requires r < 0x40
    ensures (q * 0x40 + r) / 0x40 == q && (q * 0x40 + r) % 0x40 == r
  {}

  lemma ThreeBytes(h: nat, x: nat, y: nat) returns (c: nat)
    requires 0xE0 <= h < 0xF0 && 0x80 <= x < 0xC0 && 0x80 <= y < 0xC0
    requires (h == 0xE0 ==> 0xA0 <= x) && (h == 0xED ==> x < 0xA0)
    ensures Scalar(c) && EncodeChar(c) == [h, x, y]
  {
    var p: nat, q: nat := h - 0xE0, (h - 0xE0) * 0x40 + (x - 0x80);
    c := q * 0x40 + (y - 0x80);
    Sextets(q, y - 0x80);
    Sextets(p, x - 0x80);
    assert c / 0x1000 == p;
  }

  lemma FourBytesOf(h: nat, x: nat, y: nat, z: nat) returns (c: nat)
    requires 0xF0 <= h < 0xF5 && 0x80 <= x < 0xC0 && 0x80 <= y < 0xC0 && 0x80 <= z < 0xC0
    requires (h == 0xF0 ==> 0x90 <= x) && (h == 0xF4 ==> x < 0x90)
    ensures Scalar(c) && EncodeChar(c) == [h, x, y, z]
  {
    var p: nat, q: nat := h - 0xF0, (h - 0xF0) * 0x40 + (x - 0x80);
    var r: nat := q * 0x40 + (y - 0x80);
    c := r * 0x40 + (z - 0x80);
    Sextets(r, z - 0x80);
    Sextets(q, y - 0x80);
    Sextets(p, x - 0x80);
    assert c / 0x1000 == q && c / 0x4_0000 == p;
  }

  /** The code point a recognised character stands for. */
  lemma RecognisedIsChar(b: bytes, i: nat) returns (c: nat)
    requires i < |b| && CharLength(b, i) > 0
    ensures Scalar(c) && EncodeChar(c) == b[i..i + CharLength(b, i)]
  {
    var n: nat := CharLength(b, i);
    var h: int := b[i];
    if n == 1 {
      c := h;
      assert b[i..i + 1] == [h];
    } else if n == 2 {
      var x: int := b[i + 1];
      c := (h - 0xC0) * 0x40 + (x - 0x80);
      assert b[i..i + 2] == [h, x];
    } else if n == 3 {
      hide EncodeChar, Scalar;
      c := ThreeBytes(h, b[i + 1], b[i + 2]);
      assert b[i..i + 3] == [h, b[i + 1], b[i + 2]];
    } else {
      hide EncodeChar, Scalar;
      c := FourBytesOf(h, b[i + 1], b[i + 2], b[i + 3]);
      assert b[i..i + 4] == [h, b[i + 1], b[i + 2], b[i + 3]];
    }
  }

  lemma {:induction false} EncodedIsUtf8(b: bytes, i: nat, cs: seq<nat>)
    requires Scalars(cs) && i <= |b| && b[i..] == EncodeText(cs)
    ensures Utf8From(b, i)
    decreases |cs|
  {
    hide EncodeChar, CharLength;
    if cs != [] {
      var head := EncodeChar(cs[0]);
      assert b[i..][..|head|] == b[i..i + |head|] && b[i..][|head|..] == b[i + |head|..];
      CharIsRecognised(b, i, cs[0]);
      EncodedIsUtf8(b, i + |head|, cs[1..]);
    }
  }

  lemma {:induction false} Utf8IsEncoded(b: bytes, i: nat) returns (cs: seq<nat>)
    requires i <= |b| && Utf8From(b, i)
    ensures Scalars(cs) && EncodeText(cs) == b[i..]
    decreases |b| - i
  {
    hide EncodeChar, CharLength;
    if i == |b| {
      cs := [];
    } else {
      var c := RecognisedIsChar(b, i);
      var n := CharLength(b, i);
      var rest := Utf8IsEncoded(b, i + n);
      cs := [c] + rest;
      assert b[i..] == b[i..i + n] + b[i + n..] && cs[1..] == rest;
    }
  }

  /** Bytes are accepted as text exactly when they are the encoding of some characters. */
  lemma Utf8IffEncoded(b: bytes)
    ensures Utf8(b) <==> exists cs: seq<nat> :: Scalars(cs) && EncodeText(cs) == b
  {
    hide EncodeText;
    assert b[0..] == b;
    if Utf8(b) {
      var cs := Utf8IsEncoded(b, 0);
    }
    if cs: seq<nat> :| Scalars(cs) && EncodeText(cs) == b {
      EncodedIsUtf8(b, 0, cs);
    }
  }
}
