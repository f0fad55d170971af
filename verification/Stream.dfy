/** Decoding a whole byte stream, and how it relates to decoding the stream piece by piece. */
module Stream {
  import opened Bytes
  import opened Msgpack

  type Frame = seq<Field>

  /** The frames at the head of a stream and the bytes left where decoding stops. */
  datatype Decoded = Decoded(frames: seq<Frame>, rest: bytes)

  function DecodeAll(b: bytes): Decoded
    decreases |b|
  {
    match DecodeOne(b)
    case Done(frame, used) =>
      var d := DecodeAll(b[used..]);
      Decoded([frame] + d.frames, d.rest)
    case _ => Decoded([], b)
  }

  function Concat(parts: seq<bytes>): bytes {
    if parts == [] then [] else parts[0] + Concat(parts[1..])
  }

  lemma {:induction false} ConcatAppend(xs: seq<bytes>, ys: seq<bytes>)
    ensures Concat(xs + ys) == Concat(xs) + Concat(ys)
  {
    if xs == [] {
      assert xs + ys == ys;
    } else {
      ConcatAppend(xs[1..], ys);
      assert (xs + ys)[1..] == xs[1..] + ys;
      assert xs[0] + (Concat(xs[1..]) + Concat(ys)) == xs[0] + Concat(xs[1..]) + Concat(ys);
    }
  }

  lemma ConcatLast(xs: seq<bytes>, x: bytes)
    ensures Concat(xs + [x]) == Concat(xs) + x
  {
    ConcatAppend(xs, [x]);
    assert Concat([x]) == x + Concat([x][1..]);
    assert [x][1..] == [];
  }

  /** Decoding can be interrupted anywhere: the rest is picked up with the bytes that follow. */
  lemma {:induction false} DecodeAllResumes(a: bytes, c: bytes)
    ensures var first := DecodeAll(a);
            var second := DecodeAll(first.rest + c);
            DecodeAll(a + c) == Decoded(first.frames + second.frames, second.rest)
    decreases |a|
  {
    hide DecodeOne;
    match DecodeOne(a)
    case Done(frame, used) =>
      FrameDecided(a, c);
      assert (a + c)[used..] == a[used..] + c;
      DecodeAllResumes(a[used..], c);
    case _ =>
  }

  lemma {:induction false} RestIsSuffix(b: bytes)
    ensures |DecodeAll(b).rest| <= |b| && b[|b| - |DecodeAll(b).rest|..] == DecodeAll(b).rest
    ensures !DecodeOne(DecodeAll(b).rest).Done?
    decreases |b|
  {
    hide DecodeOne;
    match DecodeOne(b)
    case Done(frame, used) => RestIsSuffix(b[used..]);
    case _ =>
  }

  /** The packings of a list of frames, one behind the other. */
  ghost predicate PackableAll(fs: seq<Frame>) {
    forall i :: 0 <= i < |fs| ==> PackableFrame(fs[i])
  }

  ghost predicate FittingAll(fs: seq<Frame>) {
    forall i :: 0 <= i < |fs| ==> PackableFrame(fs[i]) && FittingFrame(fs[i])
  }

  ghost function PackAll(fs: seq<Frame>): bytes
    requires PackableAll(fs)
  {
    if fs == [] then [] else EncodeFrame(fs[0]) + PackAll(fs[1..])
  }

  lemma {:induction false} PackAllAppend(xs: seq<Frame>, ys: seq<Frame>)
    requires PackableAll(xs) && PackableAll(ys)
    ensures PackAll(xs + ys) == PackAll(xs) + PackAll(ys)
  {
    hide EncodeFrame;
    if xs == [] {
      assert xs + ys == ys;
    } else {
      assert (xs + ys)[1..] == xs[1..] + ys;
      PackAllAppend(xs[1..], ys);
      var head := EncodeFrame(xs[0]);
      assert head + (PackAll(xs[1..]) + PackAll(ys)) == head + PackAll(xs[1..]) + PackAll(ys);
    }
  }

  /** A concatenation of packed frames, cut anywhere, parses back to the frames it holds in full. */
  lemma {:induction false} PackedPrefixDecodes(fs: seq<Frame>, k: nat)
    requires PackableAll(fs) && FittingAll(fs) && k <= |PackAll(fs)|
    ensures var d := DecodeAll(PackAll(fs)[..k]);
            && d.frames <= fs
            && DecodeOne(d.rest) == More
            && PackAll(fs[..|d.frames|]) + d.rest == PackAll(fs)[..k]
    decreases |fs|
  {
    hide DecodeOne, EncodeFrame;
    if fs == [] {
      assert DecodeOne([]) == More by { EmptyNeedsMore(); }
    } else {
      var head, tail := EncodeFrame(fs[0]), PackAll(fs[1..]);
      if k < |head| {
        FrameRoundTrip(fs[0], []);
        assert head + [] == head;
        StrictPrefixNeedsMore(head, k);
        assert (head + tail)[..k] == head[..k];
        assert fs[..0] == [];
      } else {
        PackedPrefixDecodes(fs[1..], k - |head|);
        WholeFrameFirst(fs, k);
      }
    }
  }

  lemma FrameThenRest(frame: Frame, rest: bytes)
    requires PackableFrame(frame) && FittingFrame(frame)
    ensures var d := DecodeAll(rest);
            DecodeAll(EncodeFrame(frame) + rest) == Decoded([frame] + d.frames, d.rest)
  {
    hide DecodeOne, EncodeFrame, PackableFrame, FittingFrame;
    FrameRoundTrip(frame, rest);
    assert (EncodeFrame(frame) + rest)[|EncodeFrame(frame)|..] == rest;
  }

  lemma PackAllFirst(fs: seq<Frame>)
    requires PackableAll(fs) && fs != []
    ensures PackAll(fs) == EncodeFrame(fs[0]) + PackAll(fs[1..])
  {
    hide EncodeFrame, PackableFrame;
  }

  /** A cut behind the first frame: that frame, and what the rest of the cut decodes to. */
  lemma WholeFrameFirst(fs: seq<Frame>, k: nat)
    requires PackableAll(fs) && FittingAll(fs) && fs != [] && |EncodeFrame(fs[0])| <= k <= |PackAll(fs)|
    requires var d := DecodeAll(PackAll(fs[1..])[..k - |EncodeFrame(fs[0])|]);
             && d.frames <= fs[1..] && DecodeOne(d.rest) == More
             && PackAll(fs[1..][..|d.frames|]) + d.rest == PackAll(fs[1..])[..k - |EncodeFrame(fs[0])|]
    ensures var d := DecodeAll(PackAll(fs)[..k]);
            && d.frames <= fs && DecodeOne(d.rest) == More
            && PackAll(fs[..|d.frames|]) + d.rest == PackAll(fs)[..k]
  {
    hide DecodeOne, EncodeFrame, DecodeAll, PackAll, PackableFrame, FittingFrame;
    PackAllFirst(fs);
    var head, tail := EncodeFrame(fs[0]), PackAll(fs[1..]);
    var cut := tail[..k - |head|];
    assert (head + tail)[..k] == head + cut;
    FrameThenRest(fs[0], cut);
    var d := DecodeAll(cut);
    var some := fs[..1 + |d.frames|];
    PackAllFirst(some);
    assert some[1..] == fs[1..][..|d.frames|] && some[0] == fs[0];
    assert head + (PackAll(some[1..]) + d.rest) == head + PackAll(some[1..]) + d.rest;
  }

  lemma EmptyNeedsMore()
    ensures DecodeOne([]) == More
  {}

  /** The whole concatenation parses back to exactly its frames, with nothing left. */
  lemma {:induction false} PackedAllDecodes(fs: seq<Frame>)
    requires PackableAll(fs) && FittingAll(fs)
    ensures DecodeAll(PackAll(fs)) == Decoded(fs, [])
  {
    hide DecodeOne, EncodeFrame;
    if fs == [] {
      EmptyNeedsMore();
    } else {
      var head, tail := EncodeFrame(fs[0]), PackAll(fs[1..]);
      FrameRoundTrip(fs[0], tail);
      assert (head + tail)[|head|..] == tail;
      PackedAllDecodes(fs[1..]);
    }
  }
}
