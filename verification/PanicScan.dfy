/** Watching streamed output for the kernel's panic message without searching all of it each time. */
module PanicScan {
  import opened Bytes
  import opened Results
  import opened TextSearch

  /** "Kernel panic" in ASCII. */
  const MARKER: bytes := [75, 101, 114, 110, 101, 108, 32, 112, 97, 110, 105, 99]

  const MAX_OUTPUT_BYTES: nat := 8 * 0x10_0000

  lemma MarkerIsTheMessage()
    ensures |MARKER| == |"Kernel panic"| && forall i :: 0 <= i < |MARKER| ==> MARKER[i] == "Kernel panic"[i] as int
  {}

  /** The marker is ASCII: it cannot start inside a multibyte character. */
  lemma MarkerStartsACharacter(text: bytes, at: nat)
    requires OccursAt(text, at, MARKER)
    ensures at < |text| && !Continuation(text[at])
  {
    assert text[at] == text[at..at + |MARKER|][0];
  }

  /**
    If only positions inside characters lie between `safe` and `from`, and no match lies before `safe`,
    then searching from `from` finds the marker whenever the whole text has it.
   */
  lemma TailSearchSuffices(text: bytes, safe: nat, from: nat)
    requires from <= |text|
    requires forall at: nat :: at < safe ==> !OccursAt(text, at, MARKER)
    requires forall i :: safe <= i < from ==> Continuation(text[i])
    ensures Contains(text[from..], MARKER) <==> Contains(text, MARKER)
  {
    TailContains(text, from, MARKER);
    if at: nat :| OccursAt(text, at, MARKER) {
      MarkerStartsACharacter(text, at);
      assert from <= at;
    }
  }

  /** No match that ends inside the old text, if the old text has none. */
  lemma NewMatchesReachNewText(text: bytes, more: bytes, at: nat)
    requires !Contains(text, MARKER) && OccursAt(text + more, at, MARKER)
    ensures at + |MARKER| > |text|
  {
    OccursInLonger(text, at, MARKER, more);
  }

  /** The ssh channel's accumulator. */
  class OutputCollector {
    var buf: bytes
    var panic: bool

    /** The flag says whether the marker is anywhere in the whole output. */
    ghost predicate Valid()
      reads this
    {
      panic <==> Contains(buf, MARKER)
    }

    constructor ()
      ensures Valid() && buf == []
    {
      buf, panic := [], false;
    }

    method Push(chunk: bytes)
      requires Valid()
      modifies this
      ensures Valid() && buf == old(buf) + chunk
    {
      if panic {
        ghost var at: nat :| OccursAt(buf, at, MARKER);
        OccursInLonger(buf, at, MARKER, chunk);
        buf := buf + chunk;
        return;
      }
      var safe: nat := if |buf| < |MARKER| then 0 else |buf| - |MARKER|;
      var from := safe;
      while !Boundary(buf, from)
        invariant safe <= from <= |buf|
        invariant forall i :: safe <= i < from ==> Continuation(buf[i])
        decreases |buf| - from
      {
        from := from + 1;
      }
      buf := buf + chunk;
      forall at: nat | at < safe ensures !OccursAt(buf, at, MARKER) {
        if OccursAt(buf, at, MARKER) {
          NewMatchesReachNewText(old(buf), chunk, at);
        }
      }
      TailSearchSuffices(buf, safe, from);
      if Find(buf[from..], MARKER).Some? {
        panic := true;
      }
    }
  }

  // ---------------------------------------------------------------- the shell channel

  /** Looks only at the last `appended` bytes and what may run into them. */
  method TailContainsPanic(text: bytes, appended: nat) returns (found: bool)
    requires appended <= |text|
    ensures found ==> Contains(text, MARKER)
    ensures Contains(text, MARKER) ==> found || Contains(text[..|text| - appended], MARKER)
  {
    var from: nat := if |text| < appended + |MARKER| then 0 else |text| - (appended + |MARKER|);
    from := FloorBoundary(text, from);
    found := Find(text[from..], MARKER).Some?;
    TailContains(text, from, MARKER);
    if at: nat :| OccursAt(text, at, MARKER) {
      var older := text[..|text| - appended];
      assert text == older + text[|text| - appended..];
      OccursInLonger(older, at, MARKER, text[|text| - appended..]);
    }
  }

  /** One read of the pipe: how many raw bytes it took, and their text. */
  datatype Chunk = Chunk(raw: nat, text: bytes)

  /** The text of the reads before the cap on raw bytes was exceeded. */
  function Kept(chunks: seq<Chunk>): bytes {
    if chunks == [] then []
    else
      var last := |chunks| - 1;
      Kept(chunks[..last]) + (if Raw(chunks) > MAX_OUTPUT_BYTES then [] else chunks[last].text)
  }

  function Raw(chunks: seq<Chunk>): nat {
    if chunks == [] then 0 else Raw(chunks[..|chunks| - 1]) + chunks[|chunks| - 1].raw
  }

  /** The texts of some reads, one behind the other. */
  function Texts(chunks: seq<Chunk>): bytes {
    if chunks == [] then [] else chunks[0].text + Texts(chunks[1..])
  }

  /** The bytes some reads took off the pipe. */
  function Size(chunks: seq<Chunk>): nat {
    if chunks == [] then 0 else chunks[0].raw + Size(chunks[1..])
  }

  lemma {:induction false} SizeGrows(chunks: seq<Chunk>)
    requires chunks != []
    ensures Size(chunks) == Size(chunks[..|chunks| - 1]) + chunks[|chunks| - 1].raw
    decreases |chunks|
  {
    var n := |chunks| - 1;
    if n > 0 {
      SizeGrows(chunks[1..]);
      assert chunks[1..][..n - 1] == chunks[..n][1..];
    }
  }

  lemma {:induction false} RawIsSize(chunks: seq<Chunk>)
    ensures Raw(chunks) == Size(chunks)
    decreases |chunks|
  {
    if chunks != [] {
      RawIsSize(chunks[..|chunks| - 1]);
      SizeGrows(chunks);
    }
  }

  lemma {:induction false} TextsGrow(chunks: seq<Chunk>, k: nat)
    requires k < |chunks|
    ensures Texts(chunks[..k + 1]) == Texts(chunks[..k]) + chunks[k].text
    decreases k
  {
    assert chunks[..k + 1][1..] == chunks[1..][..k];
    if k == 0 {
      assert Texts(chunks[1..][..0]) == [] && chunks[..1][0] == chunks[0];
    } else {
      TextsGrow(chunks[1..], k - 1);
      assert chunks[..k][1..] == chunks[1..][..k - 1];
      assert chunks[0].text + (Texts(chunks[1..][..k - 1]) + chunks[k].text)
          == chunks[0].text + Texts(chunks[1..][..k - 1]) + chunks[k].text;
    }
  }

  /** What is kept is exactly the reads before the first that brings their total size over 8 MiB, whole and in order. */
  lemma KeptIsWholePrefix(chunks: seq<Chunk>) returns (k: nat)
    ensures k <= |chunks| && Kept(chunks) == Texts(chunks[..k])
    ensures Size(chunks[..k]) <= 0x80_0000 && (k < |chunks| ==> Size(chunks[..k + 1]) > 0x80_0000)
  {
    k := KeptUpTo(chunks);
    RawIsSize(chunks[..k]);
    if k < |chunks| {
      RawIsSize(chunks[..k + 1]);
    }
  }

  lemma {:induction false} KeptUpTo(chunks: seq<Chunk>) returns (k: nat)
    ensures k <= |chunks| && Kept(chunks) == Texts(chunks[..k])
    ensures Raw(chunks[..k]) <= 0x80_0000 && (k < |chunks| ==> Raw(chunks[..k + 1]) > 0x80_0000)
    decreases |chunks|
  {
    if chunks == [] {
      k := 0;
    } else {
      var n := |chunks| - 1;
      k := KeptUpTo(chunks[..n]);
      assert chunks[..n][..k] == chunks[..k];
      assert k < n ==> chunks[..n][..k + 1] == chunks[..k + 1];
      assert chunks[..n + 1] == chunks;
      if k < n {
        assert Raw(chunks) > 0x80_0000 by { RawGrows(chunks, k + 1); }
      } else if Raw(chunks) <= 0x80_0000 {
        TextsGrow(chunks, n);
        k := n + 1;
      }
    }
  }

  lemma {:induction false} RawGrows(chunks: seq<Chunk>, k: nat)
    requires k <= |chunks|
    ensures Raw(chunks[..k]) <= Raw(chunks)
    decreases |chunks|
  {
    if k < |chunks| {
      var n := |chunks| - 1;
      RawGrows(chunks[..n], k);
      assert chunks[..n][..k] == chunks[..k];
    } else {
      assert chunks[..k] == chunks;
    }
  }

  /** The flag is set exactly when the output kept so far contains the marker. */
  method StreamOutput(chunks: seq<Chunk>) returns (stdout: bytes, overCap: bool, sawPanic: bool)
    ensures stdout == Kept(chunks)
    ensures overCap <==> Raw(chunks) > MAX_OUTPUT_BYTES
    ensures sawPanic <==> Contains(stdout, MARKER)
  {
    stdout, overCap, sawPanic := [], false, false;
    var used := 0;
    var i := 0;
    while i < |chunks|
      invariant i <= |chunks| && used == Raw(chunks[..i]) && stdout == Kept(chunks[..i])
      invariant overCap <==> used > MAX_OUTPUT_BYTES
      invariant sawPanic <==> Contains(stdout, MARKER)
    {
      var n, text := chunks[i].raw, chunks[i].text;
      i := i + 1;
      assert chunks[..i][..i - 1] == chunks[..i - 1];
      used := used + n;
      if used > MAX_OUTPUT_BYTES {
        overCap := true;
        continue;
      }
      ghost var older := stdout;
      stdout := stdout + text;
      var found := TailContainsPanic(stdout, |text|);
      assert stdout[..|stdout| - |text|] == older;
      if found {
        sawPanic := true;
      }
      if at: nat :| OccursAt(older, at, MARKER) {
        OccursInLonger(older, at, MARKER, text);
      }
    }
    assert chunks[..i] == chunks;
  }
}
