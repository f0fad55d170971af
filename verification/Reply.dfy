/** Reading the return code off a guest's reply to `echo $?-<code>`. */
module Reply {
  import opened Results
  import opened Characters

  const I32_MAX: nat := 0x7FFF_FFFF

  datatype ReplyError = NoMarker | BadNumber

  /** A class of decimal digits: it holds the ASCII ones, and neither the dash nor the newline. */
  ghost predicate DigitClass(digit: char -> bool) {
    (forall c :: '0' <= c <= '9' ==> digit(c)) && !digit('-') && !digit('\n')
  }

  /** The end of the digit run that starts at `i`. */
  function RunEnd(text: string, i: nat, digit: char -> bool): (e: nat)
    requires i <= |text|
    ensures i <= e <= |text|
    ensures forall k :: i <= k < e ==> digit(text[k])
    ensures e < |text| ==> !digit(text[e])
    decreases |text| - i
  {
    if i < |text| && digit(text[i]) then RunEnd(text, i + 1, digit) else i
  }

  /** Digits, as many as there are, a dash and the code start at `i`. */
  predicate MarkerAt(text: string, i: nat, code: string, digit: char -> bool) {
    i < |text| && digit(text[i]) && ("-" + code) <= text[RunEnd(text, i, digit)..]
  }

  /** The leftmost marker. */
  function FindMarker(text: string, code: string, digit: char -> bool): (r: Option<nat>)
    ensures match r
            case Some(i) => MarkerAt(text, i, code, digit) && forall k: nat :: k < i ==> !MarkerAt(text, k, code, digit)
            case None => forall k: nat :: !MarkerAt(text, k, code, digit)
  {
    FindMarkerFrom(text, 0, code, digit)
  }

  function FindMarkerFrom(text: string, from: nat, code: string, digit: char -> bool): (r: Option<nat>)
    requires forall k: nat :: k < from ==> !MarkerAt(text, k, code, digit)
    ensures match r
            case Some(i) => MarkerAt(text, i, code, digit) && forall k: nat :: k < i ==> !MarkerAt(text, k, code, digit)
            case None => forall k: nat :: !MarkerAt(text, k, code, digit)
    decreases |text| - from
  {
    if from >= |text| then None
    else if MarkerAt(text, from, code, digit) then Some(from)
    else FindMarkerFrom(text, from + 1, code, digit)
  }

  // ---------------------------------------------------------------- numbers

  predicate AsciiDigits(s: string) {
    forall i :: 0 <= i < |s| ==> '0' <= s[i] <= '9'
  }

  function Value(s: string): nat
    requires AsciiDigits(s)
  {
    if s == [] then 0 else Value(s[..|s| - 1]) * 10 + (s[|s| - 1] - '0') as nat
  }

  function Decimal(n: nat): (s: string)
    ensures s != [] && AsciiDigits(s) && Value(s) == n
    ensures |s| > 1 ==> s[0] != '0'
  {
    var last := [('0' as int + n % 10) as char];
    if n < 10 then
      assert Value(last[..0]) == 0;
      last
    else
      var s := Decimal(n / 10) + last;
      assert s[..|s| - 1] == Decimal(n / 10);
      s
  }

  /** Reading a 32-bit signed integer; a digit run has no sign. */
  function ParseI32(s: string): Result<int, ReplyError> {
    if s != [] && AsciiDigits(s) && Value(s) <= I32_MAX then Ok(Value(s)) else Err(BadNumber)
  }

  // ---------------------------------------------------------------- replies

  /** The output between the first character and the marker; nothing if that is no character boundary. */
  function OutputBefore(text: string, marker: nat): string
    requires marker <= |text|
  {
    if marker >= 1 && text[0] < '\U{0080}' then text[1..marker] else ""
  }

  function ParseReply(text: string, code: string, digit: char -> bool): Result<(string, int), ReplyError> {
    if IsBlank(text) then Ok((text, -1))
    else
      match FindMarker(text, code, digit)
      case None => Err(NoMarker)
      case Some(i) =>
        match ParseI32(text[i..RunEnd(text, i, digit)])
        case Err(e) => Err(e)
        case Ok(n) => Ok((OutputBefore(text, i), n))
  }

  /** `i` is where the first marker starts, with these digits. */
  ghost predicate FirstMarker(text: string, code: string, digit: char -> bool, i: nat, digits: string) {
    && MarkerAt(text, i, code, digit) && (forall k: nat :: k < i ==> !MarkerAt(text, k, code, digit))
    && digits == text[i..RunEnd(text, i, digit)]
  }

  /**
    Everything reading a text can come to: nothing but white space stands for no command, with return code
    -1; without a marker it is refused, and so it is if the digits of the first one are not a number of 32
    bits; else that number is the return code, and the output is what stands between the first character
    and the marker, or nothing if that character is not ASCII.
   */
  lemma ParsesTo(text: string, code: string, digit: char -> bool)
    ensures IsBlank(text) ==> ParseReply(text, code, digit) == Ok((text, -1))
    ensures !IsBlank(text) && (forall k: nat :: !MarkerAt(text, k, code, digit)) ==>
              ParseReply(text, code, digit) == Err(NoMarker)
    ensures forall i: nat, digits :: !IsBlank(text) && FirstMarker(text, code, digit, i, digits) ==>
              ParseReply(text, code, digit) ==
              if !AsciiDigits(digits) || Value(digits) > 0x7FFF_FFFF then Err(BadNumber)
              else Ok((if i > 0 && text[0] as int <= 0x7F then text[1..i] else "", Value(digits)))
  {
    hide RunEnd, FindMarkerFrom;
    forall i: nat, digits | FirstMarker(text, code, digit, i, digits)
      ensures FindMarker(text, code, digit) == Some(i) && digits != []
    {
      assert text[RunEnd(text, i, digit)..][0] == '-';
      DigitsNotEmpty(text, i, digit);
    }
  }

  lemma DigitsNotEmpty(text: string, i: nat, digit: char -> bool)
    requires i < |text| && digit(text[i])
    ensures RunEnd(text, i, digit) > i
  {}

  /** What the guest sends back: a newline, the command's output, the marker, and a prompt or more. */
  function GuestReply(output: string, status: nat, code: string, tail: string): string {
    "\n" + output + (Decimal(status) + "-" + code) + tail
  }

  lemma MiddleOf(before: string, number: string, after: string)
    ensures var text := before + number + ("-" + after);
            var i, e := |before|, |before| + |number|;
            && e < |text| && text[e] == '-' && text[e..] == "-" + after && text[i..e] == number
            && forall k :: i <= k < e ==> text[k] == number[k - i]
  {}

  /** The run of digits from `i` ends at the first position that holds no digit. */
  lemma RunEndsAt(text: string, i: nat, e: nat, digit: char -> bool)
    requires i <= e < |text| && !digit(text[e]) && forall k :: i <= k < e ==> digit(text[k])
    ensures RunEnd(text, i, digit) == e
  {
    var r := RunEnd(text, i, digit);
    assert !(r < e) && !(e < r);
  }

  /** A digit run ends where a dash follows it. */
  lemma RunUpToDash(before: string, number: string, after: string, digit: char -> bool)
    requires DigitClass(digit) && AsciiDigits(number)
    ensures var text := before + number + ("-" + after);
            && RunEnd(text, |before|, digit) == |before| + |number|
            && text[|before| + |number|..] == "-" + after
            && text[|before|..|before| + |number|] == number
  {
    hide RunEnd;
    MiddleOf(before, number, after);
    RunEndsAt(before + number + ("-" + after), |before|, |before| + |number|, digit);
  }

  /** The guest's own marker is found where the output ends. */
  lemma OwnMarker(output: string, status: nat, code: string, tail: string, digit: char -> bool)
    requires DigitClass(digit)
    ensures var text := GuestReply(output, status, code, tail);
            var at := 1 + |output|;
            && at < |text| && MarkerAt(text, at, code, digit)
            && text[at..RunEnd(text, at, digit)] == Decimal(status)
            && text[0] == '\n' && text[1..at] == output
  {
    hide Decimal, RunEnd, Value;
    var before, number := "\n" + output, Decimal(status);
    var text := GuestReply(output, status, code, tail);
    assert text == before + number + ("-" + (code + tail));
    RunUpToDash(before, number, code + tail, digit);
    assert text[|before|] == number[0];
    assert ("-" + code) + tail == "-" + (code + tail);
    assert text[1..|before|] == before[1..] == output;
  }

  /** No marker starts in the output: neither inside it, nor where its end runs into the guest's own. */
  ghost predicate Unambiguous(output: string, status: nat, code: string, tail: string, digit: char -> bool) {
    forall i :: 1 <= i <= |output| ==> !MarkerAt(GuestReply(output, status, code, tail), i, code, digit)
  }

  /**
    The reply is read back as exactly the command's output and return code if and only if no marker
    starts inside the output; whatever the code, and whatever follows the reply.
   */
  lemma ReplyReadBackIff(output: string, status: nat, code: string, tail: string, digit: char -> bool)
    requires DigitClass(digit) && status <= I32_MAX
    ensures ParseReply(GuestReply(output, status, code, tail), code, digit) == Ok((output, status))
       <==> Unambiguous(output, status, code, tail, digit)
  {
    hide Decimal, RunEnd, GuestReply, FindMarkerFrom;
    var text := GuestReply(output, status, code, tail);
    var at := 1 + |output|;
    OwnMarker(output, status, code, tail, digit);
    assert !IsBlank(text) by {
      var c := Decimal(status)[0];
      assert text[at] == text[at..RunEnd(text, at, digit)][0] == c && !IsSpace(c);
    }
    var found := FindMarker(text, code, digit).value;
    assert found <= at;
    assert !MarkerAt(text, 0, code, digit);
    if Unambiguous(output, status, code, tail, digit) {
      assert found == at;
    } else {
      assert 1 <= found < at;
      assert |OutputBefore(text, found)| < |output|;
    }
  }

  /** Output that ends in a digit runs into the return code: "5" and 0 are read back as nothing and 50. */
  lemma DigitsRunTogether(code: string, tail: string, digit: char -> bool)
    requires DigitClass(digit)
    ensures ParseReply(GuestReply("5", 0, code, tail), code, digit) == Ok(("", 50))
  {
    hide RunEnd, FindMarkerFrom;
    var text := GuestReply("5", 0, code, tail);
    assert Decimal(0) == "0";
    assert text == "\n" + "50" + ("-" + (code + tail));
    RunUpToDash("\n", "50", code + tail, digit);
    assert ("-" + code) + tail == "-" + (code + tail);
    assert text[0] == '\n' && text[1] == '5';
    assert MarkerAt(text, 1, code, digit) && !MarkerAt(text, 0, code, digit);
    assert FindMarker(text, code, digit) == Some(1);
    assert "50"[..1] == "5" && "5"[..0] == "" && Value("") == 0 && Value("5") == 5 && Value("50") == 50;
    assert ParseI32("50") == Ok(50);
    assert RunEnd(text, 1, digit) == 3 && text[1..3] == "50";
    assert OutputBefore(text, 1) == "";
    assert !IsSpace(text[1]) && !IsBlank(text);
  }

  lemma {:induction false} RunInside(text: string, before: string, rest: string, i: nat, digit: char -> bool)
    requires i < |text| && !digit(text[|text| - 1])
    ensures RunEnd(before + text + rest, |before| + i, digit) == |before| + RunEnd(text, i, digit)
    ensures RunEnd(text, i, digit) < |text|
    decreases |text| - i
  {
    var all := before + text + rest;
    assert all[|before| + i] == text[i];
    if digit(text[i]) {
      RunInside(text, before, rest, i + 1, digit);
    }
  }

  /**
    For output that ends in a newline, and a code without one, the condition is about the output alone:
    it must not contain a marker.
   */
  lemma LinesAreUnambiguousIff(output: string, status: nat, code: string, tail: string, digit: char -> bool)
    requires DigitClass(digit) && output != [] && output[|output| - 1] == '\n' && '\n' !in code
    ensures Unambiguous(output, status, code, tail, digit)
       <==> forall i: nat :: !MarkerAt(output, i, code, digit)
  {
    hide MarkerAt, GuestReply;
    forall i: nat | i < |output|
      ensures MarkerAt(GuestReply(output, status, code, tail), 1 + i, code, digit) <==> MarkerAt(output, i, code, digit)
    {
      MarkerShifts(output, status, code, tail, i, digit);
    }
    if i: nat :| MarkerAt(output, i, code, digit) {
      assert i < |output| by { MarkersLieInside(output, i, code, digit); }
      assert MarkerAt(GuestReply(output, status, code, tail), 1 + i, code, digit);
    }
    if i: nat :| 1 <= i <= |output| && MarkerAt(GuestReply(output, status, code, tail), i, code, digit) {
      assert MarkerAt(output, i - 1, code, digit);
    }
  }

  lemma MarkersLieInside(text: string, i: nat, code: string, digit: char -> bool)
    requires MarkerAt(text, i, code, digit)
    ensures i < |text|
  {}

  /** A marker starts in such an output exactly where one starts in the reply. */
  lemma MarkerShifts(output: string, status: nat, code: string, tail: string, i: nat, digit: char -> bool)
    requires DigitClass(digit) && i < |output| && output[|output| - 1] == '\n' && '\n' !in code
    ensures MarkerAt(GuestReply(output, status, code, tail), 1 + i, code, digit) <==> MarkerAt(output, i, code, digit)
  {
    hide Decimal, RunEnd;
    var rest := Decimal(status) + "-" + code + tail;
    var text := GuestReply(output, status, code, tail);
    assert text == "\n" + output + rest;
    hide GuestReply;
    RunInside(output, "\n", rest, i, digit);
    var e := RunEnd(output, i, digit);
    MarkerInside(output, rest, e, code);
    assert text[1 + i] == output[i];
    assert text[1 + e..] == output[e..] + rest;
  }

  /** A dash and a code without newline cannot reach over the newline at the end of the output. */
  lemma MarkerInside(output: string, rest: string, e: nat, code: string)
    requires e < |output| && output[|output| - 1] == '\n' && '\n' !in code
    ensures "-" + code <= output[e..] + rest <==> "-" + code <= output[e..]
  {
    var mark, tail := "-" + code, output[e..];
    assert (tail + rest)[|tail| - 1] == '\n';
    assert forall k :: 0 <= k < |mark| ==> mark[k] != '\n';
    if mark <= tail + rest {
      assert |mark| < |tail|;
      assert mark == (tail + rest)[..|mark|];
    }
  }
}
