/** Word splitting from the writer's side: every way to write words, and what the splitters read back. */
module WordForms {
  import opened Results
  import opened Characters
  import opened Quoting

  /** Inside double quotes a character stands for itself, or for itself behind a backslash. */
  datatype Item = Verbatim(c: char) | Backslashed(c: char)

  /** What a word is made of: bare and escaped characters, and quoted stretches. */
  datatype Piece = Bare(c: char) | Escape(c: char) | Single(text: string) | Double(items: seq<Item>)

  predicate ItemFits(i: Item) {
    i.Verbatim? ==> i.c != '"' && i.c != '\\'
  }

  predicate PieceFits(p: Piece) {
    match p
    case Bare(c) => c !in {'\'', '"', '\\'} && !IsSpace(c)
    case Escape(_) => true
    case Single(text) => '\'' !in text
    case Double(items) => forall k :: 0 <= k < |items| ==> ItemFits(items[k])
  }

  function ItemForm(i: Item): string {
    match i
    case Verbatim(c) => [c]
    case Backslashed(c) => ['\\', c]
  }

  function ItemForms(items: seq<Item>): string {
    if items == [] then "" else ItemForm(items[0]) + ItemForms(items[1..])
  }

  function ItemText(items: seq<Item>): (s: string)
    ensures |s| == |items| && forall k :: 0 <= k < |s| ==> s[k] == items[k].c
  {
    seq(|items|, k requires 0 <= k < |items| => items[k].c)
  }

  function Form(p: Piece): string {
    match p
    case Bare(c) => [c]
    case Escape(c) => ['\\', c]
    case Single(text) => "'" + text + "'"
    case Double(items) => "\"" + ItemForms(items) + "\""
  }

  function Meaning(p: Piece): string {
    match p
    case Bare(c) => [c]
    case Escape(c) => [c]
    case Single(text) => text
    case Double(items) => ItemText(items)
  }

  function WordForm(word: seq<Piece>): string {
    if word == [] then "" else Form(word[0]) + WordForm(word[1..])
  }

  function WordMeaning(word: seq<Piece>): string {
    if word == [] then "" else Meaning(word[0]) + WordMeaning(word[1..])
  }

  /** A word and the white space behind it. */
  datatype Placed = Placed(word: seq<Piece>, gap: string)

  /** Words are not empty, and white space stands between them. */
  predicate Fits(line: seq<Placed>) {
    forall k :: 0 <= k < |line| ==>
      && line[k].word != [] && IsBlank(line[k].gap) && (k < |line| - 1 ==> line[k].gap != [])
      && forall m :: 0 <= m < |line[k].word| ==> PieceFits(line[k].word[m])
  }

  function LineForm(line: seq<Placed>): string {
    if line == [] then "" else WordForm(line[0].word) + line[0].gap + LineForm(line[1..])
  }

  function LineWords(line: seq<Placed>): (words: seq<string>)
    ensures |words| == |line| && forall k :: 0 <= k < |words| ==> words[k] == WordMeaning(line[k].word)
  {
    seq(|line|, k requires 0 <= k < |line| => WordMeaning(line[k].word))
  }

  // ---------------------------------------------------------------- one step of the scan

  lemma ScanOne(l: Lexer, c: char, rest: string, lone: bool)
    ensures l.quote == Some('"') && c != '"' && c != '\\' ==>
              Scan(l, [c] + rest, lone) == Scan(l.(current := l.current + [c]), rest, lone)
    ensures l.quote == Some('\'') && c != '\'' ==>
              Scan(l, [c] + rest, lone) == Scan(l.(current := l.current + [c]), rest, lone)
    ensures l.quote == Some(c) && (c == '"' || c == '\'') ==> Scan(l, [c] + rest, lone) == Scan(l.(quote := None), rest, lone)
    ensures l.quote.None? && (c == '"' || c == '\'') ==>
              Scan(l, [c] + rest, lone) == Scan(l.(quote := Some(c), inWord := true), rest, lone)
    ensures l.quote.None? && PieceFits(Bare(c)) ==>
              Scan(l, [c] + rest, lone) == Scan(l.(current := l.current + [c], inWord := true), rest, lone)
    ensures l.quote.None? && IsSpace(c) ==>
              Scan(l, [c] + rest, lone)
              == Scan(if l.inWord then Lexer(l.words + [l.current], "", false, None) else l, rest, lone)
  {
    assert ([c] + rest)[1..] == rest;
  }

  lemma ScanPair(l: Lexer, c: char, rest: string, lone: bool)
    requires l.quote.None? || l.quote == Some('"')
    ensures Scan(l, ['\\', c] + rest, lone)
         == Scan(l.(current := l.current + [c], inWord := l.inWord || l.quote.None?), rest, lone)
  {
    var s := ['\\', c] + rest;
    assert s[2..] == rest && s[0] == '\\' && s[1] == c;
  }

  lemma {:induction false} ScanSingle(l: Lexer, text: string, rest: string, lone: bool)
    requires l.quote == Some('\'') && '\'' !in text
    ensures Scan(l, text + rest, lone) == Scan(l.(current := l.current + text), rest, lone)
    decreases |text|
  {
    hide Scan;
    if text == [] {
      assert text + rest == rest && l.current + text == l.current;
    } else {
      var head, more := [text[0]], text[1..];
      assert text == head + more;
      Regroup(head, more, rest);
      Regroup(l.current, head, more);
      ScanOne(l, text[0], more + rest, lone);
      ScanSingle(l.(current := l.current + head), more, rest, lone);
    }
  }

  lemma FirstItem(items: seq<Item>)
    requires items != []
    ensures ItemText(items) == [items[0].c] + ItemText(items[1..])
    ensures ItemForms(items) == ItemForm(items[0]) + ItemForms(items[1..])
  {}

  lemma ScanItem(l: Lexer, item: Item, rest: string, lone: bool)
    requires l.quote == Some('"') && l.inWord && ItemFits(item)
    ensures Scan(l, ItemForm(item) + rest, lone) == Scan(l.(current := l.current + [item.c]), rest, lone)
  {
    hide Scan;
    if item.Verbatim? {
      ScanOne(l, item.c, rest, lone);
    } else {
      ScanPair(l, item.c, rest, lone);
    }
  }

  lemma {:induction false} ScanDouble(l: Lexer, items: seq<Item>, rest: string, lone: bool)
    requires l.quote == Some('"') && l.inWord && forall k :: 0 <= k < |items| ==> ItemFits(items[k])
    ensures Scan(l, ItemForms(items) + rest, lone) == Scan(l.(current := l.current + ItemText(items)), rest, lone)
    decreases |items|
  {
    hide Scan;
    if items == [] {
      assert "" + rest == rest && l.current + ItemText(items) == l.current;
    } else {
      FirstItem(items);
      hide ItemForms, ItemText, ItemForm, ItemFits;
      var head, more := [items[0].c], items[1..];
      Regroup(ItemForm(items[0]), ItemForms(more), rest);
      Regroup(l.current, head, ItemText(more));
      ScanItem(l, items[0], ItemForms(more) + rest, lone);
      ScanDouble(l.(current := l.current + head), more, rest, lone);
    }
  }

  lemma ScanSinglePiece(l: Lexer, text: string, rest: string, lone: bool)
    requires l.quote.None? && '\'' !in text
    ensures Scan(l, "'" + text + "'" + rest, lone) == Scan(l.(current := l.current + text, inWord := true), rest, lone)
  {
    hide Scan;
    var inside := l.(quote := Some('\''), inWord := true);
    Regroup("'" + text, "'", rest);
    Regroup("'", text, "'" + rest);
    ScanOne(l, '\'', text + ("'" + rest), lone);
    ScanSingle(inside, text, "'" + rest, lone);
    ScanOne(inside.(current := l.current + text), '\'', rest, lone);
  }

  lemma ScanDoublePiece(l: Lexer, items: seq<Item>, rest: string, lone: bool)
    requires l.quote.None? && forall k :: 0 <= k < |items| ==> ItemFits(items[k])
    ensures Scan(l, "\"" + ItemForms(items) + "\"" + rest, lone)
         == Scan(l.(current := l.current + ItemText(items), inWord := true), rest, lone)
  {
    hide Scan, ItemForms, ItemText;
    var inside := l.(quote := Some('"'), inWord := true);
    var text := ItemForms(items);
    Regroup("\"" + text, "\"", rest);
    Regroup("\"", text, "\"" + rest);
    ScanOne(l, '"', text + ("\"" + rest), lone);
    ScanDouble(inside, items, "\"" + rest, lone);
    ScanOne(inside.(current := l.current + ItemText(items)), '"', rest, lone);
  }

  /** A piece adds its meaning to the word being read, and opens one if there is none. */
  lemma ScanPiece(l: Lexer, p: Piece, rest: string, lone: bool)
    requires l.quote.None? && PieceFits(p)
    ensures Scan(l, Form(p) + rest, lone) == Scan(l.(current := l.current + Meaning(p), inWord := true), rest, lone)
  {
    hide Scan, ItemForms, ItemText;
    match p
    case Bare(c) => ScanOne(l, c, rest, lone);
    case Escape(c) => ScanPair(l, c, rest, lone);
    case Single(text) => ScanSinglePiece(l, text, rest, lone);
    case Double(items) => ScanDoublePiece(l, items, rest, lone);
  }

  lemma {:induction false} ScanWord(l: Lexer, word: seq<Piece>, rest: string, lone: bool)
    requires l.quote.None? && forall m :: 0 <= m < |word| ==> PieceFits(word[m])
    ensures Scan(l, WordForm(word) + rest, lone)
         == Scan(l.(current := l.current + WordMeaning(word), inWord := l.inWord || word != []), rest, lone)
    decreases |word|
  {
    hide Scan, Form, Meaning, PieceFits;
    if word == [] {
      assert "" + rest == rest && l.current + "" == l.current;
    } else {
      var more := word[1..];
      Regroup(Form(word[0]), WordForm(more), rest);
      Regroup(l.current, Meaning(word[0]), WordMeaning(more));
      ScanPiece(l, word[0], WordForm(more) + rest, lone);
      ScanWord(l.(current := l.current + Meaning(word[0]), inWord := true), more, rest, lone);
    }
  }

  lemma {:induction false} ScanBlank(l: Lexer, gap: string, rest: string, lone: bool)
    requires l.quote.None? && IsBlank(gap)
    ensures Scan(l, gap + rest, lone)
         == Scan(if l.inWord && gap != [] then Lexer(l.words + [l.current], "", false, None) else l, rest, lone)
    decreases |gap|
  {
    hide Scan;
    if gap == [] {
      assert gap + rest == rest;
    } else {
      assert gap + rest == [gap[0]] + (gap[1..] + rest);
      ScanOne(l, gap[0], gap[1..] + rest, lone);
      ScanBlank(if l.inWord then Lexer(l.words + [l.current], "", false, None) else l, gap[1..], rest, lone);
    }
  }

  /** Between words, with these words read. */
  function Between(words: seq<string>): Lexer {
    Lexer(words, "", false, None)
  }

  /** Where the scan stands behind a line: between words, or still in the last one. */
  function Behind(words: seq<string>, line: seq<Placed>): Lexer
    requires Fits(line)
  {
    if line == [] then Between(words)
    else if line[|line| - 1].gap != [] then Between(words + LineWords(line))
    else Lexer(words + LineWords(line)[..|line| - 1], WordMeaning(line[|line| - 1].word), true, None)
  }

  /** One word and the white space behind it. */
  lemma ScanPlaced(words: seq<string>, p: Placed, rest: string, lone: bool)
    requires p.word != [] && IsBlank(p.gap) && forall m :: 0 <= m < |p.word| ==> PieceFits(p.word[m])
    ensures Scan(Between(words), WordForm(p.word) + p.gap + rest, lone)
         == Scan(if p.gap != [] then Between(words + [WordMeaning(p.word)])
                 else Lexer(words, WordMeaning(p.word), true, None), rest, lone)
  {
    hide Scan, WordForm, WordMeaning, PieceFits;
    Regroup(WordForm(p.word), p.gap, rest);
    ScanWord(Between(words), p.word, p.gap + rest, lone);
    assert "" + WordMeaning(p.word) == WordMeaning(p.word);
    ScanBlank(Lexer(words, WordMeaning(p.word), true, None), p.gap, rest, lone);
  }

  lemma RegroupWords(words: seq<string>, first: string, more: seq<string>)
    requires more != []
    ensures words + [first] + more == words + ([first] + more)
    ensures words + [first] + more[..|more| - 1] == words + ([first] + more)[..|more|]
  {}

  lemma BehindFirst(words: seq<string>, line: seq<Placed>)
    requires Fits(line) && |line| > 1
    ensures Behind(words, line) == Behind(words + [WordMeaning(line[0].word)], line[1..])
  {
    hide WordMeaning, PieceFits;
    var first, more := WordMeaning(line[0].word), line[1..];
    assert LineWords(line) == [first] + LineWords(more);
    hide LineWords;
    RegroupWords(words, first, LineWords(more));
  }

  lemma {:induction false} ScanLine(words: seq<string>, line: seq<Placed>, rest: string, lone: bool)
    requires Fits(line)
    ensures Scan(Between(words), LineForm(line) + rest, lone) == Scan(Behind(words, line), rest, lone)
    decreases |line|
  {
    hide Scan, WordForm, WordMeaning, PieceFits, LineWords;
    if line == [] {
      assert "" + rest == rest;
    } else {
      var first, more := line[0], line[1..];
      var tail := LineForm(more) + rest;
      Regroup(WordForm(first.word) + first.gap, LineForm(more), rest);
      ScanPlaced(words, first, tail, lone);
      if |line| == 1 {
        assert LineForm(more) == "" && "" + rest == rest;
        assert LineWords(line) == [WordMeaning(first.word)] && LineWords(line)[..0] == [];
        assert words + [] == words;
      } else {
        hide LineForm;
        BehindFirst(words, line);
        ScanLine(words + [WordMeaning(first.word)], more, rest, lone);
      }
    }
  }

  /** What the scan of a line comes to when the text ends there. */
  lemma BehindWords(line: seq<Placed>)
    requires Fits(line)
    ensures Words(Behind([], line)) == Ok(LineWords(line))
    ensures var alone := line == [] || line[|line| - 1].gap != [];
            Words(Behind([], line).(inWord := true)) == Ok(LineWords(line) + if alone then [""] else [])
  {
    hide WordMeaning, PieceFits;
    var words := LineWords(line);
    assert [] + words == words && words + [] == words;
    if line != [] && line[|line| - 1].gap == [] {
      assert [] + words[..|line| - 1] == words[..|line| - 1];
      assert words[..|line| - 1] + [words[|line| - 1]] == words;
    }
  }

  // ---------------------------------------------------------------- whole texts

  /**
    However words are written, with bare, escaped, single-quoted and double-quoted pieces and any white
    space around them, both splitters give back exactly what they mean.
   */
  lemma WrittenWordsSplitBack(lead: string, line: seq<Placed>, lone: bool)
    requires IsBlank(lead) && Fits(line)
    ensures Split(lead + LineForm(line), lone) == Ok(LineWords(line))
  {
    hide Scan, WordMeaning, PieceFits, Behind, LineForm, Fits;
    ScanBlank(START, lead, LineForm(line), lone);
    assert LineForm(line) + "" == LineForm(line);
    ScanLine([], line, "", lone);
    ScanEnd(Behind([], line), lone);
    BehindWords(line);
  }

  /** A quote that is opened behind such a line and never closed is refused. */
  lemma OpenQuoteIsRefused(lead: string, line: seq<Placed>, text: string, items: seq<Item>, lone: bool)
    requires IsBlank(lead) && Fits(line) && PieceFits(Single(text)) && PieceFits(Double(items))
    ensures Split(lead + (LineForm(line) + ("'" + text)), lone) == Err(UnterminatedQuote)
    ensures Split(lead + (LineForm(line) + ("\"" + ItemForms(items))), lone) == Err(UnterminatedQuote)
  {
    hide Scan, WordMeaning, LineForm, Fits, ItemForms;
    var l := Behind([], line);
    ScanBlank(START, lead, LineForm(line) + ("'" + text), lone);
    ScanBlank(START, lead, LineForm(line) + ("\"" + ItemForms(items)), lone);
    ScanLine([], line, "'" + text, lone);
    ScanLine([], line, "\"" + ItemForms(items), lone);
    ScanOpen(l, text, items, lone);
  }

  lemma ScanOpen(l: Lexer, text: string, items: seq<Item>, lone: bool)
    requires l.quote.None? && PieceFits(Single(text)) && PieceFits(Double(items))
    ensures Scan(l, "'" + text, lone).quote.Some? && Scan(l, "\"" + ItemForms(items), lone).quote.Some?
  {
    hide Scan, ItemForms;
    var single, double := l.(quote := Some('\''), inWord := true), l.(quote := Some('"'), inWord := true);
    ScanOne(l, '\'', text, lone);
    ScanSingle(single, text, "", lone);
    assert text + "" == text;
    ScanEnd(single.(current := l.current + text), lone);
    ScanOne(l, '"', ItemForms(items), lone);
    ScanDouble(double, items, "", lone);
    assert ItemForms(items) + "" == ItemForms(items);
    ScanEnd(double.(current := l.current + ItemText(items)), lone);
  }

  lemma ScanLoneBackslash(l: Lexer, lone: bool)
    requires l.quote.None?
    ensures Scan(l, "\\", lone) == l.(inWord := l.inWord || lone)
  {}

  /**
    A backslash at the very end of such a line: the ssh channel's splitter drops it, QEMU's also takes it
    for a word, an empty one if it stands alone.
   */
  lemma FinalBackslash(lead: string, line: seq<Placed>)
    requires IsBlank(lead) && Fits(line)
    ensures Split(lead + (LineForm(line) + "\\"), false) == Ok(LineWords(line))
    ensures var alone := line == [] || line[|line| - 1].gap != [];
            Split(lead + (LineForm(line) + "\\"), true) == Ok(LineWords(line) + if alone then [""] else [])
  {
    hide Scan, WordMeaning, PieceFits, LineForm, Fits, Behind;
    BehindWords(line);
    forall lone: bool
      ensures Scan(START, lead + (LineForm(line) + "\\"), lone)
           == Behind([], line).(inWord := Behind([], line).inWord || lone)
    {
      ScanBlank(START, lead, LineForm(line) + "\\", lone);
      ScanLine([], line, "\\", lone);
      assert Behind([], line).quote.None? by { BehindIsPlain(line); }
      ScanLoneBackslash(Behind([], line), lone);
    }
  }

  lemma BehindIsPlain(line: seq<Placed>)
    requires Fits(line)
    ensures Behind([], line).quote.None?
  {}
}
